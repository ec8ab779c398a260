/**
 Base64 as the wire protocol writes and reads it (the alphabet and padding of
 section 4 of RFC 4648), with the reader's 32-bit accumulator wrapping as it does.
 */
module Base64 {
  import opened Common

  type Sextet = n: nat | n < 64

  const WORD: nat := 0x1_0000_0000

  // ---- the alphabet --------------------------------------------------------

  function Letter(v: Sextet): char {
    if v < 26 then 'A' + v as char
    else if v < 52 then 'a' + (v - 26) as char
    else if v < 62 then '0' + (v - 52) as char
    else if v == 62 then '+'
    else '/'
  }

  function SextetOf(c: char): Option<Sextet> {
    if 'A' <= c <= 'Z' then Some((c - 'A') as Sextet)
    else if 'a' <= c <= 'z' then Some((c - 'a') as nat + 26)
    else if '0' <= c <= '9' then Some((c - '0') as nat + 52)
    else if c == '+' then Some(62)
    else if c == '/' then Some(63)
    else None
  }

  lemma LetterReads(v: Sextet)
    ensures SextetOf(Letter(v)) == Some(v) && Letter(v) != '='
  {
  }

  lemma LetterIsTheOnlyOne(c: char)
    ensures SextetOf(c).Some? ==> Letter(SextetOf(c).value) == c
  {
  }

  // The alphabet of section 4 of RFC 4648, in its order.
  const CAPITALS: string := "ABCDEFGHIJKLMNOPQRSTUVWXYZ"
  const SMALL: string := "abcdefghijklmnopqrstuvwxyz"
  const DIGITS: string := "0123456789"

  lemma TheCapitals(i: nat)
    requires i < 26
    ensures |CAPITALS| == 26 && CAPITALS[i] == 'A' + i as char
  {
    assert i < 13 ==> CAPITALS[i] == "ABCDEFGHIJKLM"[i];
  }

  lemma TheSmallLetters(i: nat)
    requires i < 26
    ensures |SMALL| == 26 && SMALL[i] == 'a' + i as char
  {
    assert i < 13 ==> SMALL[i] == "abcdefghijklm"[i];
  }

  lemma TheDigits(i: nat)
    requires i < 10
    ensures |DIGITS| == 10 && DIGITS[i] == '0' + i as char
  {
  }

  /** A sextet is written as the character at its place in the alphabet, and nothing else is read as it. */
  lemma TheAlphabet(v: Sextet, c: char)
    ensures |CAPITALS| == 26 && |SMALL| == 26 && |DIGITS| == 10
    ensures Letter(v) == (CAPITALS + SMALL + DIGITS + "+/")[v]
    ensures SextetOf(c) == Some(v) <==> c == Letter(v)
  {
    LetterReads(v);
    LetterIsTheOnlyOne(c);
    if v < 26 {
      TheCapitals(v);
    } else if v < 52 {
      TheSmallLetters(v - 26);
    } else if v < 62 {
      TheDigits(v - 52);
    }
  }

  // ---- numbers in a base -----------------------------------------------------

  /** Bytes as the digits of a number. */
  function OfBytes(bytes: seq<Byte>): nat {
    if bytes == [] then 0 else OfBytes(bytes[..|bytes| - 1]) * 256 + bytes[|bytes| - 1]
  }

  /** Sextets as the digits of a number. */
  function OfSextets(sextets: seq<Sextet>): nat {
    if sextets == [] then 0 else OfSextets(sextets[..|sextets| - 1]) * 64 + sextets[|sextets| - 1]
  }

  lemma OfBytesSnoc(bytes: seq<Byte>, b: Byte)
    ensures OfBytes(bytes + [b]) == OfBytes(bytes) * 256 + b
  {
    assert (bytes + [b])[..|bytes|] == bytes;
  }

  lemma OfSextetsSnoc(sextets: seq<Sextet>, v: Sextet)
    ensures OfSextets(sextets + [v]) == OfSextets(sextets) * 64 + v
  {
    assert (sextets + [v])[..|sextets|] == sextets;
  }

  /** As many bytes making the same number are the same bytes. */
  lemma {:induction false} BytesAreTheirNumber(a: seq<Byte>, b: seq<Byte>)
    requires |a| == |b| && OfBytes(a) == OfBytes(b)
    ensures a == b
    decreases |a|
  {
    if a != [] {
      var m, n := |a| - 1, |b| - 1;
      assert OfBytes(a[..m]) == OfBytes(a) / 256 && a[m] == OfBytes(a) % 256;
      assert OfBytes(b[..n]) == OfBytes(b) / 256 && b[n] == OfBytes(b) % 256;
      BytesAreTheirNumber(a[..m], b[..n]);
      assert a == a[..m] + [a[m]] && b == b[..n] + [b[n]];
    }
  }

  lemma {:induction false} SextetsAreTheirNumber(a: seq<Sextet>, b: seq<Sextet>)
    requires |a| == |b| && OfSextets(a) == OfSextets(b)
    ensures a == b
    decreases |a|
  {
    if a != [] {
      var m, n := |a| - 1, |b| - 1;
      assert OfSextets(a[..m]) == OfSextets(a) / 64 && a[m] == OfSextets(a) % 64;
      assert OfSextets(b[..n]) == OfSextets(b) / 64 && b[n] == OfSextets(b) % 64;
      SextetsAreTheirNumber(a[..m], b[..n]);
      assert a == a[..m] + [a[m]] && b == b[..n] + [b[n]];
    }
  }

  // ---- reading -----------------------------------------------------------------

  function TrimPadding(text: string): string {
    if text != "" && text[|text| - 1] == '=' then TrimPadding(text[..|text| - 1]) else text
  }

  /** Every character's sextet, if every one has one. */
  function SextetsOf(text: string): Option<seq<Sextet>> {
    if text == "" then Some([])
    else
      match SextetsOf(text[..|text| - 1])
      case None => None
      case Some(before) =>
        match SextetOf(text[|text| - 1])
        case None => None
        case Some(v) => Some(before + [v])
  }

  /** A number with `bits` zero bits behind it. */
  function Raised(n: nat, bits: nat): nat
    requires bits in {0, 2, 4, 6}
  {
    if bits == 0 then n else if bits == 2 then n * 4 else if bits == 4 then n * 16 else n * 64
  }

  /** A number's lowest `bits` bits, and what stands above them. */
  function Low(n: nat, bits: nat): nat
    requires bits in {0, 2, 4, 6}
  {
    if bits == 0 then 0 else if bits == 2 then n % 4 else if bits == 4 then n % 16 else n % 64
  }

  function Above(n: nat, bits: nat): nat
    requires bits in {0, 2, 4, 6}
  {
    if bits == 0 then n else if bits == 2 then n / 4 else if bits == 4 then n / 16 else n / 64
  }

  /**
   Whether `out` is what the sextets spell: their bits, less the few at the end
   that make no whole byte.
   */
  predicate Spells(sextets: seq<Sextet>, out: seq<Byte>) {
    var spare := 6 * |sextets| - 8 * |out|;
    && spare in {0, 2, 4, 6}
    && OfBytes(out) == Above(OfSextets(sextets), spare)
  }

  /** Only one byte string is spelt by given sextets. */
  lemma SpellsOnlyOne(sextets: seq<Sextet>, a: seq<Byte>, b: seq<Byte>)
    requires Spells(sextets, a) && Spells(sextets, b)
    ensures a == b
  {
    BytesAreTheirNumber(a, b);
  }

  /**
   One character into the accumulator: shifted in 32 bits, and a byte given up
   as soon as there is one. The bits still undelivered never reach the top.
   */
  method Shift(acc: nat, bits: nat, v: Sextet) returns (acc': nat, bits': nat, out: seq<Byte>)
    requires acc < WORD && bits in {0, 2, 4, 6}
    ensures acc' < WORD && bits' in {0, 2, 4, 6}
    ensures |out| <= 1 && 8 * |out| + bits' == bits + 6
    ensures Low(acc, bits) * 64 + v == Raised(OfBytes(out), bits') + Low(acc', bits')
  {
    WrappingKeepsTheLowBits(acc, v, bits);
    acc' := (acc * 64) % WORD + v;
    bits' := bits + 6;
    out := [];
    if bits' >= 8 {
      bits' := bits' - 8;
      ByteAboveTheRest(acc', bits');
      out := [Above(acc', bits') % 256];
      OfBytesSnoc([], out[0]);
    }
  }

  lemma WrappedAt0(acc: nat, v: Sextet, k: nat, r: nat)
    requires acc * 64 == k * 0x1_0000_0000 + r
    ensures (r + v) % 64 == (acc % 1) * 64 + v
  {
    var j, low := acc / 1 - k * 67108864, (acc % 1) * 64 + v;
    assert r + v == 64 * j + low && 0 <= low < 64;
  }

  lemma WrappedAt2(acc: nat, v: Sextet, k: nat, r: nat)
    requires acc * 64 == k * 0x1_0000_0000 + r
    ensures (r + v) % 256 == (acc % 4) * 64 + v
  {
    var j, low := acc / 4 - k * 16777216, (acc % 4) * 64 + v;
    assert r + v == 256 * j + low && 0 <= low < 256;
  }

  lemma WrappedAt4(acc: nat, v: Sextet, k: nat, r: nat)
    requires acc * 64 == k * 0x1_0000_0000 + r
    ensures (r + v) % 1024 == (acc % 16) * 64 + v
  {
    var j, low := acc / 16 - k * 4194304, (acc % 16) * 64 + v;
    assert r + v == 1024 * j + low && 0 <= low < 1024;
  }

  lemma WrappedAt6(acc: nat, v: Sextet, k: nat, r: nat)
    requires acc * 64 == k * 0x1_0000_0000 + r
    ensures (r + v) % 4096 == (acc % 64) * 64 + v
  {
    var j, low := acc / 64 - k * 1048576, (acc % 64) * 64 + v;
    assert r + v == 4096 * j + low && 0 <= low < 4096;
  }

  /** Shifting in 32 bits loses nothing of the low bits. */
  lemma WrappingKeepsTheLowBits(acc: nat, v: Sextet, bits: nat)
    requires bits in {0, 2, 4, 6}
    ensures (acc * 64) % WORD + v < WORD
    ensures bits == 0 ==> ((acc * 64) % WORD + v) % 64 == Low(acc, 0) * 64 + v
    ensures bits == 2 ==> ((acc * 64) % WORD + v) % 256 == Low(acc, 2) * 64 + v
    ensures bits == 4 ==> ((acc * 64) % WORD + v) % 1024 == Low(acc, 4) * 64 + v
    ensures bits == 6 ==> ((acc * 64) % WORD + v) % 4096 == Low(acc, 6) * 64 + v
  {
    var k, r := acc * 64 / WORD, acc * 64 % WORD;
    assert acc * 64 == k * 0x1_0000_0000 + r;
    RoomForASextet(acc, k, r);
    if bits == 0 {
      WrappedAt0(acc, v, k, r);
    } else if bits == 2 {
      WrappedAt2(acc, v, k, r);
    } else if bits == 4 {
      WrappedAt4(acc, v, k, r);
    } else {
      WrappedAt6(acc, v, k, r);
    }
  }

  lemma RoomForASextet(acc: nat, k: nat, r: nat)
    requires acc * 64 == k * 0x1_0000_0000 + r && r < 0x1_0000_0000
    ensures r <= 0x1_0000_0000 - 64
  {
    assert r == 64 * (acc - k * 0x400_0000);
  }

  /** The byte above the bits left over, and those bits, are all the low bits there were. */
  lemma ByteAboveTheRest(acc: nat, bits: nat)
    requires bits in {0, 2, 4}
    ensures bits == 0 ==> acc % 256 == Raised(Above(acc, 0) % 256, 0) + Low(acc, 0)
    ensures bits == 2 ==> acc % 1024 == Raised(Above(acc, 2) % 256, 2) + Low(acc, 2)
    ensures bits == 4 ==> acc % 4096 == Raised(Above(acc, 4) % 256, 4) + Low(acc, 4)
  {
    if bits == 2 {
      ByteAboveTwo(acc, acc / 4);
    } else if bits == 4 {
      ByteAboveFour(acc, acc / 16);
    }
  }

  lemma ByteAboveTwo(acc: nat, above: nat)
    requires above == acc / 4
    ensures acc % 1024 == above % 256 * 4 + acc % 4
  {
    var top, byte := above / 256, above % 256;
    assert acc == 1024 * top + (byte * 4 + acc % 4);
  }

  lemma ByteAboveFour(acc: nat, above: nat)
    requires above == acc / 16
    ensures acc % 4096 == above % 256 * 16 + acc % 16
  {
    var top, byte := above / 256, above % 256;
    assert acc == 4096 * top + (byte * 16 + acc % 16);
  }

  /**
   Where the reader stands: what was read is what was delivered and, in the low
   bits of the accumulator, what is still to be.
   */
  predicate Standing(seen: seq<Sextet>, out: seq<Byte>, acc: nat, bits: nat) {
    && acc < WORD && bits in {0, 2, 4, 6}
    && 8 * |out| + bits == 6 * |seen|
    && OfSextets(seen) == Raised(OfBytes(out), bits) + Low(acc, bits)
  }

  lemma StandsAfterwards(seen: seq<Sextet>, v: Sextet, out: seq<Byte>, given: seq<Byte>,
                         acc: nat, bits: nat, acc': nat, bits': nat)
    requires Standing(seen, out, acc, bits)
    requires acc' < WORD && bits' in {0, 2, 4, 6}
    requires |given| <= 1 && 8 * |given| + bits' == bits + 6
    requires Low(acc, bits) * 64 + v == Raised(OfBytes(given), bits') + Low(acc', bits')
    ensures Standing(seen + [v], out + given, acc', bits')
  {
    OfSextetsSnoc(seen, v);
    Delivered(out, given, bits, bits');
  }

  method Take(ghost seen: seq<Sextet>, v: Sextet, out: seq<Byte>, acc: nat, bits: nat)
    returns (acc': nat, bits': nat, out': seq<Byte>)
    requires Standing(seen, out, acc, bits)
    ensures Standing(seen + [v], out', acc', bits')
  {
    var given;
    acc', bits', given := Shift(acc, bits, v);
    StandsAfterwards(seen, v, out, given, acc, bits, acc', bits');
    out' := out + given;
  }

  lemma StandingAtTheEnd(seen: seq<Sextet>, out: seq<Byte>, acc: nat, bits: nat)
    requires Standing(seen, out, acc, bits)
    ensures Spells(seen, out)
  {
  }

  /** The bytes a text spells, or nothing when a character is not of the alphabet. */
  method Decode(text: string) returns (decoded: Option<seq<Byte>>)
    ensures decoded.None? <==> SextetsOf(TrimPadding(text)).None?
    ensures decoded.Some? ==> Spells(SextetsOf(TrimPadding(text)).value, decoded.value)
  {
    var trimmed := TrimPadding(text);
    var out: seq<Byte>, acc: nat, bits: nat := [], 0, 0;
    ghost var seen: seq<Sextet> := [];
    for n := 0 to |trimmed|
      invariant SextetsOf(trimmed[..n]) == Some(seen)
      invariant Standing(seen, out, acc, bits)
    {
      var v := SextetOf(trimmed[n]);
      if v.None? {
        NoSextets(trimmed, n);
        return None;
      }
      OneMoreSextet(trimmed, n, seen, v.value);
      acc, bits, out := Take(seen, v.value, out, acc, bits);
      seen := seen + [v.value];
    }
    assert trimmed[..|trimmed|] == trimmed;
    StandingAtTheEnd(seen, out, acc, bits);
    decoded := Some(out);
  }

  lemma OneMoreSextet(text: string, n: nat, seen: seq<Sextet>, v: Sextet)
    requires n < |text| && SextetsOf(text[..n]) == Some(seen) && SextetOf(text[n]) == Some(v)
    ensures SextetsOf(text[..n + 1]) == Some(seen + [v])
  {
    assert text[..n + 1][..n] == text[..n];
  }

  lemma {:induction false} NoSextets(text: string, n: nat)
    requires n < |text| && SextetOf(text[n]).None?
    ensures SextetsOf(text).None?
    decreases |text|
  {
    if n < |text| - 1 {
      NoSextets(text[..|text| - 1], n);
    }
  }

  lemma Delivered(out: seq<Byte>, given: seq<Byte>, bits: nat, bits': nat)
    requires bits in {0, 2, 4, 6} && bits' in {0, 2, 4, 6}
    requires |given| <= 1 && 8 * |given| + bits' == bits + 6
    ensures Raised(OfBytes(out + given), bits') == Raised(OfBytes(out), bits) * 64 + Raised(OfBytes(given), bits')
  {
    if given == [] {
      assert out + given == out;
      assert bits == 0 && bits' == 6;
    } else {
      var b := given[0];
      assert given == [] + [b];
      OfBytesSnoc(out, b);
      OfBytesSnoc([], b);
      if bits == 2 {
        assert bits' == 0;
      } else if bits == 4 {
        assert bits' == 2;
      } else {
        assert bits == 6 && bits' == 4;
      }
    }
  }

  // ---- writing -----------------------------------------------------------------

  predicate AllPadding(text: string) {
    forall n :: 0 <= n < |text| ==> text[n] == '='
  }

  /**
   Whether `text` is the base64 of `bytes` as section 4 of RFC 4648 has it: whole
   groups of four characters, the bits of the bytes followed by as few zeros as
   fill the last letter, and padding in the rest.
   */
  predicate EncodesIn(text: string, bytes: seq<Byte>, letters: nat) {
    var spare := 6 * letters - 8 * |bytes|;
    && letters <= |text| <= letters + 2 && |text| % 4 == 0
    && spare in {0, 2, 4}
    && AllPadding(text[letters..])
    && SextetsOf(text[..letters]).Some?
    && OfSextets(SextetsOf(text[..letters]).value) == Raised(OfBytes(bytes), spare)
  }

  ghost predicate Encodes(text: string, bytes: seq<Byte>) {
    exists letters: nat :: EncodesIn(text, bytes, letters)
  }

  /** Whether a text is all letters, and they make the number `n`. */
  predicate Lettered(text: string, n: nat) {
    SextetsOf(text).Some? && OfSextets(SextetsOf(text).value) == n
  }

  lemma OneMoreLetter(text: string, n: nat, v: Sextet)
    requires Lettered(text, n)
    ensures Lettered(text + [Letter(v)], n * 64 + v)
  {
    assert (text + [Letter(v)])[..|text|] == text;
    LetterReads(v);
    OfSextetsSnoc(SextetsOf(text).value, v);
  }

  lemma WholeGroups(text: string, done: seq<Byte>, groups: nat)
    requires |done| == 3 * groups && Encodes(text, done)
    ensures |text| == 4 * groups && Lettered(text, OfBytes(done))
  {
    var letters: nat :| EncodesIn(text, done, letters);
    NoPaddingAfterWholeGroups(|text|, letters, groups);
    assert text[..|text|] == text;
  }

  lemma NoPaddingAfterWholeGroups(length: nat, letters: nat, groups: nat)
    requires length % 4 == 0
    requires letters <= length <= letters + 2 && 6 * letters - 24 * groups in {0, 2, 4}
    ensures letters == length == 4 * groups
  {
    assert letters == 4 * groups;
  }

  /** Letters with their padding. */
  lemma Closing(text: string, padding: string, bytes: seq<Byte>, n: nat, spare: nat, out: string, all: seq<Byte>,
                groups: nat)
    requires spare in {0, 2, 4} && 6 * |text| == 8 * |bytes| + spare
    requires Lettered(text, n) && n == Raised(OfBytes(bytes), spare)
    requires |padding| <= 2 && |text| + |padding| == 4 * groups && AllPadding(padding)
    requires out == text + padding && all == bytes
    ensures Encodes(out, all)
  {
    assert out[..|text|] == text && out[|text|..] == padding;
    assert EncodesIn(out, all, |text|);
  }

  lemma TwoLetters(text: string, x: nat, v0: Sextet, v1: Sextet)
    requires Lettered(text, x)
    ensures Lettered(text + [Letter(v0)] + [Letter(v1)], x * 4096 + v0 * 64 + v1)
  {
    OneMoreLetter(text, x, v0);
    OneMoreLetter(text + [Letter(v0)], x * 64 + v0, v1);
  }

  lemma NumberOfOne(done: seq<Byte>, b0: Byte, v0: Sextet, v1: Sextet)
    requires v0 * 64 + v1 == b0 * 16
    ensures OfBytes(done) * 4096 + v0 * 64 + v1 == Raised(OfBytes(done + [b0]), 4)
  {
    OfBytesSnoc(done, b0);
  }

  lemma NumberOfTwo(done: seq<Byte>, b0: Byte, b1: Byte, v0: Sextet, v1: Sextet, v2: Sextet)
    requires v0 * 4096 + v1 * 64 + v2 == (b0 * 256 + b1) * 4
    ensures (OfBytes(done) * 4096 + v0 * 64 + v1) * 64 + v2 == Raised(OfBytes(done + [b0] + [b1]), 2)
  {
    OfBytesSnoc(done, b0);
    OfBytesSnoc(done + [b0], b1);
  }

  lemma NumberOfThree(done: seq<Byte>, b0: Byte, b1: Byte, b2: Byte, v0: Sextet, v1: Sextet, v2: Sextet, v3: Sextet)
    requires v0 * 262144 + v1 * 4096 + v2 * 64 + v3 == b0 * 65536 + b1 * 256 + b2
    ensures (OfBytes(done) * 4096 + v0 * 64 + v1) * 4096 + v2 * 64 + v3 == OfBytes(done + [b0] + [b1] + [b2])
  {
    OfBytesSnoc(done, b0);
    OfBytesSnoc(done + [b0], b1);
    OfBytesSnoc(done + [b0] + [b1], b2);
  }

  /** The four sextets of a group make its number. */
  lemma FourSextets(n: nat)
    requires n < 0x100_0000
    ensures n / 262144 % 64 * 262144 + n / 4096 % 64 * 4096 + n / 64 % 64 * 64 + n % 64 == n
  {
    var a := n / 64;
    var b := a / 64;
    assert n / 4096 == b && n / 262144 == b / 64;
    assert b / 64 < 64;
  }

  /** A group's bytes as the number its letters are cut from, a missing byte read as zero. */
  function Group(b0: Byte, b1: Byte, b2: Byte): (n: nat)
    ensures n < 0x100_0000
  {
    b0 as int * 65536 + b1 as int * 256 + b2
  }

  /** Three bytes at a time, a missing one read as zero and its letter as padding. */
  method Encode(bytes: seq<Byte>) returns (text: string)
    ensures Encodes(text, bytes)
  {
    text := [];
    var i := 0;
    assert EncodesIn(text, bytes[..0], 0);
    while i < |bytes|
      invariant 0 <= i <= |bytes| && (i % 3 == 0 || i == |bytes|)
      invariant Encodes(text, bytes[..i])
    {
      var count := if |bytes| - i < 3 then |bytes| - i else 3;
      text := EncodeGroup(text, bytes[..i], bytes[i..i + count]);
      assert bytes[..i] + bytes[i..i + count] == bytes[..i + count];
      i := i + count;
    }
    assert bytes[..i] == bytes;
  }

  /** One turn of the loop: up to three bytes into four characters. */
  method EncodeGroup(text: string, ghost done: seq<Byte>, chunk: seq<Byte>) returns (out: string)
    requires 1 <= |chunk| <= 3 && |done| % 3 == 0 && Encodes(text, done)
    ensures Encodes(out, done + chunk)
  {
    var b0 := chunk[0];
    var b1 := if |chunk| > 1 then chunk[1] else 0;
    var b2 := if |chunk| > 2 then chunk[2] else 0;
    var n := Group(b0, b1, b2);
    var v0, v1, v2, v3 := n / 262144 % 64, n / 4096 % 64, n / 64 % 64, n % 64;
    out := text;
    out := out + [Letter(v0)];
    out := out + [Letter(v1)];
    out := out + [if |chunk| > 1 then Letter(v2) else '='];
    out := out + [if |chunk| > 2 then Letter(v3) else '='];
    FourSextets(n);
    ghost var groups := |done| / 3;
    WholeGroups(text, done, groups);
    ChunkWritten(groups, text, done, chunk, b0, b1, b2, v0, v1, v2, v3, out);
  }

  lemma ChunkWritten(groups: nat, text: string, done: seq<Byte>, chunk: seq<Byte>, b0: Byte, b1: Byte, b2: Byte,
                     v0: Sextet, v1: Sextet, v2: Sextet, v3: Sextet, out: string)
    requires |done| == 3 * groups && |text| == 4 * groups && Lettered(text, OfBytes(done))
    requires 1 <= |chunk| <= 3 && chunk == [b0, b1, b2][..|chunk|]
    requires (|chunk| < 2 ==> b1 == 0) && (|chunk| < 3 ==> b2 == 0)
    requires v0 * 262144 + v1 * 4096 + v2 * 64 + v3 == b0 * 65536 + b1 * 256 + b2
    requires out == text + [Letter(v0)] + [Letter(v1)] + [if |chunk| > 1 then Letter(v2) else '=']
                    + [if |chunk| > 2 then Letter(v3) else '=']
    ensures Encodes(out, done + chunk)
  {
    if |chunk| == 1 {
      NothingBelow(v0, v1, v2, v3, b0);
      GroupOfOne(groups, text, done, b0, v0, v1, out);
      assert chunk == [b0];
    } else if |chunk| == 2 {
      NothingAtTheEnd(v0, v1, v2, v3, b0, b1);
      GroupOfTwo(groups, text, done, b0, b1, v0, v1, v2, out);
      assert done + chunk == done + [b0] + [b1];
    } else {
      GroupOfThree(groups, text, done, b0, b1, b2, v0, v1, v2, v3, out);
      assert done + chunk == done + [b0] + [b1] + [b2];
    }
  }

  lemma EndOne(groups: nat, text: string, two: string, n: nat, done: seq<Byte>, b0: Byte, out: string)
    requires |done| == 3 * groups && |text| == 4 * groups && |two| == |text| + 2
    requires Lettered(two, n) && n == Raised(OfBytes(done + [b0]), 4)
    requires out == two + ['=', '=']
    ensures Encodes(out, done + [b0])
  {
    Closing(two, ['=', '='], done + [b0], n, 4, out, done + [b0], groups + 1);
  }

  lemma EndTwo(groups: nat, text: string, three: string, n: nat, done: seq<Byte>, b0: Byte, b1: Byte, out: string)
    requires |done| == 3 * groups && |text| == 4 * groups && |three| == |text| + 3
    requires Lettered(three, n) && n == Raised(OfBytes(done + [b0] + [b1]), 2)
    requires out == three + ['=']
    ensures Encodes(out, done + [b0] + [b1])
  {
    Closing(three, ['='], done + [b0] + [b1], n, 2, out, done + [b0] + [b1], groups + 1);
  }

  lemma EndThree(groups: nat, text: string, four: string, n: nat, done: seq<Byte>, b0: Byte, b1: Byte, b2: Byte)
    requires |done| == 3 * groups && |text| == 4 * groups && |four| == |text| + 4
    requires Lettered(four, n) && n == OfBytes(done + [b0] + [b1] + [b2])
    ensures Encodes(four, done + [b0] + [b1] + [b2])
  {
    assert four + [] == four;
    Closing(four, [], done + [b0] + [b1] + [b2], n, 0, four, done + [b0] + [b1] + [b2], groups + 1);
  }

  lemma GroupOfOne(groups: nat, text: string, done: seq<Byte>, b0: Byte, v0: Sextet, v1: Sextet, out: string)
    requires |done| == 3 * groups && |text| == 4 * groups && Lettered(text, OfBytes(done))
    requires v0 * 64 + v1 == b0 * 16
    requires out == text + [Letter(v0)] + [Letter(v1)] + ['=', '=']
    ensures Encodes(out, done + [b0])
  {
    var n := OfBytes(done) * 4096 + v0 * 64 + v1;
    TwoLetters(text, OfBytes(done), v0, v1);
    NumberOfOne(done, b0, v0, v1);
    EndOne(groups, text, text + [Letter(v0)] + [Letter(v1)], n, done, b0, out);
  }

  lemma GroupOfTwo(groups: nat, text: string, done: seq<Byte>, b0: Byte, b1: Byte, v0: Sextet, v1: Sextet, v2: Sextet,
                   out: string)
    requires |done| == 3 * groups && |text| == 4 * groups && Lettered(text, OfBytes(done))
    requires v0 * 4096 + v1 * 64 + v2 == (b0 * 256 + b1) * 4
    requires out == text + [Letter(v0)] + [Letter(v1)] + [Letter(v2)] + ['=']
    ensures Encodes(out, done + [b0] + [b1])
  {
    var n := OfBytes(done) * 4096 + v0 * 64 + v1;
    TwoLetters(text, OfBytes(done), v0, v1);
    OneMoreLetter(text + [Letter(v0)] + [Letter(v1)], n, v2);
    NumberOfTwo(done, b0, b1, v0, v1, v2);
    EndTwo(groups, text, text + [Letter(v0)] + [Letter(v1)] + [Letter(v2)], n * 64 + v2, done, b0, b1, out);
  }

  lemma GroupOfThree(groups: nat, text: string, done: seq<Byte>, b0: Byte, b1: Byte, b2: Byte,
                     v0: Sextet, v1: Sextet, v2: Sextet, v3: Sextet, out: string)
    requires |done| == 3 * groups && |text| == 4 * groups && Lettered(text, OfBytes(done))
    requires v0 * 262144 + v1 * 4096 + v2 * 64 + v3 == b0 * 65536 + b1 * 256 + b2
    requires out == text + [Letter(v0)] + [Letter(v1)] + [Letter(v2)] + [Letter(v3)]
    ensures Encodes(out, done + [b0] + [b1] + [b2])
  {
    var n := OfBytes(done) * 4096 + v0 * 64 + v1;
    TwoLetters(text, OfBytes(done), v0, v1);
    TwoLetters(text + [Letter(v0)] + [Letter(v1)], n, v2, v3);
    NumberOfThree(done, b0, b1, b2, v0, v1, v2, v3);
    EndThree(groups, text, out, n * 4096 + v2 * 64 + v3, done, b0, b1, b2);
  }

  lemma NothingBelow(v0: Sextet, v1: Sextet, v2: Sextet, v3: Sextet, b0: Byte)
    requires v0 * 262144 + v1 * 4096 + v2 * 64 + v3 == b0 * 65536
    ensures v0 * 64 + v1 == b0 * 16
  {
  }

  lemma NothingAtTheEnd(v0: Sextet, v1: Sextet, v2: Sextet, v3: Sextet, b0: Byte, b1: Byte)
    requires v0 * 262144 + v1 * 4096 + v2 * 64 + v3 == b0 * 65536 + b1 * 256
    ensures v0 * 4096 + v1 * 64 + v2 == (b0 * 256 + b1) * 4
  {
  }

  // ---- there and back ------------------------------------------------------------

  lemma {:induction false} SextetsOfIsAsLong(text: string)
    ensures SextetsOf(text).Some? ==> |SextetsOf(text).value| == |text|
    ensures SextetsOf(text).Some? && text != "" ==> text[|text| - 1] != '='
    decreases |text|
  {
    if text != "" {
      SextetsOfIsAsLong(text[..|text| - 1]);
    }
  }

  /** Trimming takes the padding and stops at a letter. */
  lemma {:induction false} TrimPaddingStops(text: string, letters: nat)
    requires letters <= |text| && AllPadding(text[letters..])
    requires letters > 0 ==> text[letters - 1] != '='
    ensures TrimPadding(text) == text[..letters]
    decreases |text|
  {
    if letters == |text| {
      assert text[..letters] == text;
    } else {
      assert text[letters..][|text| - 1 - letters] == '=';
      var shorter := text[..|text| - 1];
      assert shorter[letters..] == text[letters..][..|text| - 1 - letters];
      TrimPaddingStops(shorter, letters);
      assert shorter[..letters] == text[..letters];
    }
  }

  lemma RaisedComesDown(n: nat, bits: nat)
    requires bits in {0, 2, 4, 6}
    ensures Above(Raised(n, bits), bits) == n && Low(Raised(n, bits), bits) == 0
  {
  }

  /** What was encoded is spelt by the letters, and nothing else is. */
  lemma EncodedIsSpelt(text: string, bytes: seq<Byte>)
    requires Encodes(text, bytes)
    ensures SextetsOf(TrimPadding(text)).Some?
    ensures Spells(SextetsOf(TrimPadding(text)).value, bytes)
  {
    var letters: nat :| EncodesIn(text, bytes, letters);
    SextetsOfIsAsLong(text[..letters]);
    TrimPaddingStops(text, letters);
    RaisedComesDown(OfBytes(bytes), 6 * letters - 8 * |bytes|);
  }

  /** Every byte string survives being written and read back. */
  method ThereAndBack(bytes: seq<Byte>) returns (text: string, back: Option<seq<Byte>>)
    ensures Encodes(text, bytes)
    ensures back == Some(bytes)
  {
    text := Encode(bytes);
    back := Decode(text);
    EncodedIsSpelt(text, bytes);
    SpellsOnlyOne(SextetsOf(TrimPadding(text)).value, bytes, back.value);
  }

  /** A byte string has one encoding only. */
  lemma EncodingIsUnique(a: string, b: string, bytes: seq<Byte>)
    requires Encodes(a, bytes) && Encodes(b, bytes)
    ensures a == b
  {
    var letters: nat :| EncodesIn(a, bytes, letters);
    var others: nat :| EncodesIn(b, bytes, others);
    OneLength(|a|, letters, |b|, others, |bytes|);
    SextetsOfIsAsLong(a[..letters]);
    SextetsOfIsAsLong(b[..letters]);
    SextetsAreTheirNumber(SextetsOf(a[..letters]).value, SextetsOf(b[..letters]).value);
    SameSextetsSameLetters(a[..letters], b[..letters]);
    assert a[letters..] == b[letters..];
    assert a == a[..letters] + a[letters..] && b == b[..letters] + b[letters..];
  }

  lemma OneLength(a: nat, letters: nat, b: nat, others: nat, count: nat)
    requires letters <= a <= letters + 2 && others <= b <= others + 2 && a % 4 == b % 4 == 0
    requires 6 * letters - 8 * count in {0, 2, 4} && 6 * others - 8 * count in {0, 2, 4}
    ensures a == b && letters == others
  {
  }

  lemma {:induction false} SameSextetsSameLetters(a: string, b: string)
    requires SextetsOf(a).Some? && SextetsOf(a) == SextetsOf(b)
    ensures a == b
    decreases |a|
  {
    SextetsOfIsAsLong(a);
    SextetsOfIsAsLong(b);
    if a != "" {
      var m := |a| - 1;
      var s := SextetsOf(a).value;
      assert SextetsOf(a[..m]) == Some(s[..m]) && SextetsOf(b[..m]) == Some(s[..m]);
      SameSextetsSameLetters(a[..m], b[..m]);
      LetterIsTheOnlyOne(a[m]);
      LetterIsTheOnlyOne(b[m]);
      assert a == a[..m] + [a[m]] && b == b[..m] + [b[m]];
    }
  }

  /**
   A text that can be read is the one that would be written for what it says
   exactly when it is padded to whole groups, no letter is wholly left over, and
   the bits left over are zeros.
   */
  lemma {:induction false} WritesBackIff(text: string, sextets: seq<Sextet>, out: seq<Byte>)
    requires SextetsOf(TrimPadding(text)) == Some(sextets) && Spells(sextets, out)
    ensures Encodes(text, out) <==>
            var spare := 6 * |sextets| - 8 * |out|;
            && |text| % 4 == 0 && |text| <= |sextets| + 2
            && spare != 6
            && Low(OfSextets(sextets), spare) == 0
  {
    if Encodes(text, out) {
      WritesBackOnly(text, sextets, out);
    } else {
      TrimPaddingIsPadding(text);
      SextetsOfIsAsLong(TrimPadding(text));
      RaisedBack(OfSextets(sextets), OfBytes(out), 6 * |sextets| - 8 * |out|);
      assert !EncodesIn(text, out, |sextets|);
    }
  }

  lemma WritesBackOnly(text: string, sextets: seq<Sextet>, out: seq<Byte>)
    requires SextetsOf(TrimPadding(text)) == Some(sextets) && Encodes(text, out)
    ensures var spare := 6 * |sextets| - 8 * |out|;
            && |text| % 4 == 0 && |text| <= |sextets| + 2
            && spare in {0, 2, 4}
            && Low(OfSextets(sextets), spare) == 0
  {
    var letters: nat :| EncodesIn(text, out, letters);
    SextetsOfIsAsLong(text[..letters]);
    TrimPaddingStops(text, letters);
    RaisedComesDown(OfBytes(out), 6 * letters - 8 * |out|);
  }

  lemma RaisedBack(n: nat, above: nat, bits: nat)
    requires bits in {0, 2, 4, 6} && above == Above(n, bits)
    ensures n == Raised(above, bits) <==> Low(n, bits) == 0
  {
  }

  lemma {:induction false} TrimPaddingIsPadding(text: string)
    ensures |TrimPadding(text)| <= |text| && TrimPadding(text) == text[..|TrimPadding(text)|]
    ensures AllPadding(text[|TrimPadding(text)|..])
    decreases |text|
  {
    if text != "" && text[|text| - 1] == '=' {
      var shorter := text[..|text| - 1];
      TrimPaddingIsPadding(shorter);
      var k := |TrimPadding(shorter)|;
      assert shorter[..k] == text[..k];
      assert text[k..] == shorter[k..] + ['='];
    } else {
      assert text[..|text|] == text;
    }
  }
}
