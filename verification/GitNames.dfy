/**
 File names as git writes them in a diff: raw, or in quotes with escapes, and on
 a `diff --git` line twice. A name is its bytes; text is characters, whose bytes
 are their UTF-8.
 */
module GitNames {
  import opened Common
  import opened Text

  // ---- text and bytes ----------------------------------------------------------

  function Utf8(c: char): seq<Byte> {
    var n := c as int;
    if n < 0x80 then [n]
    else if n < 0x800 then [0xC0 + n / 64, 0x80 + n % 64]
    else if n < 0x1_0000 then [0xE0 + n / 4096, 0x80 + n / 64 % 64, 0x80 + n % 64]
    else [0xF0 + n / 262144, 0x80 + n / 4096 % 64, 0x80 + n / 64 % 64, 0x80 + n % 64]
  }

  function Utf8All(text: string): seq<Byte> {
    if text == "" then [] else Utf8(text[0]) + Utf8All(text[1..])
  }

  /** The first byte says how many there are. */
  lemma Utf8Length(c: char)
    ensures var bytes := Utf8(c);
            && (|bytes| == 1 <==> bytes[0] < 0xC0)
            && (|bytes| == 2 <==> 0xC0 <= bytes[0] < 0xE0)
            && (|bytes| == 3 <==> 0xE0 <= bytes[0] < 0xF0)
            && (|bytes| == 4 <==> 0xF0 <= bytes[0])
  {
  }

  lemma Utf8IsOneCharacters(a: char, b: char)
    requires Utf8(a) == Utf8(b)
    ensures a == b
  {
    var m, n := a as int, b as int;
    var bytes := Utf8(a);
    if |bytes| == 2 {
      var first: int, second: int := bytes[0], bytes[1];
      assert m == (first - 0xC0) * 64 + (second - 0x80);
      assert n == (first - 0xC0) * 64 + (second - 0x80);
    } else if |bytes| == 3 {
      ThreeDigits(m);
      ThreeDigits(n);
    } else if |bytes| == 4 {
      FourDigits(m);
      FourDigits(n);
    }
  }

  lemma ThreeDigits(n: nat)
    ensures n == n / 4096 * 4096 + n / 64 % 64 * 64 + n % 64
  {
    assert n / 4096 == n / 64 / 64;
  }

  lemma FourDigits(n: nat)
    ensures n == n / 262144 * 262144 + n / 4096 % 64 * 4096 + n / 64 % 64 * 64 + n % 64
  {
    ThreeDigits(n);
    assert n / 262144 == n / 4096 / 64;
  }

  /** Different texts have different bytes. */
  lemma {:induction false} OneText(a: string, b: string)
    ensures Utf8All(a) == Utf8All(b) ==> a == b
    decreases |a|
  {
    if a != "" && b != "" && Utf8All(a) == Utf8All(b) {
      var x, y := Utf8(a[0]), Utf8(b[0]);
      Utf8Length(a[0]);
      Utf8Length(b[0]);
      assert Utf8All(a)[0] == x[0] && Utf8All(b)[0] == y[0];
      assert x == Utf8All(a)[..|x|] && y == Utf8All(b)[..|y|];
      Utf8IsOneCharacters(a[0], b[0]);
      assert Utf8All(a[1..]) == Utf8All(a)[|x|..] && Utf8All(b[1..]) == Utf8All(b)[|y|..];
      OneText(a[1..], b[1..]);
      assert a == [a[0]] + a[1..] && b == [b[0]] + b[1..];
    }
  }

  lemma {:induction false} Utf8AllOfTwo(a: string, b: string)
    ensures Utf8All(a + b) == Utf8All(a) + Utf8All(b)
    decreases |a|
  {
    if a == "" {
      assert a + b == b;
    } else {
      assert (a + b)[1..] == a[1..] + b;
      Utf8AllOfTwo(a[1..], b);
    }
  }

  // ---- reading escapes -----------------------------------------------------------

  predicate IsOctal(c: char) { '0' <= c <= '7' }

  function Digit(c: char): nat
    requires IsOctal(c)
  {
    (c - '0') as nat
  }

  /** The byte a letter escape stands for. */
  function LetterByte(c: char): Option<Byte> {
    if c == 'a' then Some(7)
    else if c == 'b' then Some(8)
    else if c == 't' then Some(9)
    else if c == 'n' then Some(10)
    else if c == 'v' then Some(11)
    else if c == 'f' then Some(12)
    else if c == 'r' then Some(13)
    else None
  }

  /** How many octal digits a text begins with, three at most. */
  function OctalRun(s: string): nat {
    if s == "" || !IsOctal(s[0]) then 0
    else if |s| == 1 || !IsOctal(s[1]) then 1
    else if |s| == 2 || !IsOctal(s[2]) then 2
    else 3
  }

  predicate AllOctal(s: string) {
    forall i :: 0 <= i < |s| ==> IsOctal(s[i])
  }

  function OctalValue(s: string): nat
    requires AllOctal(s)
  {
    if s == "" then 0 else OctalValue(s[..|s| - 1]) * 8 + Digit(s[|s| - 1])
  }

  /** What one escape spells, and how many characters it takes with its backslash. */
  function Escape(s: string): (r: (seq<Byte>, nat))
    requires s != "" && s[0] == '\\'
    ensures 1 <= r.1 <= |s|
  {
    if |s| == 1 then ([92], 1)
    else
      match LetterByte(s[1])
      case Some(b) => ([b], 2)
      case None =>
        var run := OctalRun(s[1..]);
        if run > 0 then ([OctalValue(s[1..1 + run]) % 256], 1 + run)
        else (Utf8(s[1]), 2)
  }

  /** The bytes the inside of a quoted name spells. */
  function Unescape(inner: string): seq<Byte>
    decreases |inner|
  {
    if inner == "" then []
    else if inner[0] != '\\' then Utf8(inner[0]) + Unescape(inner[1..])
    else
      var (bytes, taken) := Escape(inner);
      bytes + Unescape(inner[taken..])
  }

  predicate IsQuoted(text: string) {
    |text| >= 2 && text[0] == '"' && text[|text| - 1] == '"'
  }

  /** The bytes a printed name stands for: unescaped between quotes, or else its own UTF-8. */
  function Unquoted(text: string): seq<Byte> {
    if IsQuoted(text) then Unescape(text[1..|text| - 1]) else Utf8All(text)
  }

  method Unquote(text: string) returns (name: seq<Byte>)
    ensures name == Unquoted(text)
  {
    if |text| < 2 || text[0] != '"' || text[|text| - 1] != '"' {
      return Utf8All(text);
    }
    var inner := text[1..|text| - 1];
    name := [];
    var at := 0;
    assert inner[0..] == inner;
    while at < |inner|
      invariant at <= |inner|
      invariant name + Unescape(inner[at..]) == Unescape(inner)
    {
      var bytes, taken := UnescapeOne(inner, at);
      Regroup(name, bytes, Unescape(inner[at + taken..]));
      name := name + bytes;
      at := at + taken;
    }
  }

  /** One character of the inside of a name, or one escape. */
  method UnescapeOne(inner: string, at: nat) returns (bytes: seq<Byte>, taken: nat)
    requires at < |inner|
    ensures 1 <= taken && at + taken <= |inner|
    ensures Unescape(inner[at..]) == bytes + Unescape(inner[at + taken..])
  {
    if inner[at] != '\\' {
      bytes, taken := Utf8(inner[at]), 1;
    } else {
      bytes, taken := ReadEscape(inner[at..]);
    }
    assert inner[at..][taken..] == inner[at + taken..];
  }

  lemma OneMoreDigit(s: string, taken: nat)
    requires 1 <= taken < |s| && IsOctal(s[taken])
    requires AllOctal(s[1..taken])
    ensures AllOctal(s[1..taken + 1])
    ensures OctalValue(s[1..taken + 1]) == OctalValue(s[1..taken]) * 8 + Digit(s[taken])
  {
    var before, after := s[1..taken], s[1..taken + 1];
    assert |after| == |before| + 1 && after[|before|] == s[taken];
    assert after[..|before|] == before;
    forall i | 0 <= i < taken ensures IsOctal(after[i]) {
      if i < |before| {
        assert after[i] == before[i];
      }
    }
  }

  method ReadEscape(s: string) returns (bytes: seq<Byte>, taken: nat)
    requires s != "" && s[0] == '\\'
    ensures (bytes, taken) == Escape(s)
  {
    if |s| == 1 {
      return [92], 1;
    }
    var d := s[1];
    var letter := LetterByte(d);
    if letter.Some? {
      return [letter.value], 2;
    }
    if !IsOctal(d) {
      return Utf8(d), 2;
    }
    // Up to two more digits; the byte is what the last eight bits say.
    var byte := Digit(d);
    taken := 2;
    assert s[1..2] == [d] && OctalValue([d][..0]) == 0;
    while taken < 4 && taken < |s| && IsOctal(s[taken])
      invariant 2 <= taken <= 4 && taken <= |s|
      invariant AllOctal(s[1..taken])
      invariant byte == OctalValue(s[1..taken])
    {
      OneMoreDigit(s, taken);
      byte := byte * 8 + Digit(s[taken]);
      taken := taken + 1;
    }
    assert OctalRun(s[1..]) == taken - 1;
    bytes := [byte % 256];
  }

  // ---- writing escapes --------------------------------------------------------------

  /** What is printed inside the quotes: a character as it is, or a byte escaped. */
  datatype Piece = Printed(c: char) | Escaped(b: Byte)

  predicate Printable(p: Piece) {
    p.Printed? ==> p.c != '\\' && p.c != '"'
  }

  function OctalDigit(n: nat): char
    requires n < 8
  {
    '0' + n as char
  }

  function Show(p: Piece): string {
    match p
    case Printed(c) => [c]
    case Escaped(b) =>
      if b == 7 then ['\\', 'a']
      else if b == 8 then ['\\', 'b']
      else if b == 9 then ['\\', 't']
      else if b == 10 then ['\\', 'n']
      else if b == 11 then ['\\', 'v']
      else if b == 12 then ['\\', 'f']
      else if b == 13 then ['\\', 'r']
      else if b == 34 then ['\\', '"']
      else if b == 92 then ['\\', '\\']
      else ['\\', OctalDigit(b / 64), OctalDigit(b / 8 % 8), OctalDigit(b % 8)]
  }

  function Meant(p: Piece): seq<Byte> {
    match p
    case Printed(c) => Utf8(c)
    case Escaped(b) => [b]
  }

  function ShowAll(pieces: seq<Piece>): string {
    if pieces == [] then "" else Show(pieces[0]) + ShowAll(pieces[1..])
  }

  function MeantAll(pieces: seq<Piece>): seq<Byte> {
    if pieces == [] then [] else Meant(pieces[0]) + MeantAll(pieces[1..])
  }

  lemma OctalOfThree(b: Byte)
    ensures var s := [OctalDigit(b / 64), OctalDigit(b / 8 % 8), OctalDigit(b % 8)];
            AllOctal(s) && OctalValue(s) == b
  {
    var s := [OctalDigit(b / 64), OctalDigit(b / 8 % 8), OctalDigit(b % 8)];
    assert s[..2][..1][..0] == "";
    assert OctalValue(s[..2][..1]) == b / 64;
    assert OctalValue(s[..2]) == b / 64 * 8 + b / 8 % 8;
    assert b / 8 == b / 64 * 8 + b / 8 % 8;
  }

  lemma PrintedReads(c: char, rest: string)
    requires c != '\\'
    ensures Unescape([c] + rest) == Utf8(c) + Unescape(rest)
  {
    assert ([c] + rest)[1..] == rest;
  }

  /** A backslash and a letter, a quote or another backslash. */
  lemma LetterReads(x: char, b: Byte, rest: string)
    requires LetterByte(x) == Some(b) || (b == 34 && x == '"') || (b == 92 && x == '\\')
    ensures Unescape(['\\', x] + rest) == [b] + Unescape(rest)
  {
    var text := ['\\', x] + rest;
    assert text[2..] == rest;
    assert text[1..][0] == x;
    assert Escape(text) == ([b], 2);
  }

  lemma OctalReads(b: Byte, rest: string)
    ensures var three := [OctalDigit(b / 64), OctalDigit(b / 8 % 8), OctalDigit(b % 8)];
            Unescape(['\\'] + three + rest) == [b] + Unescape(rest)
  {
    OctalOfThree(b);
    var three := [OctalDigit(b / 64), OctalDigit(b / 8 % 8), OctalDigit(b % 8)];
    EscapeOfThree(b, three, rest);
    assert (['\\'] + three + rest)[4..] == rest;
  }

  lemma EscapeOfThree(b: Byte, three: string, rest: string)
    requires |three| == 3 && AllOctal(three) && OctalValue(three) == b
    ensures Escape(['\\'] + three + rest) == ([b], 4)
  {
    var text := ['\\'] + three + rest;
    assert text[1..4] == three;
    assert text[1..][0] == three[0] && text[1..][1] == three[1] && text[1..][2] == three[2];
    assert LetterByte(text[1]) == None;
    assert OctalRun(text[1..]) == 3;
  }

  /** One piece is read back whatever follows it, a digit after an octal escape included. */
  lemma PieceReads(p: Piece, rest: string)
    requires Printable(p)
    ensures Unescape(Show(p) + rest) == Meant(p) + Unescape(rest)
  {
    if p.Printed? {
      PrintedReads(p.c, rest);
    } else {
      EscapeShown(p.b);
      if |Show(p)| == 2 {
        LetterReads(Show(p)[1], p.b, rest);
      } else {
        OctalReads(p.b, rest);
      }
    }
  }

  lemma EscapeShown(b: Byte)
    ensures var shown := Show(Escaped(b));
            if |shown| == 2 then
              && shown == ['\\', shown[1]]
              && (LetterByte(shown[1]) == Some(b) || (b == 34 && shown[1] == '"') || (b == 92 && shown[1] == '\\'))
            else
              shown == ['\\'] + [OctalDigit(b / 64), OctalDigit(b / 8 % 8), OctalDigit(b % 8)]
  {
  }

  // What git never prints is read all the same.

  lemma RunOfDigits(digits: string, rest: string)
    requires 1 <= |digits| <= 2 && AllOctal(digits) && (rest == "" || !IsOctal(rest[0]))
    ensures OctalRun(digits + rest) == |digits| && LetterByte((digits + rest)[0]) == None
  {
    var text := digits + rest;
    assert text[0] == digits[0] && IsOctal(digits[0]);
    assert |digits| == 2 ==> text[1] == digits[1] && IsOctal(digits[1]);
    assert rest != "" ==> text[|digits|] == rest[0];
  }

  lemma EscapeByRun(text: string, digits: string)
    requires |text| > 1 && text[0] == '\\' && LetterByte(text[1]) == None
    requires OctalRun(text[1..]) == |digits| > 0 && text[1..1 + |digits|] == digits
    requires AllOctal(digits) && OctalValue(digits) < 256
    ensures Escape(text) == ([OctalValue(digits)], 1 + |digits|)
  {
  }

  lemma EscapeOfDigits(digits: string, rest: string)
    requires 1 <= |digits| <= 2 && AllOctal(digits) && (rest == "" || !IsOctal(rest[0]))
    ensures Escape(['\\'] + (digits + rest)) == ([OctalValue(digits)], 1 + |digits|)
  {
    var more := digits + rest;
    var text := ['\\'] + more;
    RunOfDigits(digits, rest);
    ShortValue(digits);
    assert text[1..] == more && text[1] == more[0];
    assert text[1..1 + |digits|] == more[..|digits|] == digits;
    EscapeByRun(text, digits);
  }

  /** An octal escape of one or two digits, with no digit after it. */
  lemma ShortOctalReads(digits: string, rest: string)
    requires 1 <= |digits| <= 2 && AllOctal(digits) && (rest == "" || !IsOctal(rest[0]))
    ensures Unescape(['\\'] + (digits + rest)) == [OctalValue(digits)] + Unescape(rest)
  {
    EscapeOfDigits(digits, rest);
    assert (['\\'] + (digits + rest))[1 + |digits|..] == rest;
  }

  lemma ShortValue(digits: string)
    requires 1 <= |digits| <= 2 && AllOctal(digits)
    ensures OctalValue(digits) == if |digits| == 1 then Digit(digits[0]) else Digit(digits[0]) * 8 + Digit(digits[1])
    ensures OctalValue(digits) < 256
  {
    assert digits[..|digits| - 1] == if |digits| == 1 then "" else [digits[0]];
    assert [digits[0]][..0] == "";
  }

  /** A backslash at the end stands for itself. */
  lemma LoneBackslashReads()
    ensures Unescape(['\\']) == [92]
  {
    var text: string := ['\\'];
    assert Escape(text) == ([92], 1) && text[1..] == "";
  }

  lemma Regroup<T>(a: seq<T>, b: seq<T>, c: seq<T>)
    ensures a + b + c == a + (b + c)
  {
  }

  lemma PieceAndMore(p: Piece, shown: string, meant: seq<Byte>, rest: string)
    requires Printable(p) && Unescape(shown + rest) == meant + Unescape(rest)
    ensures Unescape(Show(p) + shown + rest) == Meant(p) + meant + Unescape(rest)
  {
    var text, after := Show(p), Unescape(rest);
    PieceReads(p, shown + rest);
    Regroup(text, shown, rest);
    Regroup(Meant(p), meant, after);
  }

  lemma {:induction false} PiecesReadBefore(pieces: seq<Piece>, rest: string)
    requires AllPrintable(pieces)
    ensures Unescape(ShowAll(pieces) + rest) == MeantAll(pieces) + Unescape(rest)
    decreases |pieces|
  {
    if pieces == [] {
      assert ShowAll(pieces) + rest == rest;
    } else {
      PiecesReadBefore(pieces[1..], rest);
      PieceAndMore(pieces[0], ShowAll(pieces[1..]), MeantAll(pieces[1..]), rest);
    }
  }

  /**
   Whichever characters are printed and whichever bytes are escaped, with
   `core.quotePath` on or off, what is read back is what was meant.
   */
  lemma PiecesRead(pieces: seq<Piece>)
    requires AllPrintable(pieces)
    ensures Unescape(ShowAll(pieces)) == MeantAll(pieces)
  {
    PiecesReadBefore(pieces, "");
    assert ShowAll(pieces) + "" == ShowAll(pieces);
  }

  /** The bytes git prints raw under `core.quotePath`. */
  predicate Plain(b: Byte) {
    0x20 <= b < 0x7F && b != 34 && b != 92
  }

  function PieceOf(b: Byte): Piece {
    if Plain(b) then Printed(b as char) else Escaped(b)
  }

  function PiecesOf(name: seq<Byte>): seq<Piece> {
    seq(|name|, i requires 0 <= i < |name| => PieceOf(name[i]))
  }

  /** A name in quotes. */
  function Quoted(pieces: seq<Piece>): string {
    ['"'] + ShowAll(pieces) + ['"']
  }

  predicate AllPrintable(pieces: seq<Piece>) {
    forall p :: p in pieces ==> Printable(p)
  }

  function InQuotes(name: seq<Byte>): string {
    Quoted(PiecesOf(name))
  }

  function Raw(name: seq<Byte>): string
    requires forall b :: b in name ==> Plain(b)
  {
    seq(|name|, i requires 0 <= i < |name| => assert name[i] in name; name[i] as char)
  }

  /** A name as git prints it: in quotes only when a byte of it needs them. */
  function Printing(name: seq<Byte>): string {
    if forall b :: b in name ==> Plain(b) then Raw(name) else InQuotes(name)
  }

  lemma {:induction false} PiecesOfAreTheName(name: seq<Byte>)
    ensures MeantAll(PiecesOf(name)) == name
    decreases |name|
  {
    if name != [] {
      PiecesOfAreTheName(name[1..]);
      assert PiecesOf(name)[1..] == PiecesOf(name[1..]);
      assert Meant(PieceOf(name[0])) == [name[0]];
    }
  }

  lemma QuotedReads(pieces: seq<Piece>)
    requires AllPrintable(pieces)
    ensures IsQuoted(Quoted(pieces)) && Unquoted(Quoted(pieces)) == MeantAll(pieces)
  {
    var text := Quoted(pieces);
    assert text[1..|text| - 1] == ShowAll(pieces);
    PiecesRead(pieces);
  }

  lemma {:induction false} RawIsItsBytes(name: seq<Byte>)
    requires forall b :: b in name ==> Plain(b)
    ensures Utf8All(Raw(name)) == name
    decreases |name|
  {
    if name != [] {
      RawIsItsBytes(name[1..]);
      assert Raw(name)[1..] == Raw(name[1..]);
      assert name[0] in name;
    }
  }

  /** Every byte string comes back from the way git prints it. */
  lemma PrintedNameReads(name: seq<Byte>)
    ensures Unquoted(Printing(name)) == name
  {
    if forall b :: b in name ==> Plain(b) {
      RawIsItsBytes(name);
      if name != [] {
        assert name[0] in name && Raw(name)[0] != '"';
      }
    } else {
      QuotedReads(PiecesOf(name));
      PiecesOfAreTheName(name);
    }
  }

  // ---- with characters outside ASCII left raw ---------------------------------------------

  /** Whether git prints a character raw with `core.quotePath` off. */
  predicate PlainCharacter(c: char) {
    c >= '\U{80}' || Plain(c as int)
  }

  function PieceOfCharacter(c: char): (p: Piece)
    ensures Printable(p) && Meant(p) == Utf8(c)
  {
    if PlainCharacter(c) then Printed(c) else Escaped(c as int)
  }

  function PiecesOfText(name: string): (pieces: seq<Piece>)
    ensures AllPrintable(pieces)
  {
    seq(|name|, i requires 0 <= i < |name| => PieceOfCharacter(name[i]))
  }

  /** A name as the worker has git print it, with `core.quotePath` off. */
  function PrintingText(name: string): string {
    if forall c :: c in name ==> PlainCharacter(c) then name else Quoted(PiecesOfText(name))
  }

  lemma {:induction false} PiecesOfTextAreTheName(name: string)
    ensures MeantAll(PiecesOfText(name)) == Utf8All(name)
    decreases |name|
  {
    if name != "" {
      PiecesOfTextAreTheName(name[1..]);
      assert PiecesOfText(name)[1..] == PiecesOfText(name[1..]);
    }
  }

  /** Every name comes back from that form too. */
  lemma PrintedTextReads(name: string)
    ensures Unquoted(PrintingText(name)) == Utf8All(name)
  {
    if forall c :: c in name ==> PlainCharacter(c) {
      if name != "" {
        assert name[0] in name && name[0] != '"';
      }
    } else {
      QuotedReads(PiecesOfText(name));
      PiecesOfTextAreTheName(name);
    }
  }

  // ---- one side of a header -------------------------------------------------------------

  /** `a/` or `b/` taken off, or nothing when neither stands there. */
  function WithoutSide(path: seq<Byte>): Option<seq<Byte>> {
    if |path| >= 2 && (path[0] == 97 || path[0] == 98) && path[1] == 47 then Some(path[2..]) else None
  }

  function OneSide(text: string): Option<seq<Byte>> {
    WithoutSide(Unquoted(TrimEnd(text)))
  }

  lemma Utf8AllOfAscii(c: char, rest: string)
    requires c < '\U{80}'
    ensures Utf8All([c] + rest) == [c as int] + Utf8All(rest)
  {
    assert ([c] + rest)[1..] == rest;
  }

  lemma SideTakenOff(side: Byte, path: seq<Byte>)
    requires side == 97 || side == 98
    ensures WithoutSide([side] + ([47] + path)) == Some(path)
  {
    var whole := [side] + ([47] + path);
    assert whole[0] == side && whole[1] == 47 && whole[2..] == path;
  }

  lemma OneSideOfRaw(side: char, name: string)
    requires side == 'a' || side == 'b'
    ensures WithoutSide(Unquoted([side, '/'] + name)) == Some(Utf8All(name))
  {
    Utf8AllOfAscii('/', name);
    Utf8AllOfAscii(side, ['/'] + name);
    assert [side, '/'] + name == [side] + (['/'] + name);
    SideTakenOff(side as int, Utf8All(name));
  }

  lemma TrimmedName(before: string, name: string, tail: string)
    requires !EndsInWhitespace(before) && forall c :: c in tail ==> IsWhitespace(c)
    ensures TrimEnd(before + name + tail) == before + TrimEnd(name)
  {
    var kept := TrimEnd(name);
    TrimEndIsPrefix(name);
    var cut := name[|kept|..] + tail;
    assert before + name + tail == (before + kept) + cut;
    assert !EndsInWhitespace(before + kept) by {
      if kept != "" {
        assert (before + kept)[|before + kept| - 1] == kept[|kept| - 1];
      } else {
        assert before + kept == before;
      }
    }
    forall c | c in cut ensures IsWhitespace(c) {
      if c in name[|kept|..] {
        var i :| 0 <= i < |name[|kept|..]| && name[|kept|..][i] == c;
        assert name[|kept| + i] == c;
      }
    }
    TrimEndOf(before + kept, cut);
  }

  /** One side of a header not in quotes is what follows `a/` or `b/`, trimmed. */
  lemma OneSideReads(side: char, name: string, tail: string)
    requires side == 'a' || side == 'b'
    requires forall c :: c in tail ==> IsWhitespace(c)
    ensures OneSide([side, '/'] + name + tail) == Some(Utf8All(TrimEnd(name)))
  {
    TrimmedName([side, '/'], name, tail);
    OneSideOfRaw(side, TrimEnd(name));
  }

  /**
   A `+++` or `---` line gives the name back, with or without the tab git puts
   after a name holding a space, exactly when the name does not itself end in
   whitespace.
   */
  lemma OneSideReadsIff(side: char, name: string, tail: string)
    requires side == 'a' || side == 'b'
    requires tail == "" || tail == ['\t']
    ensures OneSide([side, '/'] + name + tail) == Some(Utf8All(name)) <==> !EndsInWhitespace(name)
  {
    OneSideReads(side, name, tail);
    TrimEndIsPrefix(name);
    OneText(TrimEnd(name), name);
  }
}
