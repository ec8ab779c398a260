/**
 The path out of an `a/x b/x` header line, which is all that names the file when
 a chunk of a diff has no hunks.
 */
module GitHeaders {
  import opened Common
  import opened Text
  import opened GitNames

  // ---- a header not quoted ---------------------------------------------------------

  /** Whether ` b/` stands at `at`. */
  predicate SidesMeet(rest: string, at: nat) {
    at + 3 <= |rest| && rest[at] == ' ' && rest[at + 1] == 'b' && rest[at + 2] == '/'
  }

  predicate EqualHalves(rest: string, at: nat) {
    SidesMeet(rest, at) && rest[..at] == rest[at + 3..]
  }

  /** The next place at or after `from` where the sides may meet. */
  function NextMeeting(rest: string, from: nat): (at: Option<nat>)
    ensures at.Some? ==> from <= at.value && SidesMeet(rest, at.value)
    decreases |rest| - from
  {
    if from + 3 > |rest| then None
    else if SidesMeet(rest, from) then Some(from)
    else NextMeeting(rest, from + 1)
  }

  lemma {:induction false} NextMeetingIsNext(rest: string, from: nat, k: nat)
    requires from <= k && SidesMeet(rest, k)
    ensures NextMeeting(rest, from).Some? && NextMeeting(rest, from).value <= k
    decreases |rest| - from
  {
    if !SidesMeet(rest, from) {
      NextMeetingIsNext(rest, from + 1, k);
    }
  }

  /** Where the header is split: between equal halves, or failing that at the first place there is. */
  function Meeting(rest: string): (at: Option<nat>)
    ensures at.Some? ==> SidesMeet(rest, at.value)
  {
    if |rest| >= 3 && EqualHalves(rest, (|rest| - 3) / 2) then Some((|rest| - 3) / 2) else NextMeeting(rest, 0)
  }

  function After(rest: string, at: Option<nat>): Option<string>
    requires at.Some? ==> SidesMeet(rest, at.value)
  {
    match at
    case None => None
    case Some(k) => Some(rest[k + 3..])
  }

  /** There is one place at most where the halves are equal, and it is in the middle. */
  lemma OneEqualSplit(rest: string, at: nat)
    requires EqualHalves(rest, at)
    ensures at == (|rest| - 3) / 2 && Meeting(rest) == Some(at)
  {
    assert |rest[..at]| == |rest[at + 3..]|;
  }

  /** The name after the change, out of what follows `a/`. */
  method PlainHeader(rest: string) returns (path: Option<string>)
    ensures path == After(rest, Meeting(rest))
  {
    var first: Option<string> := None;
    var from := 0;
    var next := NextMeeting(rest, 0);
    while next.Some?
      invariant from <= |rest| && next == NextMeeting(rest, from)
      invariant forall at: nat :: at < from ==> !EqualHalves(rest, at)
      invariant from == 0 ==> first == None
      invariant from > 0 ==> first.Some? && first == After(rest, NextMeeting(rest, 0))
      decreases |rest| - from
    {
      var at := next.value;
      var before, after := rest[..at], rest[at + 3..];
      if before == after {
        OneEqualSplit(rest, at);
        return Some(after);
      }
      NotEqualUpTo(rest, from, at);
      first := first.Or(Some(after));
      // Occurrences cannot overlap, so nothing is missed by going on after this one.
      from := at + 3;
      next := NextMeeting(rest, from);
    }
    if |rest| >= 3 && EqualHalves(rest, (|rest| - 3) / 2) {
      NextMeetingIsNext(rest, from, (|rest| - 3) / 2);
    }
    path := first;
  }

  lemma NotEqualUpTo(rest: string, from: nat, at: nat)
    requires NextMeeting(rest, from) == Some(at) && rest[..at] != rest[at + 3..]
    ensures forall k: nat :: from <= k < at + 3 ==> !EqualHalves(rest, k)
  {
    forall k: nat | from <= k < at + 3 && SidesMeet(rest, k) ensures k == at {
      NextMeetingIsNext(rest, from, k);
    }
  }

  // ---- a header in quotes ------------------------------------------------------------

  /** Whether a closing quote, a space and an opening quote stand at `at`. */
  predicate QuotesMeet(text: string, at: nat) {
    at + 3 <= |text| && text[at] == '"' && text[at + 1] == ' ' && text[at + 2] == '"'
  }

  const GAP: string := ['"', ' ', '"']

  lemma GapIsWhereQuotesMeet(text: string, at: nat)
    ensures StandsAt(text, GAP, at) <==> QuotesMeet(text, at)
  {
    if at + 3 <= |text| {
      assert text[at..at + 3] == [text[at], text[at + 1], text[at + 2]];
    }
  }

  /** The path out of a header line, or nothing where it names none. */
  function HeaderPath(header: string): Option<seq<Byte>> {
    var h := TrimEnd(header);
    if h != "" && h[0] == '"' then
      match LastAt(h, GAP, |h|)
      case None => None
      case Some(at) => OneSide(['"'] + h[at + 3..])
    else if |h| >= 2 && h[0] == 'a' && h[1] == '/' then
      match After(h[2..], Meeting(h[2..]))
      case None => None
      case Some(path) => Some(Utf8All(path))
    else None
  }

  method ReadHeader(line: string) returns (path: Option<seq<Byte>>)
    ensures path == HeaderPath(line)
  {
    var header := TrimEnd(line);
    if header != "" && header[0] == '"' {
      var at := LastAt(header, GAP, |header|);
      if at.None? {
        return None;
      }
      return OneSide(['"'] + header[at.value + 3..]);
    }
    if |header| < 2 || header[0] != 'a' || header[1] != '/' {
      return None;
    }
    var plain := PlainHeader(header[2..]);
    path := if plain.None? then None else Some(Utf8All(plain.value));
  }

  // ---- a name that did not change -------------------------------------------------------

  function BothSides(name: string): string {
    ['a', '/'] + name + [' ', 'b', '/'] + name
  }

  lemma MiddleOfBothSides(name: string)
    ensures Meeting(name + [' ', 'b', '/'] + name) == Some(|name|)
  {
    var rest := name + [' ', 'b', '/'] + name;
    assert rest[..|name|] == name && rest[|name| + 3..] == name;
    OneEqualSplit(rest, |name|);
  }

  lemma TrimmedHeader(name: string)
    ensures TrimEnd(BothSides(name)) == ['a', '/'] + name + [' ', 'b', '/'] + TrimEnd(name)
  {
    var before := ['a', '/'] + name + [' ', 'b', '/'];
    assert before[|before| - 1] == '/';
    TrimmedName(before, name, "");
    assert before + name + "" == BothSides(name);
  }

  /** What a plain header gives is the end of the header, so it never ends in whitespace. */
  lemma PlainPathIsAnEnding(rest: string, name: string)
    requires After(rest, Meeting(rest)) == Some(name) && !EndsInWhitespace(rest)
    ensures !EndsInWhitespace(name)
  {
    var at := Meeting(rest).value;
    if name != "" {
      assert name[|name| - 1] == rest[|rest| - 1];
    }
  }

  lemma PlainHeaderPath(header: string, rest: string)
    requires TrimEnd(header) == ['a', '/'] + rest
    ensures HeaderPath(header) ==
        (match After(rest, Meeting(rest)) case None => None case Some(path) => Some(Utf8All(path)))
  {
    assert (['a', '/'] + rest)[2..] == rest;
  }

  /**
   A header that names one file twice gives its name back exactly when the name
   does not end in whitespace, however often ` b/` stands inside it.
   */
  lemma {:induction false} HeaderReadsIff(name: string)
    ensures HeaderPath(BothSides(name)) == Some(Utf8All(name)) <==> !EndsInWhitespace(name)
  {
    var kept := TrimEnd(name);
    var rest := name + [' ', 'b', '/'] + kept;
    TrimmedHeader(name);
    assert ['a', '/'] + name + [' ', 'b', '/'] + kept == ['a', '/'] + rest;
    PlainHeaderPath(BothSides(name), rest);
    if EndsInWhitespace(name) {
      HeaderLosesTheEnd(name, kept, rest);
    } else {
      assert kept == name;
      MiddleOfBothSides(name);
      assert rest[|name| + 3..] == name;
    }
  }

  lemma HeaderLosesTheEnd(name: string, kept: string, rest: string)
    requires EndsInWhitespace(name) && kept == TrimEnd(name) && rest == name + [' ', 'b', '/'] + kept
    ensures After(rest, Meeting(rest)).Some? ==> Utf8All(After(rest, Meeting(rest)).value) != Utf8All(name)
  {
    TrimEndIsPrefix(name);
    assert !EndsInWhitespace(rest) by {
      assert rest[|rest| - 1] == if kept == "" then '/' else kept[|kept| - 1];
    }
    var path := After(rest, Meeting(rest));
    if path.Some? {
      PlainPathIsAnEnding(rest, path.value);
      OneText(path.value, name);
    }
  }

  // ---- names in quotes -----------------------------------------------------------------

  /** One side of a header, whichever of its name's bytes are escaped. */
  function SidePieces(side: char, name: seq<Piece>): seq<Piece> {
    [Printed(side), Printed('/')] + name
  }

  /** Both names in quotes, as git writes a header when either needs them. */
  function QuotedHeader(before: seq<Piece>, after: seq<Piece>): string {
    Quoted(SidePieces('a', before)) + [' '] + Quoted(SidePieces('b', after))
  }

  /** Inside the quotes a quote only ever stands behind a backslash. */
  lemma {:induction false} QuotesAreEscaped(pieces: seq<Piece>, i: nat)
    requires AllPrintable(pieces) && i < |ShowAll(pieces)| && ShowAll(pieces)[i] == '"'
    ensures i >= 1 && ShowAll(pieces)[i - 1] == '\\'
    decreases |pieces|
  {
    var first := Show(pieces[0]);
    if i >= |first| {
      QuotesAreEscaped(pieces[1..], i - |first|);
    } else {
      assert Printable(pieces[0]);
    }
  }

  lemma {:induction false} ShowAllOfTwo(a: seq<Piece>, b: seq<Piece>)
    ensures ShowAll(a + b) == ShowAll(a) + ShowAll(b)
    decreases |a|
  {
    if a == [] {
      assert a + b == b;
    } else {
      assert (a + b)[1..] == a[1..] + b;
      ShowAllOfTwo(a[1..], b);
    }
  }

  lemma ShowLast(pieces: seq<Piece>, p: Piece)
    ensures ShowAll(pieces + [p]) == ShowAll(pieces) + Show(p)
  {
    ShowAllOfTwo(pieces, [p]);
    assert [p][1..] == [];
  }

  /** The text of the last piece, and what its last character says of it. */
  lemma LastShown(pieces: seq<Piece>) returns (shown: string)
    requires pieces != [] && AllPrintable(pieces)
    ensures ShowAll(pieces) == ShowAll(pieces[..|pieces| - 1]) + shown && shown != ""
    ensures var last := pieces[|pieces| - 1];
            && (shown[|shown| - 1] == ' ' <==> last == Printed(' '))
            && (shown[|shown| - 1] == ' ' ==> |shown| == 1)
            && (shown[|shown| - 1] == '"' <==> last == Escaped(34))
  {
    var last := pieces[|pieces| - 1];
    ShowLast(pieces[..|pieces| - 1], last);
    assert pieces == pieces[..|pieces| - 1] + [last];
    assert Printable(last);
    shown := Show(last);
  }

  /** A quote and a raw space, which would be taken for the end of the first name. */
  predicate EndsInGap(pieces: seq<Piece>) {
    |pieces| >= 2 && pieces[|pieces| - 2] == Escaped(34) && pieces[|pieces| - 1] == Printed(' ')
  }

  predicate GapAtTheEnd(inside: string) {
    |inside| >= 2 && inside[|inside| - 2] == '"' && inside[|inside| - 1] == ' '
  }

  lemma GapIsShown(pieces: seq<Piece>)
    requires |pieces| >= 2 && AllPrintable(pieces)
    ensures GapAtTheEnd(ShowAll(pieces)) <==> EndsInGap(pieces)
  {
    var n := |pieces| - 1;
    var b := LastShown(pieces);
    var a := LastShown(pieces[..n]);
    GapOfTwo(ShowAll(pieces[..n][..n - 1]), a, b);
  }

  /** Whether a text that ends in two shown pieces ends in a gap. */
  lemma GapOfTwo(front: string, a: string, b: string)
    requires a != "" && b != "" && (b[|b| - 1] == ' ' ==> |b| == 1)
    ensures GapAtTheEnd(front + a + b) <==> a[|a| - 1] == '"' && b[|b| - 1] == ' '
  {
    var text := front + a + b;
    assert text[|text| - 1] == b[|b| - 1];
    assert |b| == 1 ==> text[|text| - 2] == a[|a| - 1];
  }

  /** After the place where the sides meet, quotes meet again only at the very end. */
  lemma QuotesMeetAgainOnlyAtTheEnd(left: string, pieces: seq<Piece>, k: nat)
    requires AllPrintable(pieces)
    requires var text := left + ['"', ' ', '"'] + ShowAll(pieces) + ['"'];
             QuotesMeet(text, k) && k > |left|
    ensures k == |left| + 3 + |ShowAll(pieces)| - 2
  {
    var inside := ShowAll(pieces);
    var text := left + ['"', ' ', '"'] + inside + ['"'];
    var i := k - 1 - |left|;
    if i < |inside| {
      assert text[k + 2] == inside[i];
      assert i >= 1 ==> text[k + 1] == inside[i - 1];
      QuotesAreEscaped(pieces, i);
    }
  }

  lemma GapInQuotedHeader(left: string, pieces: seq<Piece>)
    requires AllPrintable(pieces) && |ShowAll(pieces)| >= 2
    ensures var text := left + ['"', ' ', '"'] + ShowAll(pieces) + ['"'];
            LastAt(text, GAP, |text|) == Some(if GapAtTheEnd(ShowAll(pieces)) then |text| - 3 else |left|)
  {
    var inside := ShowAll(pieces);
    var text := left + ['"', ' ', '"'] + inside + ['"'];
    var end := |text| - 3;
    assert text[end] == inside[|inside| - 2] && text[end + 1] == inside[|inside| - 1] && text[end + 2] == '"';
    forall k: nat | k > |left| && StandsAt(text, GAP, k) ensures k == end && GapAtTheEnd(inside) {
      GapIsWhereQuotesMeet(text, k);
      QuotesMeetAgainOnlyAtTheEnd(left, pieces, k);
    }
    GapIsWhereQuotesMeet(text, end);
    GapIsWhereQuotesMeet(text, |left|);
    if GapAtTheEnd(inside) {
      LastAtIsLast(text, GAP, |text|, end);
    } else {
      LastAtIsLast(text, GAP, |text|, |left|);
    }
  }

  /** The header's text, and where its last gap is. */
  lemma GapOfQuotedHeader(before: seq<Piece>, after: seq<Piece>)
    requires AllPrintable(after)
    ensures var left, inside := ['"'] + ShowAll(SidePieces('a', before)), ShowAll(SidePieces('b', after));
            var text := left + ['"', ' ', '"'] + inside + ['"'];
            && QuotedHeader(before, after) == text && TrimEnd(text) == text && text[0] == '"'
            && LastAt(text, GAP, |text|) == Some(if EndsInGap(after) then |text| - 3 else |left|)
  {
    var left, pieces := ['"'] + ShowAll(SidePieces('a', before)), SidePieces('b', after);
    var text := left + ['"', ' ', '"'] + ShowAll(pieces) + ['"'];
    assert QuotedHeader(before, after) == text;
    GapIsShown(pieces);
    assert EndsInGap(pieces) <==> EndsInGap(after);
    AtLeastAsLong(pieces);
    GapInQuotedHeader(left, pieces);
  }

  /**
   A header in quotes, whichever characters are printed raw and whichever bytes
   escaped, gives the name after the change exactly when that name does not end in
   a quote and a raw space. When it does, the header gives nothing.
   */
  lemma QuotedHeaderReadsIff(before: seq<Piece>, after: seq<Piece>)
    requires AllPrintable(after)
    ensures HeaderPath(QuotedHeader(before, after)) == if EndsInGap(after) then None else Some(MeantAll(after))
  {
    var left, pieces := ['"'] + ShowAll(SidePieces('a', before)), SidePieces('b', after);
    var text := left + ['"', ' ', '"'] + ShowAll(pieces) + ['"'];
    GapOfQuotedHeader(before, after);
    if EndsInGap(after) {
      assert text[|text| - 3 + 3..] == "";
      OneQuoteIsNoName();
    } else {
      RightSide(left, pieces);
      QuotedSideReads('b', after);
    }
  }

  lemma RightSide(left: string, pieces: seq<Piece>)
    ensures ['"'] + (left + ['"', ' ', '"'] + ShowAll(pieces) + ['"'])[|left| + 3..] == Quoted(pieces)
  {
  }

  lemma {:induction false} AtLeastAsLong(pieces: seq<Piece>)
    ensures |ShowAll(pieces)| >= |pieces|
    decreases |pieces|
  {
    if pieces != [] {
      AtLeastAsLong(pieces[1..]);
    }
  }

  lemma OneQuoteIsNoName()
    ensures OneSide(['"'] + "") == None
  {
    assert ['"'] + "" == ['"'];
    assert Utf8All(['"']) == [34];
  }

  /** One side of a header in quotes gives its name back, however its bytes are written. */
  lemma QuotedSideReads(side: char, name: seq<Piece>)
    requires (side == 'a' || side == 'b') && AllPrintable(name)
    ensures OneSide(Quoted(SidePieces(side, name))) == Some(MeantAll(name))
  {
    var pieces := SidePieces(side, name);
    var text := Quoted(pieces);
    assert TrimEnd(text) == text;
    QuotedReads(pieces);
    SideMeant(side, name);
    assert ([side as int, 47] + MeantAll(name))[2..] == MeantAll(name);
  }

  lemma SideMeant(side: char, name: seq<Piece>)
    requires side < '\U{80}'
    ensures MeantAll(SidePieces(side, name)) == [side as int, 47] + MeantAll(name)
  {
    assert SidePieces(side, name)[1..] == [Printed('/')] + name;
    assert ([Printed('/')] + name)[1..] == name;
  }

  lemma TextEndsInGap(name: string)
    ensures EndsInGap(PiecesOfText(name)) <==> |name| >= 2 && name[|name| - 2] == '"' && name[|name| - 1] == ' '
  {
    if |name| >= 2 {
      CharactersOfTheGap(name[|name| - 2], name[|name| - 1]);
    }
  }

  lemma CharactersOfTheGap(a: char, b: char)
    ensures PieceOfCharacter(a) == Escaped(34) <==> a == '"'
    ensures PieceOfCharacter(b) == Printed(' ') <==> b == ' '
  {
  }

  /** So a header of the worker's, with `core.quotePath` off, gives its name under the same condition. */
  lemma QuotedTextHeaderReadsIff(before: string, after: string)
    ensures HeaderPath(QuotedHeader(PiecesOfText(before), PiecesOfText(after))) ==
            if |after| >= 2 && after[|after| - 2] == '"' && after[|after| - 1] == ' '
            then None else Some(Utf8All(after))
  {
    QuotedHeaderReadsIff(PiecesOfText(before), PiecesOfText(after));
    PiecesOfTextAreTheName(after);
    TextEndsInGap(after);
  }

  /** One name each kind of header does not give back. */
  lemma TwoNamesAreLost()
    ensures HeaderPath(BothSides("x ")) != Some(Utf8All("x "))
    ensures var quoteAndSpace := [Escaped(34), Printed(' ')];
            HeaderPath(QuotedHeader(quoteAndSpace, quoteAndSpace)) == None
  {
    var name := "x ";
    assert EndsInWhitespace(name);
    HeaderReadsIff(name);
    QuotedHeaderReadsIff([Escaped(34), Printed(' ')], [Escaped(34), Printed(' ')]);
  }

  // ---- two different names ---------------------------------------------------------------

  /** Nowhere in a name does ` b/` stand. */
  predicate NoMeeting(name: string) {
    forall at :: 0 <= at < |name| ==> !SidesMeet(name, at)
  }

  /** Before the place where two names meet, ` b/` stands only inside the first. */
  lemma MeetsInTheFirst(before: string, after: string, k: nat)
    requires k < |before|
    ensures SidesMeet(before + [' ', 'b', '/'] + after, k) <==> SidesMeet(before, k)
  {
    var rest := before + [' ', 'b', '/'] + after;
    assert forall m :: 0 <= m < |before| ==> rest[m] == before[m];
    assert rest[|before|] == ' ' && rest[|before| + 1] == 'b';
  }

  lemma WhereTwoNamesMeet(before: string, after: string) returns (at: nat)
    ensures NextMeeting(before + [' ', 'b', '/'] + after, 0) == Some(at) && at <= |before|
    ensures at == |before| <==> NoMeeting(before)
  {
    var rest := before + [' ', 'b', '/'] + after;
    assert SidesMeet(rest, |before|);
    NextMeetingIsNext(rest, 0, |before|);
    at := NextMeeting(rest, 0).value;
    if at < |before| {
      MeetsInTheFirst(before, after, at);
    }
    forall k | 0 <= k < |before| && SidesMeet(before, k) ensures at <= k {
      MeetsInTheFirst(before, after, k);
      NextMeetingIsNext(rest, 0, k);
    }
  }

  /**
   A header of two names that differ, as a rename has, gives the second exactly when
   no ` b/` stands in the first.
   */
  lemma TwoNamesReadIff(before: string, after: string)
    requires !EndsInWhitespace(after)
    requires forall at: nat :: !EqualHalves(before + [' ', 'b', '/'] + after, at)
    ensures HeaderPath(['a', '/'] + (before + [' ', 'b', '/'] + after)) == Some(Utf8All(after)) <==> NoMeeting(before)
  {
    var rest := before + [' ', 'b', '/'] + after;
    var header := ['a', '/'] + rest;
    assert header[|header| - 1] == if after == "" then '/' else after[|after| - 1];
    assert TrimEnd(header) == header;
    assert header[2..] == rest && rest[|before| + 3..] == after;
    var at := WhereTwoNamesMeet(before, after);
    assert HeaderPath(header) == Some(Utf8All(rest[at + 3..]));
    OneText(rest[at + 3..], after);
    assert |rest[at + 3..]| == |rest| - at - 3;
  }

  /** A line that opens with neither a quote nor `a/` names nothing. */
  lemma NoHeaderNoPath(line: string)
    requires !(['"'] <= line) && !("a/" <= line)
    ensures HeaderPath(line) == None
  {
    TrimEndIsPrefix(line);
    var h := TrimEnd(line);
    assert |h| >= 2 ==> line[..2] == [h[0], h[1]];
    assert h != "" ==> line[..1] == [h[0]];
  }
}
