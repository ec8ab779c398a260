/**
 What each kind of chunk without hunks gives as its path: a rename or a copy, a
 change of mode, a binary file that is new, gone, or changed under a quoted name.
 */
module GitChunks {
  import opened Common
  import opened Text
  import opened GitNames
  import opened GitHeaders
  import opened GitPaths

  const UNKNOWN: seq<Byte> := Utf8All("unknown")

  // ---- an edited file -----------------------------------------------------------------

  /** Nothing but `i` opens with the mark. */
  predicate OnlyAt(lines: seq<string>, mark: string, i: nat) {
    i < |lines| && mark <= lines[i] && forall k :: 0 <= k < |lines| && mark <= lines[k] ==> k == i
  }

  lemma SideAfter(mark: string, side: string, name: string, tail: string, line: string)
    requires line == mark + side + name + tail && (side == "a/" || side == "b/") && (tail == "" || tail == ['\t'])
    ensures mark <= line && OneSide(line[|mark|..]) == Some(Utf8All(TrimEnd(name)))
  {
    assert line[|mark|..] == [side[0], '/'] + name + tail;
    OneSideReads(side[0], name, tail);
  }

  /**
   A file edited, and perhaps renamed, goes by its new name, up to whitespace at its
   end: by the line under `+++ `, whatever stands under `--- `.
   */
  lemma AnEditedFileIsItsNewName(lines: seq<string>, hunks: string, i: nat, old_: string, name: string, tail: string)
    requires Above(lines, hunks) && OnlyAt(lines, "+++ ", i) && i > 0
    requires lines[i - 1] == "--- a/" + old_ && lines[i] == "+++ b/" + name + tail && (tail == "" || tail == ['\t'])
    ensures PathIn(Join(lines) + hunks) == Utf8All(TrimEnd(name))
    ensures PathIn(Join(lines) + hunks) == Utf8All(name) <==> !EndsInWhitespace(name)
  {
    assert "+++ b/" + name + tail == "+++ " + "b/" + name + tail;
    SideAfter("+++ ", "b/", name, tail, lines[i]);
    PairNamesTheFile(lines, hunks, i, Utf8All(TrimEnd(name)), false);
    TrimmedIff(name, TrimEnd(name));
  }

  lemma NothingUnderTheMark(lines: seq<string>, i: nat)
    requires OnlyAt(lines, "+++ ", i) && lines[i] == "+++ /dev/null"
    ensures NoneUnder(lines, "+++ ")
  {
    assert lines[i][4..] == NOTHING;
    NothingIsNoSide(NOTHING[1..]);
    assert NOTHING == ['/'] + NOTHING[1..];
  }

  /** A file deleted, with nothing under `+++ `, goes by its old one. */
  lemma ADeletedFileIsItsOldName(lines: seq<string>, hunks: string, i: nat, name: string, tail: string)
    requires Above(lines, hunks) && OnlyAt(lines, "--- ", i) && OnlyAt(lines, "+++ ", i + 1)
    requires lines[i] == "--- a/" + name + tail && lines[i + 1] == "+++ /dev/null" && (tail == "" || tail == ['\t'])
    ensures PathIn(Join(lines) + hunks) == Utf8All(TrimEnd(name))
    ensures PathIn(Join(lines) + hunks) == Utf8All(name) <==> !EndsInWhitespace(name)
  {
    assert "--- a/" + name + tail == "--- " + "a/" + name + tail;
    SideAfter("--- ", "a/", name, tail, lines[i]);
    NothingUnderTheMark(lines, i + 1);
    PairNamesTheFile(lines, hunks, i, Utf8All(TrimEnd(name)), true);
    TrimmedIff(name, TrimEnd(name));
  }

  // ---- a rename or a copy ----------------------------------------------------------

  predicate NoMove(lines: seq<string>) {
    forall i :: 0 <= i < |lines| ==> !("rename to " <= lines[i]) && !("copy to " <= lines[i])
  }

  lemma {:induction false} MovedAt(lines: seq<string>, i: nat, mark: string, text: string)
    requires i < |lines| && NoMove(lines[..i])
    requires (mark == "rename to " || mark == "copy to ") && lines[i] == mark + text
    ensures Moved(lines) == Some(Unquoted(TrimEnd(text)))
    decreases |lines|
  {
    if i > 0 {
      assert lines[..i][0] == lines[0];
      assert lines[1..][..i - 1] == lines[..i][1..];
      MovedAt(lines[1..], i - 1, mark, text);
    } else {
      assert lines[0][0] == mark[0];
      assert lines[0][|mark|..] == text;
    }
  }

  lemma PathOfMoved(lines: seq<string>, hunks: string, path: seq<Byte>)
    requires Above(lines, hunks) && Named(lines, "+++ ") == None && Named(lines, "--- ") == None
    requires Moved(lines) == Some(path)
    ensures PathIn(Join(lines) + hunks) == path
  {
    HunksAreNotRead(lines, hunks);
  }

  /** With no name on a `+++` or `---` line, the path is what the first rename or copy line says. */
  lemma MovedFile(lines: seq<string>, hunks: string, i: nat, mark: string, text: string, path: seq<Byte>)
    requires Above(lines, hunks) && NoneUnder(lines, "+++ ") && NoneUnder(lines, "--- ")
    requires i < |lines| && NoMove(lines[..i])
    requires (mark == "rename to " || mark == "copy to ") && lines[i] == mark + text
    requires path == Unquoted(TrimEnd(text))
    ensures PathIn(Join(lines) + hunks) == path
  {
    NamedNowhere(lines, "+++ ");
    NamedNowhere(lines, "--- ");
    MovedAt(lines, i, mark, text);
    PathOfMoved(lines, hunks, path);
  }

  /** A raw new name comes back exactly when it does not end in whitespace. */
  lemma MovedReadsIff(lines: seq<string>, hunks: string, i: nat, mark: string, name: string)
    requires Above(lines, hunks) && NoneUnder(lines, "+++ ") && NoneUnder(lines, "--- ")
    requires i < |lines| && NoMove(lines[..i])
    requires (mark == "rename to " || mark == "copy to ") && lines[i] == mark + name && '"' !in name
    ensures PathIn(Join(lines) + hunks) == Utf8All(name) <==> !EndsInWhitespace(name)
  {
    var kept := TrimEnd(name);
    TrimEndIsPrefix(name);
    RawIsPlain(name, kept);
    MovedFile(lines, hunks, i, mark, name, Utf8All(kept));
    OneText(kept, name);
    TrimEndOf(kept, "");
    assert !EndsInWhitespace(name) ==> kept == name;
  }

  lemma RawIsPlain(name: string, kept: string)
    requires '"' !in name && kept <= name
    ensures Unquoted(kept) == Utf8All(kept)
  {
    assert kept != "" ==> kept[0] == name[0] && name[0] in name;
  }

  /** And one in quotes always does. */
  lemma QuotedMoveReads(lines: seq<string>, hunks: string, i: nat, mark: string, name: seq<Piece>)
    requires Above(lines, hunks) && NoneUnder(lines, "+++ ") && NoneUnder(lines, "--- ")
    requires i < |lines| && NoMove(lines[..i])
    requires (mark == "rename to " || mark == "copy to ") && lines[i] == mark + Quoted(name) && AllPrintable(name)
    ensures PathIn(Join(lines) + hunks) == MeantAll(name)
  {
    QuotedReads(name);
    QuotedIsTrimmed(Quoted(name));
    MovedFile(lines, hunks, i, mark, Quoted(name), MeantAll(name));
  }

  lemma QuotedIsTrimmed(text: string)
    requires text != "" && text[|text| - 1] == '"'
    ensures TrimEnd(text) == text
  {
  }

  // ---- nothing but the header ---------------------------------------------------------

  lemma {:induction false} SilentSayNothing(lines: seq<string>)
    requires forall i :: 0 <= i < |lines| ==> Silent(lines[i])
    ensures Named(lines, "+++ ") == None && Named(lines, "--- ") == None
    ensures Moved(lines) == None && BinaryBody(lines) == None
    decreases |lines|
  {
    if lines != [] {
      SilentSayNothing(lines[1..]);
    }
  }

  lemma PathOfHeader(lines: seq<string>, hunks: string, header: Option<seq<Byte>>)
    requires Above(lines, hunks) && Named(lines, "+++ ") == None && Named(lines, "--- ") == None
    requires Moved(lines) == None && BinaryBody(lines) == None && header == HeaderPath(lines[0])
    ensures PathIn(Join(lines) + hunks) == header.GetOr(UNKNOWN)
  {
    HunksAreNotRead(lines, hunks);
  }

  lemma HeaderAlone(lines: seq<string>, hunks: string, header: Option<seq<Byte>>)
    requires Above(lines, hunks) && header == HeaderPath(lines[0])
    requires forall i :: 0 <= i < |lines| ==> Silent(lines[i])
    ensures PathIn(Join(lines) + hunks) == header.GetOr(UNKNOWN)
  {
    SilentSayNothing(lines);
    PathOfHeader(lines, hunks, header);
  }

  /** A header alone, as where only the mode changed, gives a raw name exactly when it does not end in whitespace. */
  lemma ModeOnlyReadsIff(name: string, lines: seq<string>, hunks: string)
    requires Above(lines, hunks) && lines[0] == BothSides(name)
    requires forall i :: 0 <= i < |lines| ==> Silent(lines[i])
    ensures PathIn(Join(lines) + hunks) == Utf8All(name) <==> !EndsInWhitespace(name)
  {
    var header := HeaderPath(BothSides(name));
    HeaderReadsIff(name);
    HeaderAlone(lines, hunks, header);
    UnknownIsNotIt(name, header);
  }

  lemma UnknownIsNotIt(name: string, header: Option<seq<Byte>>)
    requires EndsInWhitespace(name) ==> header != Some(Utf8All(name))
    ensures EndsInWhitespace(name) ==> header.GetOr(UNKNOWN) != Utf8All(name)
  {
    if EndsInWhitespace(name) {
      var unknown := "unknown";
      assert !IsWhitespace(unknown[6]);
      OneText(unknown, name);
    }
  }

  lemma {:induction false} LastMeant(name: seq<Piece>)
    requires name != []
    ensures MeantAll(name) == MeantAll(name[..|name| - 1]) + Meant(name[|name| - 1])
    decreases |name|
  {
    if |name| == 1 {
      assert name[1..] == [] && name[..0] == [];
      assert MeantAll(name[1..]) == [] && MeantAll(name[..0]) == [];
    } else {
      LastMeant(name[1..]);
      assert name[1..][..|name| - 2] == name[..|name| - 1][1..];
      assert name[1..][|name| - 2] == name[|name| - 1];
    }
  }

  /** A name that ends in a space is not `unknown`. */
  lemma GapIsNotUnknown(name: seq<Piece>)
    requires EndsInGap(name)
    ensures MeantAll(name) != UNKNOWN
  {
    LastMeant(name);
    var meant := MeantAll(name);
    assert meant[|meant| - 1] == 32;
    SpelledUnknown();
  }

  lemma SpelledUnknown()
    ensures |UNKNOWN| == 7 && UNKNOWN[6] == 110
  {
    var text := "unknown";
    assert text[1..] == "nknown" && text[1..][1..] == "known" && "known"[1..] == "nown";
    assert "nown"[1..] == "own" && "own"[1..] == "wn" && "wn"[1..] == "n" && "n"[1..] == "";
    assert Utf8All("wn") == [119, 110];
    assert Utf8All("nown") == [110, 111, 119, 110];
    assert Utf8All("nknown") == [110, 107] + Utf8All("nown");
  }

  /** A quoted header alone gives its name exactly when it does not end in a quote and a raw space. */
  lemma QuotedModeOnlyReadsIff(before: seq<Piece>, after: seq<Piece>, lines: seq<string>, hunks: string)
    requires AllPrintable(after) && Above(lines, hunks) && lines[0] == QuotedHeader(before, after)
    requires forall i :: 0 <= i < |lines| ==> Silent(lines[i])
    ensures PathIn(Join(lines) + hunks) == MeantAll(after) <==> !EndsInGap(after)
  {
    QuotedHeaderReadsIff(before, after);
    HeaderAlone(lines, hunks, if EndsInGap(after) then None else Some(MeantAll(after)));
    if EndsInGap(after) {
      GapIsNotUnknown(after);
    }
  }

  // ---- a binary file that is new or gone -------------------------------------------------

  const NOTHING: string := "/dev/null"

  lemma NothingIsNoSide(rest: string)
    ensures OneSide(['/'] + rest) == None
  {
    TrimmedName(['/'], rest, "");
    assert ['/'] + rest + "" == ['/'] + rest;
    var kept := TrimEnd(['/'] + rest);
    assert kept == ['/'] + TrimEnd(rest);
    Utf8AllOfAscii('/', TrimEnd(rest));
  }

  function DeletedBinary(name: string): string {
    ['a', '/'] + name + " and " + NOTHING
  }

  lemma OfNothing(before: string, name: string)
    requires before == ['a', '/'] + name
    ensures OneSide(NOTHING) == None && OneSide(before) == Some(Utf8All(TrimEnd(name)))
  {
    NothingIsNoSide(NOTHING[1..]);
    assert NOTHING == ['/'] + NOTHING[1..];
    OneSideReads('a', name, "");
    assert before == ['a', '/'] + name + "";
  }

  lemma DeletedSplits(name: string)
    ensures BinaryName(DeletedBinary(name)) == Some(Utf8All(TrimEnd(name)))
  {
    var left := ['a', '/'] + name;
    assert DeletedBinary(name) == TwoSides(left, NOTHING, "", "");
    var after, before := BinaryNameSplits(left, NOTHING, "", "");
    assert !HoldsAnd("");
    assert after == NOTHING;
    OfNothing(left, name);
  }

  /** A binary file gone gives its raw name exactly when it does not end in whitespace. */
  lemma DeletedBinaryReadsIff(lines: seq<string>, name: string)
    requires Above(lines + [BinaryLine(DeletedBinary(name))], "") && lines != []
    requires forall i :: 0 <= i < |lines| ==> Silent(lines[i])
    ensures PathIn(Join(lines + [BinaryLine(DeletedBinary(name))])) == Utf8All(name) <==> !EndsInWhitespace(name)
  {
    var kept := TrimEnd(name);
    TrimEndIsPrefix(name);
    DeletedSplits(name);
    BinaryChunkNamed(lines, DeletedBinary(name), Utf8All(kept));
    TrimmedIff(name, kept);
  }

  /** A name without the whitespace at its end is itself exactly when it has none there. */
  lemma TrimmedIff(name: string, kept: string)
    requires kept == TrimEnd(name)
    ensures Utf8All(kept) == Utf8All(name) <==> !EndsInWhitespace(name)
  {
    TrimEndIsPrefix(name);
    OneText(kept, name);
  }

  function NewBinary(name: string): string {
    TwoSides(NOTHING, ['b', '/'], name, "")
  }

  /** Whether a text would be taken for a side of a header: `a/` or `b/` opens it. */
  predicate OpensLikeASide(text: string) {
    |text| >= 2 && (text[0] == 'a' || text[0] == 'b') && text[1] == '/'
  }

  lemma SideIff(text: string)
    requires '"' !in text
    ensures OneSide(text).Some? <==> OpensLikeASide(text)
  {
    var kept := TrimEnd(text);
    TrimEndIsPrefix(text);
    RawIsPlain(text, kept);
    if OpensLikeASide(text) {
      var rest := text[2..];
      assert text == [text[0], '/'] + rest + "";
      OneSideReads(text[0], rest, "");
    } else {
      NoSideOfRaw(text, kept);
    }
  }

  lemma NoSideOfRaw(text: string, kept: string)
    requires kept <= text && !OpensLikeASide(text)
    ensures WithoutSide(Utf8All(kept)) == None
  {
    if kept != "" {
      var bytes := Utf8All(kept);
      assert bytes == Utf8(kept[0]) + Utf8All(kept[1..]);
      Utf8Length(kept[0]);
      assert bytes[0] == Utf8(kept[0])[0];
      if |kept| >= 2 && bytes[0] < 0x80 {
        assert bytes[1..] == Utf8All(kept[1..]) && kept[1..][0] == kept[1];
        assert bytes[1] == Utf8(kept[1])[0];
        Utf8Length(kept[1]);
      }
    }
  }

  /** What stands before the split of a new binary file's line opens like `/dev/null`. */
  lemma NothingBefore(before: string)
    requires before != "" && before[0] == '/'
    ensures OneSide(before) == None
  {
    assert before == ['/'] + before[1..];
    NothingIsNoSide(before[1..]);
  }

  lemma TailGiven(name: string, after: string)
    requires '"' !in name && HoldsAnd(name) && after == AfterAnd(name)
    ensures OneSide(after) != Some(Utf8All(name)) && (OneSide(after).Some? <==> OpensLikeASide(after))
  {
    var front := name[..|name| - |after|];
    assert name == front + after;
    TailIsNotTheName(name, after, front);
    SideIff(after);
  }

  /** What a new binary file's line gives: its name, a tail of it taken for a side, or nothing. */
  lemma NewSplits(name: string) returns (given: Option<seq<Byte>>)
    requires '"' !in name
    ensures given == BinaryName(NewBinary(name))
    ensures !HoldsAnd(name) ==> given == Some(Utf8All(TrimEnd(name)))
    ensures HoldsAnd(name) ==> given != Some(Utf8All(name))
    ensures HoldsAnd(name) ==> (given.Some? <==> OpensLikeASide(AfterAnd(name)))
  {
    var after, before := BinaryNameSplits(NOTHING, ['b', '/'], name, "");
    NothingBefore(before);
    given := OneSide(after);
    if HoldsAnd(name) {
      assert after == AfterAnd(name);
      TailGiven(name, after);
    } else {
      OneSideReads('b', name, "");
    }
  }

  /**
   A new binary file gives its raw name exactly when the name does not end in
   whitespace and what follows its last ` and ` does not open like a side: when the
   line is split in the wrong place, it is the header that names the file.
   */
  lemma NewBinaryReadsIff(lines: seq<string>, name: string)
    requires '"' !in name && Above(lines + [BinaryLine(NewBinary(name))], "")
    requires lines != [] && lines[0] == BothSides(name)
    requires forall i :: 0 <= i < |lines| ==> Silent(lines[i])
    ensures PathIn(Join(lines + [BinaryLine(NewBinary(name))])) == Utf8All(name) <==>
            !EndsInWhitespace(name) && (HoldsAnd(name) ==> !OpensLikeASide(AfterAnd(name)))
  {
    var given := NewSplits(name);
    var header := HeaderPath(BothSides(name));
    HeaderReadsIff(name);
    BinaryChunk(lines, NewBinary(name), given, header);
    UnknownIsNotIt(name, header);
    TrimEndIsPrefix(name);
    OneText(TrimEnd(name), name);
  }

  // ---- a changed binary file in quotes -----------------------------------------------------

  function QuotedBinary(name: seq<Piece>): string {
    Quoted(SidePieces('a', name)) + " and " + Quoted(SidePieces('b', name))
  }

  lemma ShowSide(side: char, name: seq<Piece>)
    ensures ShowAll(SidePieces(side, name)) == [side, '/'] + ShowAll(name)
  {
    assert SidePieces(side, name)[1..] == [Printed('/')] + name;
    assert ([Printed('/')] + name)[1..] == name;
  }

  /** A quote ends what stands before the last ` and `, and would close the quotes of the first name. */
  predicate ClosesLikeAQuote(text: string) {
    TrimEnd(text) != "" && TrimEnd(text)[|TrimEnd(text)| - 1] == '"'
  }

  // ` and ` in bytes. What is printed with it means it, and text that means it holds it.

  predicate AndInBytes(bytes: seq<Byte>) {
    exists k :: 0 <= k < |bytes| - 4 && AndOpens(bytes[k..])
  }

  predicate AndOpens(bytes: seq<Byte>) {
    |bytes| >= 5 && bytes[0] == 32 && bytes[1] == 97 && bytes[2] == 110 && bytes[3] == 100 && bytes[4] == 32
  }

  lemma AndFurtherOn(front: seq<Byte>, bytes: seq<Byte>)
    ensures AndInBytes(bytes) ==> AndInBytes(front + bytes)
  {
    if AndInBytes(bytes) {
      var k :| 0 <= k < |bytes| - 4 && AndOpens(bytes[k..]);
      assert (front + bytes)[|front| + k..] == bytes[k..];
    }
  }

  lemma ShownStartsWith(pieces: seq<Piece>, c: char)
    requires AllPrintable(pieces) && ShowAll(pieces) != "" && ShowAll(pieces)[0] == c && c != '\\'
    ensures pieces != [] && pieces[0] == Printed(c) && AllPrintable(pieces[1..])
    ensures ShowAll(pieces) == [c] + ShowAll(pieces[1..])
  {
    assert Printable(pieces[0]);
  }

  /** The piece at the front of a shown ` and `, and so the five. */
  lemma AndShownAtTheFront(pieces: seq<Piece>)
    requires AllPrintable(pieces) && StandsAt(ShowAll(pieces), " and ", 0)
    ensures AndOpens(MeantAll(pieces))
  {
    var shown := ShowAll(pieces);
    AndIsSpelt(shown, 0);
    ShownStartsWith(pieces, ' ');
    ShownStartsWith(pieces[1..], 'a');
    ShownStartsWith(pieces[1..][1..], 'n');
    ShownStartsWith(pieces[1..][1..][1..], 'd');
    ShownStartsWith(pieces[1..][1..][1..][1..], ' ');
    var rest := MeantAll(pieces[1..][1..][1..][1..][1..]);
    assert MeantAll(pieces[1..][1..][1..][1..]) == [32] + rest;
    assert MeantAll(pieces[1..][1..][1..]) == [100] + ([32] + rest);
    assert MeantAll(pieces[1..][1..]) == [110] + ([100] + ([32] + rest));
    assert MeantAll(pieces[1..]) == [97] + ([110] + ([100] + ([32] + rest)));
  }

  lemma NoSpaceInside(p: Piece, j: nat)
    requires Printable(p) && j < |Show(p)| && Show(p)[j] == ' '
    ensures j == 0 && |Show(p)| == 1
  {
  }

  /** A shown ` and ` is meant. */
  lemma {:induction false} AndShownIsMeant(pieces: seq<Piece>, j: nat)
    requires AllPrintable(pieces) && StandsAt(ShowAll(pieces), " and ", j)
    ensures AndInBytes(MeantAll(pieces))
    decreases |pieces|
  {
    var shown := ShowAll(pieces);
    AndIsSpelt(shown, j);
    var first := Show(pieces[0]);
    if j < |first| {
      assert Printable(pieces[0]) && first[j] == shown[j];
      NoSpaceInside(pieces[0], j);
      AndShownAtTheFront(pieces);
      assert MeantAll(pieces)[0..] == MeantAll(pieces);
    } else {
      StandsFurtherOn(first, ShowAll(pieces[1..]), j);
      AndShownIsMeant(pieces[1..], j - |first|);
      AndFurtherOn(Meant(pieces[0]), MeantAll(pieces[1..]));
    }
  }

  lemma TextStartsWith(text: string, b: Byte)
    requires Utf8All(text) != [] && Utf8All(text)[0] == b && b < 0x80
    ensures text != "" && text[0] == b as char && Utf8All(text) == [b] + Utf8All(text[1..])
  {
    Utf8Length(text[0]);
    assert Utf8All(text)[0] == Utf8(text[0])[0];
  }

  lemma AndReadAtTheFront(text: string)
    requires AndOpens(Utf8All(text))
    ensures StandsAt(text, " and ", 0)
  {
    TextStartsWith(text, 32);
    TextStartsWith(text[1..], 97);
    TextStartsWith(text[1..][1..], 110);
    TextStartsWith(text[1..][1..][1..], 100);
    TextStartsWith(text[1..][1..][1..][1..], 32);
    AndIsSpelt(text, 0);
  }

  lemma LaterBytes(c: char, i: nat)
    requires 0 < i < |Utf8(c)|
    ensures Utf8(c)[i] >= 0x80
  {
  }

  /** Text whose bytes hold ` and ` holds it. */
  lemma AndOpensACharacter(text: string, k: nat)
    requires text != "" && k < |Utf8All(text)| && AndOpens(Utf8All(text)[k..])
    ensures k == 0 || k >= |Utf8(text[0])|
  {
    var first := Utf8(text[0]);
    assert k < |first| ==> Utf8All(text)[k..][0] == first[k];
    if 0 < k < |first| {
      LaterBytes(text[0], k);
    }
  }

  lemma AndFurtherInBytes(first: seq<Byte>, rest: seq<Byte>, k: nat)
    requires |first| <= k < |first + rest| - 4 && AndOpens((first + rest)[k..])
    ensures AndInBytes(rest)
  {
    assert (first + rest)[k..] == rest[k - |first|..];
  }

  lemma {:induction false} AndReadIsThere(text: string) returns (j: nat)
    requires AndInBytes(Utf8All(text))
    ensures StandsAt(text, " and ", j)
    decreases |text|
  {
    var bytes := Utf8All(text);
    var k :| 0 <= k < |bytes| - 4 && AndOpens(bytes[k..]);
    AndOpensACharacter(text, k);
    if k == 0 {
      assert bytes[0..] == bytes;
      AndReadAtTheFront(text);
      j := 0;
    } else {
      AndFurtherInBytes(Utf8(text[0]), Utf8All(text[1..]), k);
      var i := AndReadIsThere(text[1..]);
      AndAfterACharacter(text, i);
      j := i + 1;
    }
  }

  lemma AndAfterACharacter(text: string, i: nat)
    requires text != "" && StandsAt(text[1..], " and ", i)
    ensures StandsAt(text, " and ", i + 1)
  {
    var first := [text[0]];
    StandsFurtherOn(first, text[1..], i + 1);
    assert text == first + text[1..];
  }

  lemma NoneAfterTheLast(shown: string, front: string, raw: string, k: nat)
    requires HoldsAnd(shown) && AfterAnd(shown) == front + raw
    ensures !StandsAt(raw, " and ", k)
  {
    var j := LastAt(shown, " and ", |shown|).value;
    var before := shown[..j + 5] + front;
    assert shown == before + raw;
    if StandsAt(raw, " and ", k) {
      StandsFurtherOn(before, raw, |before| + k);
      LastAtIsNotBefore(shown, " and ", |shown|, |before| + k);
    }
  }

  /** A tail after the last ` and `, read raw, is not what the whole means: it holds no ` and `. */
  lemma RawTailIsNotTheName(name: seq<Piece>, raw: string, front: string, closing: string)
    requires AllPrintable(name) && HoldsAnd(ShowAll(name))
    requires AfterAnd(ShowAll(name)) == front + raw && (closing == "" || closing == ['"'])
    ensures Utf8All(raw + closing) != MeantAll(name)
  {
    AndShownIsMeant(name, LastAt(ShowAll(name), " and ", |ShowAll(name)|).value);
    if AndInBytes(Utf8All(raw + closing)) {
      var k := AndReadIsThere(raw + closing);
      AndBeforeTheEnd(raw, closing, k);
      NoneAfterTheLast(ShowAll(name), front, raw, k);
    }
  }

  lemma RawSideIff(text: string)
    requires !IsQuoted(text) && TrimEnd(text) == text
    ensures OneSide(text).Some? <==> OpensLikeASide(text)
    ensures OpensLikeASide(text) ==> OneSide(text) == Some(Utf8All(text[2..]))
  {
    if OpensLikeASide(text) {
      assert text == [text[0], '/'] + text[2..];
      OneSideOfRaw(text[0], text[2..]);
    } else {
      NoSideOfRaw(text, text);
    }
  }

  /** The tail of the second name, its closing quote with it, is taken for a side only raw. */
  lemma QuotedTail(name: seq<Piece>, tail: string)
    requires AllPrintable(name) && HoldsAnd(ShowAll(name)) && tail == AfterAnd(ShowAll(name))
    ensures OneSide(tail + ['"']).Some? <==> OpensLikeASide(tail)
    ensures OneSide(tail + ['"']) != Some(MeantAll(name))
  {
    var text := tail + ['"'];
    TailOpensNoQuotes(name, tail);
    QuotedIsTrimmed(text);
    RawSideIff(text);
    if OpensLikeASide(tail) {
      assert text[2..] == tail[2..] + ['"'] && tail == tail[..2] + tail[2..];
      RawTailIsNotTheName(name, tail[2..], tail[..2], ['"']);
    }
  }

  lemma TailOpensNoQuotes(name: seq<Piece>, tail: string)
    requires AllPrintable(name) && HoldsAnd(ShowAll(name)) && tail == AfterAnd(ShowAll(name))
    ensures tail != "" ==> tail[0] != '"'
  {
    var shown := ShowAll(name);
    var j := LastAt(shown, " and ", |shown|).value;
    AndIsSpelt(shown, j);
    if tail != "" && tail[0] == '"' {
      QuotesAreEscaped(name, j + 5);
    }
  }

  function RestOfLine(name: seq<Piece>, front: string): string {
    Quoted(SidePieces('a', name)) + " and " + ['"', 'b', '/'] + front
  }

  lemma RestInside(name: seq<Piece>, front: string)
    requires front != ""
    ensures var text, more := RestOfLine(name, front), ['"'] + " and " + ['"', 'b', '/'] + front[..|front| - 1];
            text[1..|text| - 1] == ShowAll(SidePieces('a', name)) + more
  {
  }

  /** What stands before the last ` and ` is a side only if a quote closes it, and then never this name. */
  lemma QuotedRest(name: seq<Piece>, front: string)
    requires AllPrintable(name)
    ensures OneSide(RestOfLine(name, front)).Some? <==> ClosesLikeAQuote(front)
    ensures OneSide(RestOfLine(name, front)) != Some(MeantAll(name))
  {
    var kept := TrimEnd(front);
    TrimmedRest(name, front);
    if ClosesLikeAQuote(front) {
      QuotedRestReads(name, kept);
    } else {
      RestOpensInQuotes(name, kept);
    }
  }

  lemma TrimmedRest(name: seq<Piece>, front: string)
    ensures TrimEnd(RestOfLine(name, front)) == RestOfLine(name, TrimEnd(front))
  {
    var before := Quoted(SidePieces('a', name)) + " and " + ['"', 'b', '/'];
    assert before[|before| - 1] == '/';
    TrimmedName(before, front, "");
    assert before + front + "" == RestOfLine(name, front);
  }

  lemma RestOpensInQuotes(name: seq<Piece>, kept: string)
    requires kept == "" || kept[|kept| - 1] != '"'
    ensures WithoutSide(Unquoted(RestOfLine(name, kept))) == None
  {
    var text := RestOfLine(name, kept);
    assert text[|text| - 1] == if kept == "" then '/' else kept[|kept| - 1];
    assert text == ['"'] + text[1..];
    Utf8AllOfAscii('"', text[1..]);
  }

  lemma MoreIsRead(name: seq<Byte>, more: string)
    requires more != "" && more[0] == '"'
    ensures [97, 47] + name + Unescape(more) == [97, 47] + (name + Unescape(more))
    ensures name + Unescape(more) != name
  {
    assert Unescape(more) == [34] + Unescape(more[1..]);
    Regroup([97, 47], name, Unescape(more));
  }

  lemma SideOfBytes(path: seq<Byte>)
    ensures WithoutSide([97, 47] + path) == Some(path)
  {
  }

  lemma RestUnquoted(name: seq<Piece>, kept: string, more: string)
    requires kept != "" && kept[|kept| - 1] == '"'
    requires more == ['"'] + " and " + ['"', 'b', '/'] + kept[..|kept| - 1]
    ensures Unquoted(RestOfLine(name, kept)) == Unescape(ShowAll(SidePieces('a', name)) + more)
  {
    var text := RestOfLine(name, kept);
    RestInside(name, kept);
    assert text[0] == '"' && text[|text| - 1] == '"';
  }

  lemma QuotedRestReads(name: seq<Piece>, kept: string)
    requires AllPrintable(name) && kept != "" && kept[|kept| - 1] == '"'
    ensures var path := WithoutSide(Unquoted(RestOfLine(name, kept)));
            path.Some? && path != Some(MeantAll(name))
  {
    var more := ['"'] + " and " + ['"', 'b', '/'] + kept[..|kept| - 1];
    RestUnquoted(name, kept, more);
    SideMeant('a', name);
    PiecesReadBefore(SidePieces('a', name), more);
    MoreIsRead(MeantAll(name), more);
    SideOfBytes(MeantAll(name) + Unescape(more));
  }

  lemma SecondInQuotes(name: seq<Piece>, shown: string)
    requires shown == ShowAll(name)
    ensures Quoted(SidePieces('b', name)) == ['"', 'b', '/'] + shown + ['"']
  {
    ShowSide('b', name);
    assert ['"'] + (['b', '/'] + shown) == ['"', 'b', '/'] + shown;
  }

  lemma QuotedAsSides(name: seq<Piece>, left: string, shown: string)
    requires left == Quoted(SidePieces('a', name)) && shown == ShowAll(name)
    ensures QuotedBinary(name) == TwoSides(left, ['"', 'b', '/'], shown, ['"'])
  {
    SecondInQuotes(name, shown);
    Regroup(left + " and ", ['"', 'b', '/'], shown);
    Regroup(left + " and ", ['"', 'b', '/'] + shown, ['"']);
  }

  lemma QuotedSplitInside(name: seq<Piece>, after: string, before: string)
    requires AllPrintable(name) && HoldsAnd(ShowAll(name))
    requires after == AfterAnd(ShowAll(name)) + ['"'] && before == RestOfLine(name, BeforeAnd(ShowAll(name)))
    ensures OneSide(after) != Some(MeantAll(name)) && OneSide(before) != Some(MeantAll(name))
    ensures OneSide(after).Some? <==> OpensLikeASide(AfterAnd(ShowAll(name)))
    ensures OneSide(before).Some? <==> ClosesLikeAQuote(BeforeAnd(ShowAll(name)))
  {
    QuotedTail(name, AfterAnd(ShowAll(name)));
    QuotedRest(name, BeforeAnd(ShowAll(name)));
  }

  lemma QuotedSplitBetween(name: seq<Piece>, after: string)
    requires AllPrintable(name) && after == ['"', 'b', '/'] + ShowAll(name) + ['"']
    ensures OneSide(after) == Some(MeantAll(name))
  {
    SecondInQuotes(name, ShowAll(name));
    QuotedSideReads('b', name);
  }

  /** What the line gives: the name, something else taken for one, or nothing. */
  lemma QuotedBinarySplits(name: seq<Piece>, shown: string) returns (given: Option<seq<Byte>>)
    requires AllPrintable(name) && shown == ShowAll(name)
    ensures given == BinaryName(QuotedBinary(name))
    ensures !HoldsAnd(shown) ==> given == Some(MeantAll(name))
    ensures HoldsAnd(shown) ==>
              && given != Some(MeantAll(name))
              && (given.Some? <==> OpensLikeASide(AfterAnd(shown)) || ClosesLikeAQuote(BeforeAnd(shown)))
  {
    var left := Quoted(SidePieces('a', name));
    QuotedAsSides(name, left, shown);
    var after, before := BinaryNameSplits(left, ['"', 'b', '/'], shown, ['"']);
    given := OneSide(after).Or(OneSide(before));
    if HoldsAnd(shown) {
      QuotedSplitInside(name, after, before);
    } else {
      QuotedSplitBetween(name, after);
    }
  }

  /**
   The chunk of a changed binary file gives a quoted name exactly when what is
   printed of it holds no ` and `, or else neither part of the line split at the last
   one is taken for a side and the header, which names the file then, can be read.
   */
  lemma QuotedBinaryReadsIff(lines: seq<string>, name: seq<Piece>)
    requires AllPrintable(name) && Above(lines + [BinaryLine(QuotedBinary(name))], "")
    requires lines != [] && lines[0] == QuotedHeader(name, name)
    requires forall i :: 0 <= i < |lines| ==> Silent(lines[i])
    ensures var shown := ShowAll(name);
            PathIn(Join(lines + [BinaryLine(QuotedBinary(name))])) == MeantAll(name) <==>
            || !HoldsAnd(shown)
            || (!OpensLikeASide(AfterAnd(shown)) && !ClosesLikeAQuote(BeforeAnd(shown)) && !EndsInGap(name))
  {
    var given := QuotedBinarySplits(name, ShowAll(name));
    var header := if EndsInGap(name) then None else Some(MeantAll(name));
    QuotedHeaderReadsIff(name, name);
    BinaryChunk(lines, QuotedBinary(name), given, header);
    if EndsInGap(name) {
      GapIsNotUnknown(name);
    }
  }
}
