/** A patch as its readers get it, with the whitespace at its end cut off. */
module PatchTrimmed {
  import opened Common
  import opened Text
  import opened Decimals
  import opened Patch
  import opened PatchRebuild

  // ---- the text cut ------------------------------------------------------------

  predicate Blank(text: string) {
    forall c :: c in text ==> IsWhitespace(c)
  }

  function Before(lines: seq<string>): string {
    if lines == [] then "" else lines[0] + "\n" + Before(lines[1..])
  }

  function After(lines: seq<string>): string {
    if lines == [] then "" else "\n" + lines[0] + After(lines[1..])
  }

  lemma Sequel(line: string, next: string, after: string)
    ensures line + "\n" + (next + after) == line + ("\n" + next + after)
  {
  }

  lemma {:induction false} JoinedAfter(line: string, lines: seq<string>)
    ensures Join([line] + lines) == line + After(lines)
    decreases |lines|
  {
    var all := [line] + lines;
    if lines == [] {
      assert all == [line];
    } else {
      assert all[1..] == lines && lines == [lines[0]] + lines[1..];
      JoinedAfter(lines[0], lines[1..]);
      Sequel(line, lines[0], After(lines[1..]));
    }
  }

  lemma {:induction false} JoinedAround(front: seq<string>, line: string, back: seq<string>)
    ensures Join(front + ([line] + back)) == Before(front) + (line + After(back))
    decreases |front|
  {
    var all := front + ([line] + back);
    if front == [] {
      JoinedAfter(line, back);
      assert all == [line] + back;
    } else {
      assert all[1..] == front[1..] + ([line] + back);
      JoinedAround(front[1..], line, back);
    }
  }

  lemma {:induction false} AfterIsBlank(lines: seq<string>)
    requires forall i :: 0 <= i < |lines| ==> Blank(lines[i])
    ensures Blank(After(lines))
    decreases |lines|
  {
    if lines != [] {
      AfterIsBlank(lines[1..]);
    }
  }

  lemma EndsLike(before: string, kept: string)
    requires kept != "" && !EndsInWhitespace(kept)
    ensures !EndsInWhitespace(before + kept)
  {
  }

  lemma FourInTwo(a: string, b: string, c: string, d: string)
    ensures a + ((b + c) + d) == (a + b) + (c + d)
  {
  }

  lemma CutOff(before: string, line: string, after: string)
    requires !Blank(line) && Blank(after)
    ensures TrimEnd(before + (line + after)) == before + TrimEnd(line)
  {
    var kept := TrimEnd(line);
    TrimEndIsPrefix(line);
    var cut := line[|kept|..];
    assert line == kept + cut && forall c :: c in cut ==> IsWhitespace(c);
    assert kept == "" ==> cut == line;
    EndsLike(before, kept);
    TrimEndOf(before + kept, cut + after);
    FourInTwo(before, kept, cut, after);
  }

  /** Blank lines at the end go, and the last line that is not blank is cut. */
  lemma JoinedIsCut(front: seq<string>, line: string, back: seq<string>)
    requires !Blank(line) && forall i :: 0 <= i < |back| ==> Blank(back[i])
    ensures TrimEnd(Join(front + ([line] + back))) == Join(front + [TrimEnd(line)])
  {
    JoinedAround(front, line, back);
    AfterIsBlank(back);
    CutOff(Before(front), line, After(back));
    JoinedAround(front, TrimEnd(line), []);
    assert [TrimEnd(line)] + [] == [TrimEnd(line)];
    assert TrimEnd(line) + "" == TrimEnd(line);
  }

  // ---- the line cut ------------------------------------------------------------

  /** Whether a line of a hunk is printed as whitespace alone. */
  predicate Bare(line: BodyLine) {
    line.Kept? && Blank(line.text)
  }

  /** A hunk's lines down to the last that is not bare. */
  function Shown(body: seq<BodyLine>): (shown: seq<BodyLine>)
    ensures shown <= body
    ensures forall i :: |shown| <= i < |body| ==> Bare(body[i])
    ensures shown != [] ==> !Bare(shown[|shown| - 1])
  {
    if body != [] && Bare(body[|body| - 1]) then Shown(body[..|body| - 1]) else body
  }

  /** Every hunk git prints does. */
  predicate Changes(body: seq<BodyLine>) {
    exists i :: 0 <= i < |body| && !body[i].Kept?
  }

  lemma ChangesIsShown(body: seq<BodyLine>)
    requires Changes(body)
    ensures Shown(body) != []
  {
  }

  /** The line as the readers take it, cut: only of a removed line do they keep the text. */
  function Cut(line: BodyLine): BodyLine {
    if line.Removed? then Removed(TrimEnd(line.text)) else line
  }

  predicate LosesWhitespace(line: BodyLine) {
    line.Removed? && EndsInWhitespace(line.text)
  }

  lemma CutIff(line: BodyLine)
    ensures Cut(line) == line <==> !LosesWhitespace(line)
  {
    if line.Removed? {
      TrimEndIsPrefix(line.text);
    }
  }

  lemma EndsAfter(mark: char, kept: string)
    requires kept == "" ==> !IsWhitespace(mark)
    requires !EndsInWhitespace(kept)
    ensures !EndsInWhitespace([mark] + kept)
  {
  }

  lemma TrimmedAfter(mark: char, text: string)
    requires !IsWhitespace(mark) || !Blank(text)
    ensures TrimEnd([mark] + text) == [mark] + TrimEnd(text)
  {
    var kept := TrimEnd(text);
    TrimEndIsPrefix(text);
    var cut := text[|kept|..];
    assert forall c :: c in cut ==> IsWhitespace(c);
    assert kept == "" ==> cut == text;
    EndsAfter(mark, kept);
    var front := [mark] + kept;
    TrimEndOf(front, cut);
    assert [mark] + text == front + cut;
  }

  lemma CutMark(line: BodyLine)
    requires !Bare(line)
    ensures MarkOf(TrimEnd(Printed(line))) == BodyMark(Cut(line))
  {
    match line
    case Kept(text) =>
      TrimmedAfter(' ', text);
      PrintedMark(Kept(TrimEnd(text)));
    case Removed(text) =>
      TrimmedAfter('-', text);
      PrintedMark(Removed(TrimEnd(text)));
    case Added(text) =>
      TrimmedAfter('+', text);
      PrintedMark(Added(TrimEnd(text)));
    case NoNewline =>
      var note := Printed(NoNewline);
      assert note[|note| - 1] == 'e';
      PrintedMark(NoNewline);
  }

  // ---- the patch cut -----------------------------------------------------------

  /** A hunk with the last line it shows cut. */
  function CutBody(body: seq<BodyLine>): seq<BodyLine>
    requires Shown(body) != []
  {
    var at := |Shown(body)| - 1;
    body[..at] + ([Cut(body[at])] + body[at + 1..])
  }

  function LastPiece(pieces: seq<Piece>): Piece
    requires pieces != []
  {
    pieces[|pieces| - 1]
  }

  function CutPieces(pieces: seq<Piece>): seq<Piece>
    requires pieces != [] && Shown(LastPiece(pieces).body) != []
  {
    pieces[..|pieces| - 1] + [LastPiece(pieces).(body := CutBody(LastPiece(pieces).body))]
  }

  lemma {:induction false} PrintedInTwo(a: seq<BodyLine>, b: seq<BodyLine>)
    ensures PrintedBody(a + b) == PrintedBody(a) + PrintedBody(b)
    decreases |a|
  {
    if a == [] {
      assert a + b == b;
    } else {
      assert (a + b)[0] == a[0] && (a + b)[1..] == a[1..] + b;
      PrintedInTwo(a[1..], b);
      Regroup([Printed(a[0])], PrintedBody(a[1..]), PrintedBody(b));
    }
  }

  lemma {:induction false} NewInTwo(a: seq<BodyLine>, b: seq<BodyLine>)
    ensures NewLines(a + b) == NewLines(a) + NewLines(b)
    decreases |a|
  {
    if a == [] {
      assert a + b == b;
    } else {
      var here := if a[0].Kept? || a[0].Added? then [a[0].text] else [];
      assert (a + b)[0] == a[0] && (a + b)[1..] == a[1..] + b;
      NewInTwo(a[1..], b);
      Regroup(here, NewLines(a[1..]), NewLines(b));
    }
  }

  lemma {:induction false} OldInTwo(a: seq<BodyLine>, b: seq<BodyLine>)
    ensures OldLines(a + b) == OldLines(a) + OldLines(b)
    decreases |a|
  {
    if a == [] {
      assert a + b == b;
    } else {
      var here := if a[0].Kept? || a[0].Removed? then [a[0].text] else [];
      assert (a + b)[0] == a[0] && (a + b)[1..] == a[1..] + b;
      OldInTwo(a[1..], b);
      Regroup(here, OldLines(a[1..]), OldLines(b));
    }
  }

  lemma {:induction false} PatchInTwo(pieces: seq<Piece>, last: Piece)
    ensures PatchLines(pieces + [last]) == PatchLines(pieces) + ([last.header] + PrintedBody(last.body))
    decreases |pieces|
  {
    var all := pieces + [last];
    if pieces == [] {
      assert all == [last] && all[1..] == [];
      assert PrintedBody(last.body) + [] == PrintedBody(last.body);
    } else {
      assert all[1..] == pieces[1..] + [last];
      PatchInTwo(pieces[1..], last);
    }
  }

  lemma {:induction false} BareLines(body: seq<BodyLine>)
    requires forall i :: 0 <= i < |body| ==> Bare(body[i])
    ensures forall i :: 0 <= i < |PrintedBody(body)| ==> Blank(PrintedBody(body)[i])
    decreases |body|
  {
    if body != [] {
      BareLines(body[1..]);
    }
  }

  /** The lines above the one that is cut. */
  function LinesAbove(preamble: seq<string>, pieces: seq<Piece>, header: string, front: seq<BodyLine>): seq<string> {
    preamble + (PatchLines(pieces) + ([header] + PrintedBody(front)))
  }

  lemma PatchAround(preamble: seq<string>, pieces: seq<Piece>, last: Piece, newline: bool, front: seq<BodyLine>,
                    line: BodyLine, back: seq<BodyLine>)
    requires last.body == front + ([line] + back)
    ensures preamble + (PatchLines(pieces + [last]) + Ending(newline))
         == LinesAbove(preamble, pieces, last.header, front) + ([Printed(line)] + (PrintedBody(back) + Ending(newline)))
  {
    PatchInTwo(pieces, last);
    PrintedInTwo(front, [line] + back);
    PrintedInTwo([line], back);
    assert PrintedBody([line]) == [Printed(line)] by { assert [line][1..] == []; }
    var all, above, after := PatchLines(pieces), PrintedBody(front), PrintedBody(back);
    Regrouped(preamble, all, [last.header], above, [Printed(line)], after, Ending(newline));
  }

  lemma Regrouped(a: seq<string>, b: seq<string>, c: seq<string>, d: seq<string>, e: seq<string>, f: seq<string>,
                  g: seq<string>)
    ensures a + (b + (c + (d + (e + f))) + g) == a + (b + (c + d)) + (e + (f + g))
  {
  }

  // ---- the readers over what is cut ----------------------------------------------

  lemma BlankMark(line: string)
    requires Blank(line)
    ensures MarkOf(line) == Other
  {
    assert line != "" ==> line[0] in line;
  }

  lemma {:induction false} BlankMarks(lines: seq<string>)
    requires forall i :: 0 <= i < |lines| ==> Blank(lines[i])
    ensures forall i :: 0 <= i < |Marks(lines)| ==> Marks(lines)[i] == Other
    decreases |lines|
  {
    if lines != [] {
      BlankMark(lines[0]);
      BlankMarks(lines[1..]);
    }
  }

  /** Lines passed at the end say nothing. */
  lemma {:induction false} OthersAgree(w: Walk, marks: seq<Mark>)
    requires forall i :: 0 <= i < |marks| ==> marks[i] == Other
    ensures Agree(w, Walked(w, marks))
    decreases |marks|
  {
    if marks != [] {
      OthersAgree(Next(w, Other), marks[1..]);
    }
  }

  lemma MarksInThree(above: seq<string>, line: string, back: seq<string>)
    ensures Marks(above + ([line] + back)) == Marks(above) + [MarkOf(line)] + Marks(back)
  {
    MarksConcat(above, [line] + back);
    MarksCons(line, [], back);
    assert ([line] + back)[1..] == back;
  }

  lemma ReadOnBlank(marks: seq<Mark>, back: seq<string>)
    requires forall i :: 0 <= i < |back| ==> Blank(back[i])
    ensures Agree(Walked(START, marks), Walked(START, marks + Marks(back)))
  {
    WalkedConcat(START, marks, Marks(back));
    BlankMarks(back);
    OthersAgree(Walked(START, marks), Marks(back));
  }

  lemma CutAgrees(above: seq<string>, cut: string, line: string, back: seq<string>)
    requires MarkOf(cut) == MarkOf(line) && forall i :: 0 <= i < |back| ==> Blank(back[i])
    ensures Agree(Walked(START, Marks(above + [cut])), Walked(START, Marks(above + ([line] + back))))
  {
    MarksConcat(above, [cut]);
    assert [cut][1..] == [];
    assert Marks([cut]) == [MarkOf(line)];
    MarksInThree(above, line, back);
    ReadOnBlank(Marks(above) + [MarkOf(line)], back);
  }

  // ---- what stays ----------------------------------------------------------------

  /** Pieces that differ in removed lines only. */
  predicate SameNews(a: seq<Piece>, b: seq<Piece>) {
    && |a| == |b|
    && forall i :: 0 <= i < |a| ==>
         a[i].gap == b[i].gap && a[i].header == b[i].header && NewLines(a[i].body) == NewLines(b[i].body)
  }

  lemma {:induction false} SameNewFile(a: seq<Piece>, b: seq<Piece>, at: nat, tail: seq<string>)
    requires SameNews(a, b) && at >= 1
    ensures HeaderLines(a) == HeaderLines(b) && StartMarks(a, at) == StartMarks(b, at)
    ensures NewFile(a, tail) == NewFile(b, tail)
    decreases |a|
  {
    if a != [] {
      forall i | 0 <= i < |a| - 1
        ensures a[1..][i].gap == b[1..][i].gap && a[1..][i].header == b[1..][i].header
             && NewLines(a[1..][i].body) == NewLines(b[1..][i].body)
      {
        assert a[1..][i] == a[i + 1] && b[1..][i] == b[i + 1];
      }
      SameNewFile(a[1..], b[1..], at + |a[0].gap| + |NewLines(a[0].body)|, tail);
    }
  }

  lemma CutBodyNews(body: seq<BodyLine>)
    requires Shown(body) != []
    ensures NewLines(CutBody(body)) == NewLines(body)
  {
    var at := |Shown(body)| - 1;
    var front, line, back := body[..at], body[at], body[at + 1..];
    assert body == front + ([line] + back);
    NewInTwo(front, [line] + back);
    NewInTwo([line], back);
    NewInTwo(front, [Cut(line)] + back);
    NewInTwo([Cut(line)], back);
    assert [line][1..] == [] && [Cut(line)][1..] == [];
    assert NewLines([line]) == NewLines([Cut(line)]);
  }

  lemma CutPiecesNews(pieces: seq<Piece>)
    requires pieces != [] && Shown(LastPiece(pieces).body) != []
    ensures SameNews(CutPieces(pieces), pieces)
  {
    CutBodyNews(LastPiece(pieces).body);
  }

  // ---- what is lost ----------------------------------------------------------------

  lemma {:induction false} ShiftedHoldsTheSame(pieces: seq<Piece>, tail: seq<string>)
    ensures multiset(OldFile(Shifted(pieces), tail)) == multiset(OldFile(pieces, tail))
    decreases |pieces|
  {
    if pieces != [] {
      var piece, rest := pieces[0], pieces[1..];
      ShiftedHoldsTheSame(rest, tail);
      assert Shifted(pieces)[1..] == Shifted(rest);
      ShiftHoldsTheSame(piece, OldFile(Shifted(rest), tail), OldFile(rest, tail));
    }
  }

  lemma ShiftHoldsTheSame(piece: Piece, there: seq<string>, here: seq<string>)
    requires multiset(there) == multiset(here)
    ensures multiset(Shift(piece).gap + (OldLines(Shift(piece).body) + there))
         == multiset(piece.gap + (OldLines(piece.body) + here))
  {
    if Hides(piece) && piece.gap != [] {
      var gap, last := piece.gap[..|piece.gap| - 1], LastOf(piece.gap);
      BodyThenKept(piece.body, last);
      assert piece.gap == gap + [last];
    }
  }

  /** The readers add no line to what the pieces hold. */
  lemma TakenHoldsNoMore(pieces: seq<Piece>, tail: seq<string>)
    ensures multiset(OldFile(Taken(pieces), tail)) <= multiset(OldFile(pieces, tail))
  {
    if pieces != [] && Hides(pieces[0]) && pieces[0].gap == [] {
      ShiftedHoldsTheSame(pieces[1..], tail);
      assert OldFile(pieces, tail) == OldLines(pieces[0].body) + OldFile(pieces[1..], tail);
    } else {
      ShiftedHoldsTheSame(pieces, tail);
    }
  }

  lemma {:induction false} OldPiecesInTwo(pieces: seq<Piece>, last: Piece, tail: seq<string>)
    ensures OldFile(pieces + [last], tail) == OldFile(pieces, last.gap + (OldLines(last.body) + tail))
    decreases |pieces|
  {
    var all := pieces + [last];
    if pieces == [] {
      assert all == [last] && all[1..] == [];
    } else {
      assert all[1..] == pieces[1..] + [last];
      OldPiecesInTwo(pieces[1..], last, tail);
    }
  }

  lemma {:induction false} OldThenTail(pieces: seq<Piece>, tail: seq<string>)
    ensures OldFile(pieces, tail) == OldFile(pieces, []) + tail
    decreases |pieces|
  {
    if pieces != [] {
      OldThenTail(pieces[1..], tail);
    } else {
      assert [] + tail == tail;
    }
  }

  /** The old file around a removed line of the last hunk. */
  lemma OldAround(pieces: seq<Piece>, last: Piece, tail: seq<string>, front: seq<BodyLine>, text: string,
                  back: seq<BodyLine>)
    requires last.body == front + ([Removed(text)] + back)
    ensures OldFile(pieces + [last], tail)
         == OldFile(pieces, []) + (last.gap + OldLines(front)) + ([text] + (OldLines(back) + tail))
  {
    OldPiecesInTwo(pieces, last, tail);
    OldThenTail(pieces, last.gap + (OldLines(last.body) + tail));
    OldInTwo(front, [Removed(text)] + back);
    OldInTwo([Removed(text)], back);
    assert OldLines([Removed(text)]) == [text] by { assert [Removed(text)][1..] == []; }
    AroundOne(OldFile(pieces, []), last.gap, OldLines(front), text, OldLines(back), tail);
  }

  lemma AroundOne(a: seq<string>, b: seq<string>, c: seq<string>, text: string, d: seq<string>, e: seq<string>)
    ensures a + (b + (c + ([text] + d) + e)) == a + (b + c) + ([text] + (d + e))
  {
  }

  // ---- the patch as its readers get it ------------------------------------------------

  function PatchOf(preamble: seq<string>, pieces: seq<Piece>, newline: bool): seq<string> {
    preamble + (PatchLines(pieces) + Ending(newline))
  }

  /** The last line of a patch that is not bare. */
  function LastShown(pieces: seq<Piece>): BodyLine
    requires pieces != [] && Shown(LastPiece(pieces).body) != []
  {
    var shown := Shown(LastPiece(pieces).body);
    shown[|shown| - 1]
  }

  lemma BodyAround(body: seq<BodyLine>, at: nat)
    requires at < |body|
    ensures body[..at] + ([body[at]] + body[at + 1..]) == body
  {
  }

  lemma PiecesAround(pieces: seq<Piece>)
    requires pieces != []
    ensures pieces[..|pieces| - 1] + [LastPiece(pieces)] == pieces
  {
  }

  /** A patch around the line at which it is cut, and the same patch with that line cut. */
  lemma AroundTheCut(preamble: seq<string>, pieces: seq<Piece>, newline: bool)
    returns (above: seq<string>, back: seq<string>)
    requires pieces != [] && Shown(LastPiece(pieces).body) != []
    ensures PatchOf(preamble, pieces, newline) == above + ([Printed(LastShown(pieces))] + back)
    ensures PatchOf(preamble, CutPieces(pieces), newline) == above + ([Printed(Cut(LastShown(pieces)))] + back)
    ensures forall i :: 0 <= i < |back| ==> Blank(back[i])
  {
    var before, last, line := pieces[..|pieces| - 1], LastPiece(pieces), LastShown(pieces);
    var at := |Shown(last.body)| - 1;
    var front, after := last.body[..at], last.body[at + 1..];
    BodyAround(last.body, at);
    PiecesAround(pieces);
    above, back := AroundOneLine(preamble, before, last, newline, front, line, after);
    PatchAround(preamble, before, last.(body := CutBody(last.body)), newline, front, Cut(line), after);
  }

  lemma AroundOneLine(preamble: seq<string>, pieces: seq<Piece>, last: Piece, newline: bool, front: seq<BodyLine>,
                      line: BodyLine, after: seq<BodyLine>)
    returns (above: seq<string>, back: seq<string>)
    requires last.body == front + ([line] + after) && forall i :: 0 <= i < |after| ==> Bare(after[i])
    ensures above == LinesAbove(preamble, pieces, last.header, front) && back == PrintedBody(after) + Ending(newline)
    ensures PatchOf(preamble, pieces + [last], newline) == above + ([Printed(line)] + back)
    ensures forall i :: 0 <= i < |back| ==> Blank(back[i])
  {
    above, back := LinesAbove(preamble, pieces, last.header, front), PrintedBody(after) + Ending(newline);
    PatchAround(preamble, pieces, last, newline, front, line, after);
    BareLines(after);
  }

  lemma NotBlank(line: BodyLine)
    requires !Bare(line)
    ensures !Blank(Printed(line))
  {
    var text := Printed(line);
    assert text[0] in text;
    if line.Kept? {
      var c :| c in line.text && !IsWhitespace(c);
      assert c in text;
    }
  }

  lemma CutReads(above: seq<string>, line: BodyLine, back: seq<string>)
    requires !Bare(line) && forall i :: 0 <= i < |back| ==> Blank(back[i])
    requires forall i :: 0 <= i < |above| ==> '\n' !in above[i]
    requires '\n' !in Printed(line)
    ensures Agree(Read(TrimEnd(Join(above + ([Printed(line)] + back)))),
                  Walked(START, Marks(above + ([Printed(Cut(line))] + back))))
  {
    var cut := TrimEnd(Printed(line));
    NotBlank(line);
    JoinedIsCut(above, Printed(line), back);
    TrimEndIsPrefix(Printed(line));
    assert forall c :: c in cut ==> c in Printed(line);
    SplitJoin(above + [cut]);
    CutMark(line);
    PrintedMark(Cut(line));
    CutAgrees(above, cut, Printed(Cut(line)), back);
  }

  /** The text its readers get says what the patch with that line cut does. */
  lemma CutTextAgrees(preamble: seq<string>, pieces: seq<Piece>, newline: bool)
    requires pieces != [] && Shown(LastPiece(pieces).body) != []
    requires var lines := PatchOf(preamble, pieces, newline);
             lines != [] && forall i :: 0 <= i < |lines| ==> '\n' !in lines[i]
    ensures Agree(Read(TrimEnd(Join(PatchOf(preamble, pieces, newline)))),
                  Walked(START, Marks(PatchOf(preamble, CutPieces(pieces), newline))))
  {
    var above, back := AroundTheCut(preamble, pieces, newline);
    var lines, line := PatchOf(preamble, pieces, newline), LastShown(pieces);
    assert lines[|above|] == Printed(line);
    assert forall i :: 0 <= i < |above| ==> lines[i] == above[i];
    CutReads(above, line, back);
  }

  /** Cutting a text of trailing whitespace leaves a different old file, in any order. */
  lemma CutHoldsOther(pieces: seq<Piece>, tail: seq<string>)
    requires pieces != [] && Shown(LastPiece(pieces).body) != [] && LosesWhitespace(LastShown(pieces))
    ensures var text := LastShown(pieces).text;
            multiset(OldFile(CutPieces(pieces), tail))[text] < multiset(OldFile(pieces, tail))[text]
  {
    var before, last := pieces[..|pieces| - 1], LastPiece(pieces);
    var at := |Shown(last.body)| - 1;
    var front, line, after := last.body[..at], last.body[at], last.body[at + 1..];
    assert last.body == front + ([line] + after);
    assert pieces == before + [last];
    OldAround(before, last, tail, front, line.text, after);
    OldAround(before, last.(body := CutBody(last.body)), tail, front, TrimEnd(line.text), after);
    TrimEndIsPrefix(line.text);
    OneOther(OldFile(before, []) + (last.gap + OldLines(front)), line.text, TrimEnd(line.text),
             OldLines(after) + tail);
  }

  lemma OneOther(a: seq<string>, text: string, other: string, b: seq<string>)
    requires text != other
    ensures multiset(a + ([other] + b))[text] < multiset(a + ([text] + b))[text]
  {
    assert multiset(a + ([other] + b)) == multiset(a) + multiset{other} + multiset(b);
    assert multiset(a + ([text] + b)) == multiset(a) + multiset{text} + multiset(b);
  }

  /** What the maps of the text cut rebuild. */
  lemma CutPatchRebuilds(preamble: seq<string>, pieces: seq<Piece>, tail: seq<string>, newline: bool)
    requires Preamble(preamble) && Headed(pieces) && Separated(pieces)
    requires pieces != [] && Shown(LastPiece(pieces).body) != []
    requires var lines := PatchOf(preamble, pieces, newline);
             lines != [] && forall i :: 0 <= i < |lines| ==> '\n' !in lines[i]
    ensures var w := Read(TrimEnd(Join(PatchOf(preamble, pieces, newline))));
            Rebuilt(NewFile(pieces, tail), w.added, Flushed(w).removed) == OldFile(Taken(CutPieces(pieces)), tail)
  {
    CutTextAgrees(preamble, pieces, newline);
    CutPiecesNews(pieces);
    SameNewFile(CutPieces(pieces), pieces, 1, tail);
    ZeroCountHunksMoveUp(preamble, CutPieces(pieces), tail, newline);
  }

  /**
   Of the text its readers get, whitespace at its end cut off, a valid patch of
   separated hunks rebuilds the old file exactly when it did whole and its last line
   that is not bare is not a removed one ending in whitespace.
   */
  lemma CutPatchRebuildsIff(preamble: seq<string>, pieces: seq<Piece>, tail: seq<string>, newline: bool)
    requires Preamble(preamble) && Headed(pieces) && Separated(pieces)
    requires pieces != [] && Changes(LastPiece(pieces).body)
    requires var lines := PatchOf(preamble, pieces, newline);
             forall i :: 0 <= i < |lines| ==> '\n' !in lines[i]
    ensures Shown(LastPiece(pieces).body) != []
    ensures var w := Read(TrimEnd(Join(PatchOf(preamble, pieces, newline))));
            Rebuilt(NewFile(pieces, tail), w.added, Flushed(w).removed) == OldFile(pieces, tail) <==>
            AllHarmless(pieces) && !LosesWhitespace(LastShown(pieces))
  {
    ChangesIsShown(LastPiece(pieces).body);
    CutPatchRebuilds(preamble, pieces, tail, newline);
    CutOldFileIff(pieces, tail);
  }

  lemma CutOldFileIff(pieces: seq<Piece>, tail: seq<string>)
    requires Separated(pieces) && pieces != [] && Shown(LastPiece(pieces).body) != []
    ensures OldFile(Taken(CutPieces(pieces)), tail) == OldFile(pieces, tail) <==>
            AllHarmless(pieces) && !LosesWhitespace(LastShown(pieces))
  {
    if LosesWhitespace(LastShown(pieces)) {
      CutHoldsOther(pieces, tail);
      TakenHoldsNoMore(CutPieces(pieces), tail);
    } else {
      CutIff(LastShown(pieces));
      NothingCut(pieces);
      TakenIff(pieces, tail);
    }
  }

  lemma NothingCut(pieces: seq<Piece>)
    requires pieces != [] && Shown(LastPiece(pieces).body) != [] && Cut(LastShown(pieces)) == LastShown(pieces)
    ensures CutPieces(pieces) == pieces
  {
    var body := LastPiece(pieces).body;
    assert CutBody(body) == body;
    assert pieces == pieces[..|pieces| - 1] + [LastPiece(pieces)];
  }

  /** `b` and a space removed at the end of a file, as git prints it. */
  function SpacedPiece(): Piece {
    Piece([], Header(1, Some(2), 1, None, ""), [Kept("a"), Removed("b ")])
  }

  lemma SpacedBody()
    ensures NewLines(SpacedPiece().body) == ["a"] && Shown(SpacedPiece().body) == SpacedPiece().body
  {
    var body := SpacedPiece().body;
    assert body[1..] == [Removed("b ")] && body[1..][1..] == [];
  }

  lemma SpacedIsHeaded()
    ensures Headed([SpacedPiece()])
  {
    var piece := SpacedPiece();
    HeaderReads(1, Some(2), 1, None, "");
    OnePiece(piece, []);
    MarksCons(piece.header, [], []);
    SpacedBody();
    assert Marks(HeaderLines([piece])) == [Hunk(1)];
  }

  lemma SpacedLines()
    ensures PatchLines([SpacedPiece()]) == [SpacedPiece().header, " a", "-b "]
  {
    var body := SpacedPiece().body;
    assert body[1..] == [Removed("b ")] && body[1..][1..] == [];
    assert Printed(body[0]) == " a" && Printed(body[1]) == "-b ";
    assert PrintedBody(body[1..][1..]) == [];
    assert PrintedBody(body[1..]) == ["-b "];
    PatchInTwo([], SpacedPiece());
    assert [] + [SpacedPiece()] == [SpacedPiece()];
  }

  lemma SpacedOnItsLine()
    ensures '\n' !in SpacedPiece().header
  {
    WrittenReads(1);
    WrittenReads(2);
    assert '\n' !in Written(1) && '\n' !in Written(2);
    assert '\n' !in Count(Some(2)) && '\n' !in Count(None);
  }

  /** Its maps rebuild another file. */
  lemma ATrailingSpaceIsLost()
    ensures var pieces := [SpacedPiece()];
            var w := Read(TrimEnd(Join(PatchLines(pieces))));
            Rebuilt(NewFile(pieces, []), w.added, Flushed(w).removed) != OldFile(pieces, [])
  {
    var pieces := [SpacedPiece()];
    SpacedIsHeaded();
    SpacedBody();
    SpacedLines();
    SpacedOnItsLine();
    SpacedIsCut(pieces, LastPiece(pieces).body);
  }

  lemma SpacedIsCut(pieces: seq<Piece>, body: seq<BodyLine>)
    requires pieces != [] && Headed(pieces) && Separated(pieces) && LastPiece(pieces).body == body
    requires body == [Kept("a"), Removed("b ")] && Shown(body) == body
    requires forall i :: 0 <= i < |PatchLines(pieces)| ==> '\n' !in PatchLines(pieces)[i]
    ensures var w := Read(TrimEnd(Join(PatchLines(pieces))));
            Rebuilt(NewFile(pieces, []), w.added, Flushed(w).removed) != OldFile(pieces, [])
  {
    assert PatchOf([], pieces, false) == PatchLines(pieces);
    assert !body[1].Kept?;
    assert LosesWhitespace(LastShown(pieces));
    CutPatchRebuildsIff([], pieces, [], false);
  }
}
