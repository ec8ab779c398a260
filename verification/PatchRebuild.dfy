/** The two maps and the new file determine the old file. */
module PatchRebuild {
  import opened Common
  import opened Text
  import opened Decimals
  import opened Patch

  // ---- what a valid patch is -------------------------------------------------

  datatype BodyLine = Kept(text: string) | Removed(text: string) | Added(text: string) | NoNewline

  /** A run of unchanged lines the patch does not show, and the hunk after it. */
  datatype Piece = Piece(gap: seq<string>, header: string, body: seq<BodyLine>)

  function Printed(line: BodyLine): string {
    match line
    case Kept(text) => " " + text
    case Removed(text) => "-" + text
    case Added(text) => "+" + text
    case NoNewline => "\\ No newline at end of file"
  }

  function PrintedBody(body: seq<BodyLine>): seq<string> {
    if body == [] then [] else [Printed(body[0])] + PrintedBody(body[1..])
  }

  function OldLines(body: seq<BodyLine>): seq<string> {
    if body == [] then []
    else (if body[0].Kept? || body[0].Removed? then [body[0].text] else []) + OldLines(body[1..])
  }

  function NewLines(body: seq<BodyLine>): seq<string> {
    if body == [] then []
    else (if body[0].Kept? || body[0].Added? then [body[0].text] else []) + NewLines(body[1..])
  }

  function OldFile(pieces: seq<Piece>, tail: seq<string>): seq<string> {
    if pieces == [] then tail
    else pieces[0].gap + (OldLines(pieces[0].body) + OldFile(pieces[1..], tail))
  }

  function NewFile(pieces: seq<Piece>, tail: seq<string>): seq<string> {
    if pieces == [] then tail
    else pieces[0].gap + (NewLines(pieces[0].body) + NewFile(pieces[1..], tail))
  }

  function PatchLines(pieces: seq<Piece>): seq<string> {
    if pieces == [] then []
    else [pieces[0].header] + (PrintedBody(pieces[0].body) + PatchLines(pieces[1..]))
  }

  /** The start a header gives: the hunk's first new line, or where it has none the line before it. */
  function HeaderStart(first: nat, body: seq<BodyLine>): nat
    requires first >= 1
  {
    if NewLines(body) == [] then first - 1 else first
  }

  function HeaderLines(pieces: seq<Piece>): seq<string> {
    if pieces == [] then [] else [pieces[0].header] + HeaderLines(pieces[1..])
  }

  /** The marks headers should leave, with the new file read up to line `at`. */
  function StartMarks(pieces: seq<Piece>, at: nat): seq<Mark>
    requires at >= 1
  {
    if pieces == [] then []
    else
      var first := at + |pieces[0].gap|;
      [Hunk(HeaderStart(first, pieces[0].body))] + StartMarks(pieces[1..], first + |NewLines(pieces[0].body)|)
  }

  /** Whether every header says where its hunk stands. */
  predicate Headed(pieces: seq<Piece>) {
    Marks(HeaderLines(pieces)) == StartMarks(pieces, 1)
  }

  /** Every hunk shows at least one line of the new file. */
  predicate Showing(pieces: seq<Piece>) {
    forall i :: 0 <= i < |pieces| ==> NewLines(pieces[i].body) != []
  }

  // ---- rebuilding --------------------------------------------------------------

  /** The old lines under the new lines `file`: before each kept line, what was removed there. */
  function Under(file: seq<string>, added: set<nat>, removed: map<nat, seq<string>>): seq<string> {
    if file == [] then []
    else
      Under(file[..|file| - 1], added, removed) + RemovedAt(removed, |file|)
      + if |file| in added then [] else [file[|file| - 1]]
  }

  /** The whole old file: also what was removed after the last new line. */
  function Rebuilt(file: seq<string>, added: set<nat>, removed: map<nat, seq<string>>): seq<string> {
    Under(file, added, removed) + RemovedAt(removed, |file| + 1)
  }

  lemma {:induction false} UnderFrame(file: seq<string>, a: set<nat>, r: map<nat, seq<string>>, a': set<nat>,
                                      r': map<nat, seq<string>>)
    requires forall k :: 1 <= k <= |file| ==> (k in a <==> k in a') && RemovedAt(r, k) == RemovedAt(r', k)
    ensures Under(file, a, r) == Under(file, a', r')
  {
    if file != [] {
      UnderFrame(file[..|file| - 1], a, r, a', r');
    }
  }

  /** With the new lines `shown` read, the readers have accounted for the old lines `before`. */
  ghost predicate Accounts(shown: seq<string>, w: Walk, before: seq<string>) {
    && w.at == |shown| + 1
    && (forall k :: k in w.added ==> k < w.at)
    && (forall k :: k in w.removed ==> k <= w.at)
    && Under(shown, w.added, w.removed) + (RemovedAt(w.removed, w.at) + w.pending) == before
  }

  lemma FlushedAccounts(shown: seq<string>, w: Walk, before: seq<string>)
    requires Accounts(shown, w, before)
    ensures Accounts(shown, Flushed(w), before)
  {
    var f := Flushed(w);
    UnderFrame(shown, w.added, w.removed, f.added, f.removed);
    var pending := RemovedAt(w.removed, w.at) + w.pending;
    assert pending + [] == pending;
  }

  function BodyMark(line: BodyLine): Mark {
    match line
    case Kept(_) => Other
    case Removed(text) => Minus(text)
    case Added(_) => Plus
    case NoNewline => Note
  }

  function BodyMarks(body: seq<BodyLine>): seq<Mark> {
    if body == [] then [] else [BodyMark(body[0])] + BodyMarks(body[1..])
  }

  lemma PrintedMark(line: BodyLine)
    ensures MarkOf(Printed(line)) == BodyMark(line)
  {
    var text := Printed(line);
    assert text[0] != OLD_SIDE[0];
    if line.Removed? {
      assert text[1..] == line.text;
    }
  }

  lemma {:induction false} PrintedMarks(body: seq<BodyLine>)
    ensures Marks(PrintedBody(body)) == BodyMarks(body)
  {
    if body != [] {
      PrintedMark(body[0]);
      PrintedMarks(body[1..]);
      assert PrintedBody(body)[1..] == PrintedBody(body[1..]);
    }
  }

  function PieceMarks(pieces: seq<Piece>, at: nat): seq<Mark>
    requires at >= 1
  {
    if pieces == [] then []
    else
      var first := at + |pieces[0].gap|;
      [Hunk(HeaderStart(first, pieces[0].body))]
      + (BodyMarks(pieces[0].body) + PieceMarks(pieces[1..], first + |NewLines(pieces[0].body)|))
  }

  /** Header marks with the marks of each body between them. */
  function Woven(headers: seq<Mark>, pieces: seq<Piece>): seq<Mark>
    requires |headers| == |pieces|
    decreases |pieces|
  {
    if pieces == [] then [] else [headers[0]] + (BodyMarks(pieces[0].body) + Woven(headers[1..], pieces[1..]))
  }

  lemma MarksCons(header: string, body: seq<string>, rest: seq<string>)
    ensures Marks([header] + (body + rest)) == [MarkOf(header)] + (Marks(body) + Marks(rest))
    ensures Marks([header] + rest) == [MarkOf(header)] + Marks(rest)
  {
    MarksConcat(body, rest);
    assert ([header] + (body + rest))[1..] == body + rest;
    assert ([header] + rest)[1..] == rest;
  }

  lemma {:induction false} PatchIsWoven(pieces: seq<Piece>)
    ensures |Marks(HeaderLines(pieces))| == |pieces|
    ensures Marks(PatchLines(pieces)) == Woven(Marks(HeaderLines(pieces)), pieces)
  {
    if pieces != [] {
      var piece, rest := pieces[0], pieces[1..];
      PatchIsWoven(rest);
      PrintedMarks(piece.body);
      MarksCons(piece.header, PrintedBody(piece.body), PatchLines(rest));
      MarksCons(piece.header, [], HeaderLines(rest));
      assert Marks(HeaderLines(pieces))[1..] == Marks(HeaderLines(rest));
    }
  }

  lemma {:induction false} WovenStarts(pieces: seq<Piece>, at: nat)
    requires at >= 1
    ensures |StartMarks(pieces, at)| == |pieces|
    ensures Woven(StartMarks(pieces, at), pieces) == PieceMarks(pieces, at)
    decreases |pieces|
  {
    if pieces != [] {
      var next := at + |pieces[0].gap| + |NewLines(pieces[0].body)|;
      WovenStarts(pieces[1..], next);
      assert StartMarks(pieces, at)[1..] == StartMarks(pieces[1..], next);
    }
  }

  lemma PatchMarks(pieces: seq<Piece>)
    requires Headed(pieces)
    ensures Marks(PatchLines(pieces)) == PieceMarks(pieces, 1)
  {
    PatchIsWoven(pieces);
    WovenStarts(pieces, 1);
  }

  /** Past a new line: kept, or added. */
  lemma NewLineAccounts(shown: seq<string>, w: Walk, before: seq<string>, text: string, isAdded: bool)
    requires Accounts(shown, w, before)
    ensures Accounts(shown + [text], Passed(w, isAdded), before + if isAdded then [] else [text])
  {
    FlushedAccounts(shown, w, before);
    var f, g := Flushed(w), Passed(w, isAdded);
    UnderFrame(shown, f.added, f.removed, g.added, g.removed);
    assert (shown + [text])[..|shown|] == shown;
    assert RemovedAt(f.removed, f.at) + [] == RemovedAt(f.removed, f.at);
    assert RemovedAt(g.removed, g.at) + g.pending == [];
    assert Under(shown + [text], g.added, g.removed) + [] == Under(shown + [text], g.added, g.removed);
  }

  lemma LineAccounts(shown: seq<string>, w: Walk, before: seq<string>, line: BodyLine)
    requires Accounts(shown, w, before)
    ensures
      Accounts(shown + (if line.Kept? || line.Added? then [line.text] else []), Next(w, BodyMark(line)),
               before + if line.Kept? || line.Removed? then [line.text] else [])
  {
    match line
    case Kept(text) => NewLineAccounts(shown, w, before, text, false);
    case Added(text) => NewLineAccounts(shown, w, before, text, true);
    case Removed(text) =>
      assert shown + [] == shown;
      var under := Under(shown, w.added, w.removed);
      assert under + (RemovedAt(w.removed, w.at) + (w.pending + [text])) == before + [text];
    case NoNewline =>
      assert shown + [] == shown && before + [] == before;
  }

  lemma {:induction false} BodyAccounts(shown: seq<string>, w: Walk, before: seq<string>, body: seq<BodyLine>)
    requires Accounts(shown, w, before)
    ensures Accounts(shown + NewLines(body), Walked(w, BodyMarks(body)), before + OldLines(body))
    decreases |body|
  {
    if body == [] {
      assert before + [] == before && shown + [] == shown;
    } else {
      var line, rest := body[0], body[1..];
      var here := if line.Kept? || line.Added? then [line.text] else [];
      var there := if line.Kept? || line.Removed? then [line.text] else [];
      LineAccounts(shown, w, before, line);
      BodyAccounts(shown + here, Next(w, BodyMark(line)), before + there, rest);
      assert BodyMarks(body)[1..] == BodyMarks(rest);
      Regroup(shown, here, NewLines(rest));
      Regroup(before, there, OldLines(rest));
    }
  }

  lemma Regroup(a: seq<string>, b: seq<string>, c: seq<string>)
    ensures a + b + c == a + (b + c)
  {
  }

  /** Over unchanged lines the patch does not show, nothing was added or removed. */
  lemma {:induction false} GapAccounts(shown: seq<string>, w: Walk, before: seq<string>, gap: seq<string>)
    requires Accounts(shown, w, before) && w.pending == []
    ensures Accounts(shown + gap, w.(at := w.at + |gap|), before + gap)
    decreases |gap|
  {
    if gap == [] {
      assert before + [] == before && shown + [] == shown;
    } else {
      NewLineAccounts(shown, w, before, gap[0], false);
      GapAccounts(shown + [gap[0]], Passed(w, false), before + [gap[0]], gap[1..]);
      assert gap == [gap[0]] + gap[1..];
      Regroup(shown, [gap[0]], gap[1..]);
      Regroup(before, [gap[0]], gap[1..]);
    }
  }

  /** One piece: the gap, the header's jump over it, and the body. */
  lemma PieceAccounts(shown: seq<string>, w: Walk, before: seq<string>, piece: Piece)
    requires Accounts(shown, w, before)
    ensures
      Accounts(shown + piece.gap + NewLines(piece.body),
               Walked(w, [Hunk(w.at + |piece.gap|)] + BodyMarks(piece.body)),
               before + piece.gap + OldLines(piece.body))
  {
    FlushedAccounts(shown, w, before);
    GapAccounts(shown, Flushed(w), before, piece.gap);
    var h := Next(w, Hunk(w.at + |piece.gap|));
    BodyAccounts(shown + piece.gap, h, before + piece.gap, piece.body);
    assert ([Hunk(w.at + |piece.gap|)] + BodyMarks(piece.body))[1..] == BodyMarks(piece.body);
  }

  lemma {:induction false} PiecesAccount(shown: seq<string>, w: Walk, before: seq<string>, pieces: seq<Piece>,
                                         tail: seq<string>)
    returns (new_: seq<string>, old_: seq<string>)
    requires Accounts(shown, w, before) && Showing(pieces)
    ensures Accounts(new_, Walked(w, PieceMarks(pieces, w.at)), old_)
    ensures new_ + tail == shown + NewFile(pieces, tail)
    ensures old_ + tail == before + OldFile(pieces, tail)
    decreases |pieces|
  {
    new_, old_ := shown, before;
    if pieces != [] {
      var piece, rest := pieces[0], pieces[1..];
      assert NewLines(pieces[0].body) != [];
      assert Showing(rest) by {
        forall i | 0 <= i < |rest| ensures NewLines(rest[i].body) != [] { assert rest[i] == pieces[i + 1]; }
      }
      var marks := [Hunk(w.at + |piece.gap|)] + BodyMarks(piece.body);
      var v := Walked(w, marks);
      PieceAccounts(shown, w, before, piece);
      new_, old_ := PiecesAccount(shown + piece.gap + NewLines(piece.body), v,
                                  before + piece.gap + OldLines(piece.body), rest, tail);
      PieceMarksSplit(pieces, w, v.at);
      Regroup(shown + piece.gap, NewLines(piece.body), NewFile(rest, tail));
      Regroup(shown, piece.gap, NewLines(piece.body) + NewFile(rest, tail));
      Regroup(before + piece.gap, OldLines(piece.body), OldFile(rest, tail));
      Regroup(before, piece.gap, OldLines(piece.body) + OldFile(rest, tail));
    }
  }

  lemma PieceMarksSplit(pieces: seq<Piece>, w: Walk, at: nat)
    requires pieces != [] && w.at >= 1 && NewLines(pieces[0].body) != []
    requires at == w.at + |pieces[0].gap| + |NewLines(pieces[0].body)|
    ensures
      var marks := [Hunk(w.at + |pieces[0].gap|)] + BodyMarks(pieces[0].body);
      Walked(w, PieceMarks(pieces, w.at)) == Walked(Walked(w, marks), PieceMarks(pieces[1..], at))
  {
    var hunk, body, rest := [Hunk(w.at + |pieces[0].gap|)], BodyMarks(pieces[0].body), PieceMarks(pieces[1..], at);
    assert PieceMarks(pieces, w.at) == hunk + (body + rest);
    SplitAfterTwo(w, hunk, body, rest);
  }

  lemma SplitAfterTwo(w: Walk, hunk: seq<Mark>, body: seq<Mark>, rest: seq<Mark>)
    ensures Walked(w, hunk + (body + rest)) == Walked(Walked(w, hunk + body), rest)
  {
    WalkedConcat(w, hunk + body, rest);
    assert hunk + (body + rest) == hunk + body + rest;
  }

  // ---- whole patches --------------------------------------------------------------

  /** The lines git prints above the first hunk. */
  predicate Preamble(lines: seq<string>) {
    forall i :: 0 <= i < |lines| ==> HunkStart(lines[i]) == None
  }

  lemma {:induction false} PreambleIsSkipped(lines: seq<string>)
    requires Preamble(lines)
    ensures Walked(START, Marks(lines)) == START
    decreases |lines|
  {
    if lines != [] {
      assert !MarkOf(lines[0]).Hunk? by { assert HunkStart(lines[0]) == None; }
      forall i | 0 <= i < |lines[1..]| ensures HunkStart(lines[1..][i]) == None {
        assert lines[1..][i] == lines[i + 1];
      }
      PreambleIsSkipped(lines[1..]);
      assert Marks(lines)[1..] == Marks(lines[1..]);
    }
  }

  /** The line a text that ends in a newline splits off at its end. */
  function Ending(newline: bool): seq<string> {
    if newline then [""] else []
  }

  lemma EndingMark(newline: bool)
    ensures Marks(Ending(newline)) == if newline then [Other] else []
  {
    if newline {
      assert [""][1..] == [];
    }
  }

  lemma EndingChangesNothing(w: Walk, newline: bool)
    ensures
      var v := Walked(w, if newline then [Other] else []);
      v.added == w.added && Flushed(v).removed == Flushed(w).removed
  {
    if newline {
      assert [Other][1..] == [];
      assert Walked(w, [Other]) == Next(w, Other);
    }
  }

  /** With the readers at the tail, the maps rebuild the file. */
  lemma TailRebuilds(shown: seq<string>, w: Walk, before: seq<string>, tail: seq<string>)
    requires Accounts(shown, w, before)
    ensures Rebuilt(shown + tail, w.added, Flushed(w).removed) == before + tail
  {
    FlushedAccounts(shown, w, before);
    var f := Flushed(w);
    GapAccounts(shown, f, before, tail);
    var removed := RemovedAt(f.removed, f.at + |tail|);
    assert removed + [] == removed;
  }

  /** A patch with hunks, read past its preamble and its last newline. */
  lemma PatchWalks(preamble: seq<string>, pieces: seq<Piece>, newline: bool)
    requires Preamble(preamble) && Headed(pieces)
    ensures
      var w := Walked(START, Marks(preamble + (PatchLines(pieces) + Ending(newline))));
      var v := Walked(START, PieceMarks(pieces, 1));
      w.added == v.added && Flushed(w).removed == Flushed(v).removed
  {
    var lines := PatchLines(pieces);
    PreambleIsSkipped(preamble);
    PatchMarks(pieces);
    EndingMark(newline);
    MarksConcat(preamble, lines + Ending(newline));
    MarksConcat(lines, Ending(newline));
    WalkedConcat(START, Marks(preamble), Marks(lines + Ending(newline)));
    WalkedConcat(START, Marks(lines), Marks(Ending(newline)));
    EndingChangesNothing(Walked(START, PieceMarks(pieces, 1)), newline);
  }

  /** The marks of a patch whose hunks each show a new line rebuild the old file. */
  lemma ShownRebuild(pieces: seq<Piece>, tail: seq<string>)
    requires Showing(pieces)
    ensures
      var w := Walked(START, PieceMarks(pieces, 1));
      Rebuilt(NewFile(pieces, tail), w.added, Flushed(w).removed) == OldFile(pieces, tail)
  {
    var first := START.(at := 1);
    assert Accounts([], first, []);
    var new_, old_ := PiecesAccount([], first, [], pieces, tail);
    var marks := PieceMarks(pieces, 1);
    TailRebuilds(new_, Walked(first, marks), old_, tail);
    assert [] + NewFile(pieces, tail) == NewFile(pieces, tail);
    assert [] + OldFile(pieces, tail) == OldFile(pieces, tail);
    FirstHeaderStarts(marks);
  }

  /**
   For any valid patch from an old file to a new one, over any number of hunks
   each of which shows a new line, the lines added and removed rebuild the old
   file from the new one exactly.
   */
  lemma {:induction false} MapsRebuildTheOldFile(preamble: seq<string>, pieces: seq<Piece>, tail: seq<string>,
                                                 newline: bool)
    requires Preamble(preamble) && Headed(pieces) && Showing(pieces)
    ensures
      var w := Walked(START, Marks(preamble + (PatchLines(pieces) + Ending(newline))));
      Rebuilt(NewFile(pieces, tail), w.added, Flushed(w).removed) == OldFile(pieces, tail)
  {
    PatchWalks(preamble, pieces, newline);
    ShownRebuild(pieces, tail);
  }

  /** A patch's first mark is a header, so it does not matter that no line was read before it. */
  lemma FirstHeaderStarts(marks: seq<Mark>)
    requires marks != [] ==> marks[0].Hunk?
    ensures
      var v, w := Walked(START, marks), Walked(START.(at := 1), marks);
      v.added == w.added && Flushed(v).removed == Flushed(w).removed
  {
  }

  /** The same of the patch as text. */
  lemma {:induction false} PatchTextRebuildsTheOldFile(preamble: seq<string>, pieces: seq<Piece>, tail: seq<string>,
                                                       newline: bool)
    requires Preamble(preamble) && Headed(pieces) && Showing(pieces)
    requires
      var lines := preamble + (PatchLines(pieces) + Ending(newline));
      lines != [] && forall i :: 0 <= i < |lines| ==> '\n' !in lines[i]
    ensures
      var w := Read(Join(preamble + (PatchLines(pieces) + Ending(newline))));
      Rebuilt(NewFile(pieces, tail), w.added, Flushed(w).removed) == OldFile(pieces, tail)
  {
    SplitJoin(preamble + (PatchLines(pieces) + Ending(newline)));
    MapsRebuildTheOldFile(preamble, pieces, tail, newline);
  }

  // ---- the header git prints ----------------------------------------------------------

  function Count(count: Option<nat>): string {
    match count
    case None => ""
    case Some(n) => "," + Written(n)
  }

  function Header(oldStart: nat, oldCount: Option<nat>, newStart: nat, newCount: Option<nat>, heading: string): string {
    "@@ -" + (Written(oldStart)
        + (Count(oldCount) + (" +" + (Written(newStart) + (Count(newCount) + (" @@" + heading))))))
  }

  lemma {:induction false} LeadingOf(digits: string, rest: string)
    requires AllDigits(digits) && (rest == "" || !IsDigit(rest[0]))
    ensures Leading(digits + rest) == |digits|
    ensures (digits + rest)[..|digits|] == digits && (digits + rest)[|digits|..] == rest
  {
    if digits == "" {
      assert digits + rest == rest;
    } else {
      assert (digits + rest)[1..] == digits[1..] + rest;
      LeadingOf(digits[1..], rest);
    }
  }

  lemma PastCountOf(count: Option<nat>, rest: string)
    requires rest != "" && rest[0] == ' '
    ensures PastCount(Count(count) + rest) == rest
    ensures !IsDigit((Count(count) + rest)[0])
  {
    match count
    case None => assert Count(count) + rest == rest;
    case Some(n) =>
      WrittenReads(n);
      LeadingOf(Written(n), rest);
      assert (Count(count) + rest)[1..] == Written(n) + rest;
  }

  /** One side of a header: its number, past its count. */
  lemma SideReads(n: nat, count: Option<nat>, rest: string)
    requires rest != "" && rest[0] == ' '
    ensures
      var side := Written(n) + (Count(count) + rest);
      Leading(side) > 0 && Value(side[..Leading(side)]) == n && PastCount(side[Leading(side)..]) == rest
  {
    WrittenReads(n);
    PastCountOf(count, rest);
    LeadingOf(Written(n), Count(count) + rest);
  }

  lemma PastTheMark(mark: string, rest: string)
    ensures mark <= mark + rest && (mark + rest)[|mark|..] == rest
  {
  }

  /** Git's headers, with or without counts and heading, say what they say. */
  lemma {:induction false} HeaderReads(oldStart: nat, oldCount: Option<nat>, newStart: nat, newCount: Option<nat>,
                                       heading: string)
    ensures HunkStart(Header(oldStart, oldCount, newStart, newCount, heading)) == Some(newStart)
  {
    var closing := CLOSE + heading;
    var new_ := Written(newStart) + (Count(newCount) + closing);
    var old_ := Written(oldStart) + (Count(oldCount) + (NEW_SIDE + new_));
    SideReads(newStart, newCount, closing);
    SideReads(oldStart, oldCount, NEW_SIDE + new_);
    PastTheMark(OLD_SIDE, old_);
    PastTheMark(NEW_SIDE, new_);
  }

  // ---- hunks that show no new line --------------------------------------------------------

  /** Whether a hunk shows no line of the new file. */
  predicate Hides(piece: Piece) {
    NewLines(piece.body) == []
  }

  /** Every hunk but the first stands apart from the one before, as git's do. */
  predicate Separated(pieces: seq<Piece>) {
    forall i :: 1 <= i < |pieces| ==> pieces[i].gap != []
  }

  /** Every hunk that shows no new line has one above it. */
  predicate BelowALine(pieces: seq<Piece>) {
    forall i :: 0 <= i < |pieces| ==> Hides(pieces[i]) ==> pieces[i].gap != []
  }

  function LastOf(gap: seq<string>): string
    requires gap != []
  {
    gap[|gap| - 1]
  }

  /** The piece as the readers take it: what such a hunk removed stands before the line above it. */
  function Shift(piece: Piece): Piece {
    if Hides(piece) && piece.gap != []
    then Piece(piece.gap[..|piece.gap| - 1], piece.header, piece.body + [Kept(LastOf(piece.gap))])
    else piece
  }

  function Shifted(pieces: seq<Piece>): seq<Piece> {
    if pieces == [] then [] else [Shift(pieces[0])] + Shifted(pieces[1..])
  }

  /** The pieces as the readers take them: a first hunk with no line above it is not seen at all. */
  function Taken(pieces: seq<Piece>): seq<Piece> {
    if pieces != [] && Hides(pieces[0]) && pieces[0].gap == [] then Shifted(pieces[1..]) else Shifted(pieces)
  }

  lemma {:induction false} NewThenKept(body: seq<BodyLine>, text: string)
    ensures NewLines(body + [Kept(text)]) == NewLines(body) + [text]
    decreases |body|
  {
    if body == [] {
      assert [Kept(text)][1..] == [];
    } else {
      NewThenKept(body[1..], text);
      assert (body + [Kept(text)])[1..] == body[1..] + [Kept(text)];
    }
  }

  lemma {:induction false} OldThenKept(body: seq<BodyLine>, text: string)
    ensures OldLines(body + [Kept(text)]) == OldLines(body) + [text]
    decreases |body|
  {
    if body == [] {
      assert [Kept(text)][1..] == [];
    } else {
      OldThenKept(body[1..], text);
      assert (body + [Kept(text)])[1..] == body[1..] + [Kept(text)];
    }
  }

  lemma {:induction false} MarksThenKept(body: seq<BodyLine>, text: string)
    ensures BodyMarks(body + [Kept(text)]) == BodyMarks(body) + [Other]
    decreases |body|
  {
    if body == [] {
      assert [Kept(text)][1..] == [];
    } else {
      MarksThenKept(body[1..], text);
      assert (body + [Kept(text)])[1..] == body[1..] + [Kept(text)];
    }
  }

  lemma BodyThenKept(body: seq<BodyLine>, text: string)
    ensures NewLines(body + [Kept(text)]) == NewLines(body) + [text]
    ensures OldLines(body + [Kept(text)]) == OldLines(body) + [text]
    ensures BodyMarks(body + [Kept(text)]) == BodyMarks(body) + [Other]
  {
    NewThenKept(body, text);
    OldThenKept(body, text);
    MarksThenKept(body, text);
  }

  /** Two walks that have read the same, whatever either has yet to put down. */
  predicate Agree(v: Walk, w: Walk) {
    v.added == w.added && Flushed(v).removed == Flushed(w).removed
  }

  lemma HunkAgrees(v: Walk, w: Walk, start: nat)
    requires Agree(v, w)
    ensures Next(v, Hunk(start)) == Next(w, Hunk(start))
  {
  }

  lemma WalkedPiece(w: Walk, start: nat, body: seq<Mark>, rest: seq<Mark>)
    ensures Walked(w, [Hunk(start)] + (body + rest)) == Walked(Walked(Next(w, Hunk(start)), body), rest)
  {
    assert ([Hunk(start)] + (body + rest))[1..] == body + rest;
    WalkedConcat(Next(w, Hunk(start)), body, rest);
  }

  lemma {:induction false} HiddenBodyStays(w: Walk, body: seq<BodyLine>)
    requires NewLines(body) == []
    ensures Walked(w, BodyMarks(body)).at == w.at
    ensures w.at == 0 ==> Walked(w, BodyMarks(body)) == w
    decreases |body|
  {
    if body != [] {
      assert BodyMarks(body)[1..] == BodyMarks(body[1..]);
      HiddenBodyStays(Next(w, BodyMark(body[0])), body[1..]);
    }
  }

  lemma PassingAgrees(w: Walk, body: seq<Mark>)
    requires Walked(w, body).at != 0
    ensures Agree(Walked(w, body), Walked(w, body + [Other]))
  {
    var v := Walked(w, body);
    WalkedConcat(w, body, [Other]);
    assert [Other][1..] == [];
    assert Walked(v, [Other]) == Next(v, Other);
  }

  lemma ShiftedStart(piece: Piece, at: nat)
    requires at >= 1 && Hides(piece) && piece.gap != []
    ensures
      var first, shifted := at + |piece.gap|, Shift(piece);
      && NewLines(shifted.body) == [LastOf(piece.gap)]
      && BodyMarks(shifted.body) == BodyMarks(piece.body) + [Other]
      && HeaderStart(at + |shifted.gap|, shifted.body) == HeaderStart(first, piece.body) == first - 1
      && at + |shifted.gap| + |NewLines(shifted.body)| == first
  {
    BodyThenKept(piece.body, LastOf(piece.gap));
  }

  lemma PieceMarksHead(pieces: seq<Piece>, at: nat, w: Walk)
    requires at >= 1 && pieces != []
    ensures
      var first := at + |pieces[0].gap|;
      var read := Walked(Next(w, Hunk(HeaderStart(first, pieces[0].body))), BodyMarks(pieces[0].body));
      Walked(w, PieceMarks(pieces, at)) == Walked(read, PieceMarks(pieces[1..], first + |NewLines(pieces[0].body)|))
  {
    var first := at + |pieces[0].gap|;
    WalkedPiece(w, HeaderStart(first, pieces[0].body), BodyMarks(pieces[0].body),
                PieceMarks(pieces[1..], first + |NewLines(pieces[0].body)|));
  }

  lemma HiddenAgrees(w: Walk, body: seq<BodyLine>)
    requires NewLines(body) == [] && w.at != 0
    ensures Agree(Walked(w, BodyMarks(body)), Walked(w, BodyMarks(body) + [Other]))
  {
    HiddenBodyStays(w, body);
    PassingAgrees(w, BodyMarks(body));
  }

  lemma ShiftedHead(pieces: seq<Piece>, at: nat, w: Walk)
    requires at >= 1 && pieces != [] && Hides(pieces[0]) && pieces[0].gap != []
    ensures
      var first := at + |pieces[0].gap|;
      var read := Walked(Next(w, Hunk(first - 1)), BodyMarks(pieces[0].body) + [Other]);
      Walked(w, PieceMarks(Shifted(pieces), at)) == Walked(read, PieceMarks(Shifted(pieces[1..]), first))
  {
    PieceMarksHead(Shifted(pieces), at, w);
    assert Shifted(pieces)[1..] == Shifted(pieces[1..]);
    ShiftedStart(pieces[0], at);
  }

  /** Past one piece, read as it is and as shifted. */
  lemma ShiftedPiece(v: Walk, w: Walk, pieces: seq<Piece>, at: nat) returns (x: Walk, y: Walk, next: nat)
    requires at >= 1 && Agree(v, w) && pieces != [] && (Hides(pieces[0]) ==> pieces[0].gap != [])
    ensures next >= 1 && Agree(x, y)
    ensures Walked(v, PieceMarks(pieces, at)) == Walked(x, PieceMarks(pieces[1..], next))
    ensures Walked(w, PieceMarks(Shifted(pieces), at)) == Walked(y, PieceMarks(Shifted(pieces[1..]), next))
  {
    var body, first := pieces[0].body, at + |pieces[0].gap|;
    next := first + |NewLines(body)|;
    PieceMarksHead(pieces, at, v);
    x := Walked(Next(v, Hunk(HeaderStart(first, body))), BodyMarks(body));
    HunkAgrees(v, w, HeaderStart(first, body));
    if Hides(pieces[0]) {
      ShiftedHead(pieces, at, w);
      y := Walked(Next(w, Hunk(first - 1)), BodyMarks(body) + [Other]);
      HiddenAgrees(Next(w, Hunk(first - 1)), body);
    } else {
      PieceMarksHead(Shifted(pieces), at, w);
      assert Shifted(pieces)[1..] == Shifted(pieces[1..]);
      y := x;
    }
  }

  /** The readers cannot tell such a hunk from one that shows the line above it as kept. */
  lemma {:induction false} ShiftedAgrees(v: Walk, w: Walk, pieces: seq<Piece>, at: nat)
    requires at >= 1 && Agree(v, w) && BelowALine(pieces)
    ensures Agree(Walked(v, PieceMarks(pieces, at)), Walked(w, PieceMarks(Shifted(pieces), at)))
    decreases |pieces|
  {
    if pieces != [] {
      assert forall i :: 0 <= i < |pieces| - 1 ==> pieces[1..][i] == pieces[i + 1];
      var x, y, next := ShiftedPiece(v, w, pieces, at);
      ShiftedAgrees(x, y, pieces[1..], next);
    }
  }

  lemma ShiftShows(piece: Piece, rest: seq<string>)
    requires Hides(piece) ==> piece.gap != []
    ensures NewLines(Shift(piece).body) != []
    ensures Shift(piece).gap + (NewLines(Shift(piece).body) + rest) == piece.gap + (NewLines(piece.body) + rest)
  {
    if Hides(piece) {
      var front, last := piece.gap[..|piece.gap| - 1], LastOf(piece.gap);
      BodyThenKept(piece.body, last);
      Regroup(front, [last], rest);
      assert front + [last] == piece.gap && [] + rest == rest && [] + [last] == [last];
    }
  }

  lemma {:induction false} ShiftedShows(pieces: seq<Piece>, tail: seq<string>)
    requires BelowALine(pieces)
    ensures Showing(Shifted(pieces)) && NewFile(Shifted(pieces), tail) == NewFile(pieces, tail)
    decreases |pieces|
  {
    if pieces != [] {
      var rest := pieces[1..];
      assert forall i :: 0 <= i < |rest| ==> rest[i] == pieces[i + 1];
      ShiftedShows(rest, tail);
      ShiftShows(pieces[0], NewFile(rest, tail));
      ShownFirst(Shift(pieces[0]), Shifted(rest));
      assert Shifted(pieces)[1..] == Shifted(rest);
    }
  }

  lemma ShownFirst(piece: Piece, rest: seq<Piece>)
    requires NewLines(piece.body) != [] && Showing(rest)
    ensures Showing([piece] + rest)
  {
    forall i | 0 <= i < |[piece] + rest| ensures NewLines(([piece] + rest)[i].body) != [] {
      if i > 0 {
        assert ([piece] + rest)[i] == rest[i - 1];
      }
    }
  }

  lemma UnseenMarks(body: seq<Mark>, rest: seq<Mark>)
    requires Walked(START, body) == START
    ensures Walked(START, [Hunk(0)] + (body + rest)) == Walked(START, rest)
  {
    WalkedPiece(START, 0, body, rest);
  }

  /** A first hunk whose header starts at 0 leaves the readers as they were. */
  lemma FirstHunkUnseen(pieces: seq<Piece>, marks: seq<Mark>)
    requires pieces != [] && Hides(pieces[0]) && pieces[0].gap == [] && marks == PieceMarks(pieces, 1)
    ensures Walked(START, marks) == Walked(START, PieceMarks(pieces[1..], 1))
  {
    HiddenBodyStays(START, pieces[0].body);
    UnseenMarks(BodyMarks(pieces[0].body), PieceMarks(pieces[1..], 1));
    assert marks == [Hunk(0)] + (BodyMarks(pieces[0].body) + PieceMarks(pieces[1..], 1));
  }

  lemma SeparatedTail(pieces: seq<Piece>)
    requires Separated(pieces)
    ensures pieces != [] ==> BelowALine(pieces[1..])
    ensures pieces == [] || !Hides(pieces[0]) || pieces[0].gap != [] ==> BelowALine(pieces)
  {
    if pieces != [] {
      assert forall i :: 0 <= i < |pieces| - 1 ==> pieces[1..][i] == pieces[i + 1];
    }
  }

  lemma BelowALineRebuild(pieces: seq<Piece>, tail: seq<string>)
    requires BelowALine(pieces)
    ensures
      var w := Walked(START, PieceMarks(pieces, 1));
      Rebuilt(NewFile(pieces, tail), w.added, Flushed(w).removed) == OldFile(Shifted(pieces), tail)
  {
    ShiftedAgrees(START, START, pieces, 1);
    ShiftedShows(pieces, tail);
    ShownRebuild(Shifted(pieces), tail);
  }

  /** The marks of any patch of separated hunks rebuild the old file of its pieces as taken. */
  lemma TakenRebuild(pieces: seq<Piece>, tail: seq<string>)
    requires Separated(pieces)
    ensures
      var w := Walked(START, PieceMarks(pieces, 1));
      Rebuilt(NewFile(pieces, tail), w.added, Flushed(w).removed) == OldFile(Taken(pieces), tail)
  {
    SeparatedTail(pieces);
    if pieces != [] && Hides(pieces[0]) && pieces[0].gap == [] {
      FirstHunkUnseen(pieces, PieceMarks(pieces, 1));
      BelowALineRebuild(pieces[1..], tail);
      assert [] + ([] + NewFile(pieces[1..], tail)) == NewFile(pieces[1..], tail);
    } else {
      BelowALineRebuild(pieces, tail);
    }
  }

  /**
   For any valid patch of separated hunks, what a hunk that shows no new line
   removed is put one line too early, and lost where no line stands above it.
   */
  lemma {:induction false} ZeroCountHunksMoveUp(preamble: seq<string>, pieces: seq<Piece>, tail: seq<string>,
                                                newline: bool)
    requires Preamble(preamble) && Headed(pieces) && Separated(pieces)
    ensures
      var w := Walked(START, Marks(preamble + (PatchLines(pieces) + Ending(newline))));
      Rebuilt(NewFile(pieces, tail), w.added, Flushed(w).removed) == OldFile(Taken(pieces), tail)
  {
    PatchWalks(preamble, pieces, newline);
    TakenRebuild(pieces, tail);
  }

  /** A hunk that shows a new line, or whose every old line is the line above it over again. */
  predicate Harmless(piece: Piece) {
    Hides(piece) ==>
      forall j :: 0 <= j < |OldLines(piece.body)| ==> piece.gap != [] && OldLines(piece.body)[j] == LastOf(piece.gap)
  }

  predicate AllHarmless(pieces: seq<Piece>) {
    forall i :: 0 <= i < |pieces| ==> Harmless(pieces[i])
  }

  lemma {:induction false} AllAlike(lines: seq<string>, last: string, upTo: nat)
    requires lines + [last] == [last] + lines && upTo <= |lines|
    ensures forall j :: 0 <= j < upTo ==> lines[j] == last
    decreases upTo
  {
    if upTo > 0 {
      AllAlike(lines, last, upTo - 1);
      assert (lines + [last])[upTo - 1] == ([last] + lines)[upTo - 1];
    }
  }

  lemma AlikeIff(lines: seq<string>, last: string)
    ensures lines + [last] == [last] + lines <==> forall j :: 0 <= j < |lines| ==> lines[j] == last
  {
    if lines + [last] == [last] + lines {
      AllAlike(lines, last, |lines|);
    }
  }

  /** A shifted piece says the same exactly when it was harmless, and no more or fewer lines. */
  lemma ShiftIff(piece: Piece, there: seq<string>, here: seq<string>)
    requires (Hides(piece) ==> piece.gap != []) && |there| == |here|
    ensures
      var shifted := Shift(piece);
      var a, b := shifted.gap + (OldLines(shifted.body) + there), piece.gap + (OldLines(piece.body) + here);
      |a| == |b| && (a == b <==> Harmless(piece) && there == here)
  {
    var lines := OldLines(piece.body);
    if Hides(piece) {
      var gap, last := piece.gap[..|piece.gap| - 1], LastOf(piece.gap);
      BodyThenKept(piece.body, last);
      SameParts(gap, lines + [last], there, [last] + lines, here);
      LineAcross(piece.gap, lines, here);
      AlikeIff(lines, last);
    } else {
      SameParts(piece.gap, lines, there, lines, here);
    }
  }

  lemma LineAcross(gap: seq<string>, lines: seq<string>, here: seq<string>)
    requires gap != []
    ensures gap + (lines + here) == gap[..|gap| - 1] + (([LastOf(gap)] + lines) + here)
  {
    assert gap == gap[..|gap| - 1] + [LastOf(gap)];
  }

  lemma SameParts(gap: seq<string>, a: seq<string>, there: seq<string>, b: seq<string>, here: seq<string>)
    requires |a| == |b| && |there| == |here|
    ensures gap + (a + there) == gap + (b + here) <==> a == b && there == here
  {
    var x, y := gap + (a + there), gap + (b + here);
    if x == y {
      assert a == x[|gap|..|gap| + |a|] && b == y[|gap|..|gap| + |a|];
      assert there == x[|gap| + |a|..] && here == y[|gap| + |a|..];
    }
  }

  lemma {:induction false} ShiftedIff(pieces: seq<Piece>, tail: seq<string>)
    requires BelowALine(pieces)
    ensures |OldFile(Shifted(pieces), tail)| == |OldFile(pieces, tail)|
    ensures OldFile(Shifted(pieces), tail) == OldFile(pieces, tail) <==> AllHarmless(pieces)
    decreases |pieces|
  {
    if pieces != [] {
      var piece, rest := pieces[0], pieces[1..];
      assert forall i :: 0 <= i < |rest| ==> rest[i] == pieces[i + 1];
      assert BelowALine(rest);
      ShiftedIff(rest, tail);
      assert Shifted(pieces)[1..] == Shifted(rest);
      ShiftIff(piece, OldFile(Shifted(rest), tail), OldFile(rest, tail));
      HarmlessInTwo(pieces);
    }
  }

  lemma HarmlessInTwo(pieces: seq<Piece>)
    requires pieces != []
    ensures AllHarmless(pieces) <==> Harmless(pieces[0]) && AllHarmless(pieces[1..])
  {
    assert forall i :: 0 <= i < |pieces| - 1 ==> pieces[1..][i] == pieces[i + 1];
    assert forall i :: 1 <= i < |pieces| ==> pieces[i] == pieces[1..][i - 1];
  }

  lemma TakenIff(pieces: seq<Piece>, tail: seq<string>)
    requires Separated(pieces)
    ensures OldFile(Taken(pieces), tail) == OldFile(pieces, tail) <==> AllHarmless(pieces)
  {
    SeparatedTail(pieces);
    if pieces != [] && Hides(pieces[0]) && pieces[0].gap == [] {
      var lines, rest := OldLines(pieces[0].body), OldFile(pieces[1..], tail);
      ShiftedIff(pieces[1..], tail);
      HarmlessInTwo(pieces);
      assert OldFile(pieces, tail) == lines + rest;
      if lines != [] {
        assert lines[0] == OldLines(pieces[0].body)[0];
        assert !Harmless(pieces[0]);
      }
    } else {
      ShiftedIff(pieces, tail);
    }
  }

  /**
   A valid patch of separated hunks rebuilds the old file exactly when every hunk
   that shows no new line removed nothing but repeats of the line above it.
   */
  lemma {:induction false} ZeroCountHunksRebuildIff(preamble: seq<string>, pieces: seq<Piece>, tail: seq<string>,
                                                    newline: bool)
    requires Preamble(preamble) && Headed(pieces) && Separated(pieces)
    ensures
      var w := Walked(START, Marks(preamble + (PatchLines(pieces) + Ending(newline))));
      Rebuilt(NewFile(pieces, tail), w.added, Flushed(w).removed) == OldFile(pieces, tail) <==> AllHarmless(pieces)
  {
    ZeroCountHunksMoveUp(preamble, pieces, tail, newline);
    TakenIff(pieces, tail);
  }

  /** `b` removed after `a`, as git prints it. */
  function RemovingHeader(heading: string): string {
    Header(2, None, 1, Some(0), heading)
  }

  function RemovingPiece(heading: string): Piece {
    Piece(["a"], RemovingHeader(heading), [Removed("b")])
  }

  lemma RemovingIsHeaded(heading: string)
    ensures Headed([RemovingPiece(heading)])
  {
    var piece := RemovingPiece(heading);
    OnePiece(piece, []);
    HeaderReads(2, None, 1, Some(0), heading);
    OneRemoved();
    MarksCons(piece.header, [], []);
    assert Marks(HeaderLines([piece])) == [Hunk(1)];
  }

  lemma OneRemoved()
    ensures NewLines([Removed("b")]) == [] && OldLines([Removed("b")]) == ["b"]
    ensures OldLines([Removed("b")] + [Kept("a")]) == ["b", "a"]
  {
    assert [Removed("b")][1..] == [];
    BodyThenKept([Removed("b")], "a");
  }

  lemma OnePiece(piece: Piece, tail: seq<string>)
    ensures OldFile([piece], tail) == piece.gap + OldLines(piece.body) + tail
    ensures HeaderLines([piece]) == [piece.header] && Shifted([piece]) == [Shift(piece)]
    ensures StartMarks([piece], 1) == [Hunk(HeaderStart(1 + |piece.gap|, piece.body))]
  {
    assert [piece][1..] == [];
    Regroup(piece.gap, OldLines(piece.body), tail);
  }

  /** It is put before `a`. */
  lemma {:induction false} ALineIsMovedUp(heading: string)
    ensures
      var pieces := [RemovingPiece(heading)];
      var w := Walked(START, Marks(PatchLines(pieces)));
      && OldFile(pieces, []) == ["a", "b"]
      && Rebuilt(NewFile(pieces, []), w.added, Flushed(w).removed) == ["b", "a"]
  {
    RemovingIsHeaded(heading);
    ZeroCountHunksMoveUp([], [RemovingPiece(heading)], [], false);
    assert [] + (PatchLines([RemovingPiece(heading)]) + []) == PatchLines([RemovingPiece(heading)]);
    RemovingIsTaken(heading);
  }

  lemma RemovingIsTaken(heading: string)
    ensures OldFile([RemovingPiece(heading)], []) == ["a", "b"]
    ensures OldFile(Taken([RemovingPiece(heading)]), []) == ["b", "a"]
  {
    var piece := RemovingPiece(heading);
    OneRemoved();
    OnePiece(piece, []);
    OnePiece(Shift(piece), []);
  }

  /** A file of two lines emptied, as git prints it. */
  function EmptyingPiece(heading: string): Piece {
    Piece([], Header(1, Some(2), 0, Some(0), heading), [Removed("a"), Removed("b")])
  }

  lemma TwoRemoved()
    ensures NewLines([Removed("a"), Removed("b")]) == [] && OldLines([Removed("a"), Removed("b")]) == ["a", "b"]
  {
    assert [Removed("a"), Removed("b")][1..] == [Removed("b")];
    OneRemoved();
  }

  lemma EmptyingIsHeaded(heading: string)
    ensures Headed([EmptyingPiece(heading)])
  {
    var piece := EmptyingPiece(heading);
    OnePiece(piece, []);
    HeaderReads(1, Some(2), 0, Some(0), heading);
    TwoRemoved();
    MarksCons(piece.header, [], []);
    assert Marks(HeaderLines([piece])) == [Hunk(0)];
  }

  /** Nothing of it is kept. */
  lemma {:induction false} AnEmptiedFileIsLost(heading: string)
    ensures
      var pieces := [EmptyingPiece(heading)];
      var w := Walked(START, Marks(PatchLines(pieces)));
      && OldFile(pieces, []) == ["a", "b"]
      && Rebuilt(NewFile(pieces, []), w.added, Flushed(w).removed) == []
  {
    var pieces := [EmptyingPiece(heading)];
    EmptyingIsHeaded(heading);
    ZeroCountHunksMoveUp([], pieces, [], false);
    assert [] + (PatchLines(pieces) + []) == PatchLines(pieces);
    TwoRemoved();
    OnePiece(pieces[0], []);
    assert pieces[1..] == [];
  }
}
