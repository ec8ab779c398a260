/** The line numbers a unified patch added, and the lines it removed, in terms of the new file. */
module Patch {
  import opened Common
  import opened Text
  import opened Decimals

  // ---- hunk headers --------------------------------------------------------

  /** How many digits a text opens with. */
  function Leading(s: string): (n: nat)
    ensures n <= |s|
  {
    if s == "" || !IsDigit(s[0]) then 0 else Leading(s[1..]) + 1
  }

  /** What follows `,` and digits, where a text opens with them. */
  function PastCount(s: string): string {
    if s != "" && s[0] == ',' && Leading(s[1..]) > 0 then s[1..][Leading(s[1..])..] else s
  }

  const OLD_SIDE: string := "@@ -"
  const NEW_SIDE: string := " +"
  const CLOSE: string := " @@"

  /** The new file's first line, where the line is a hunk header: `@@ -a,b +c,d @@`, the counts optional. */
  function HunkStart(line: string): Option<nat> {
    if !(OLD_SIDE <= line) then None
    else
      var old_ := line[|OLD_SIDE|..];
      var between := PastCount(old_[Leading(old_)..]);
      if Leading(old_) == 0 || !(NEW_SIDE <= between) then None
      else
        var new_ := between[|NEW_SIDE|..];
        if Leading(new_) == 0 || !(CLOSE <= PastCount(new_[Leading(new_)..])) then None
        else Some(Value(new_[..Leading(new_)]))
  }

  // ---- reading a patch -------------------------------------------------------

  /** What the two readers keep between lines. */
  datatype Walk = Walk(at: nat, added: set<nat>, pending: seq<string>, removed: map<nat, seq<string>>)

  function RemovedAt(removed: map<nat, seq<string>>, at: nat): seq<string> {
    if at in removed then removed[at] else []
  }

  function Flushed(w: Walk): Walk {
    if w.pending == [] then w
    else w.(removed := w.removed[w.at := RemovedAt(w.removed, w.at) + w.pending], pending := [])
  }

  predicate Starts(line: string, mark: char) {
    line != "" && line[0] == mark
  }

  /** What a line of the patch is to its readers. */
  datatype Mark = Hunk(start: nat) | Plus | Minus(text: string) | Note | Other

  function MarkOf(line: string): Mark {
    match HunkStart(line)
    case Some(start) => Hunk(start)
    case None =>
      if Starts(line, '+') then Plus
      else if Starts(line, '-') then Minus(line[1..])
      else if Starts(line, '\\') then Note
      else Other
  }

  function Marks(lines: seq<string>): seq<Mark> {
    if lines == [] then [] else [MarkOf(lines[0])] + Marks(lines[1..])
  }

  /** Past a line of the new file. */
  function Passed(w: Walk, isAdded: bool): Walk {
    var f := Flushed(w);
    f.(added := if isAdded then f.added + {f.at} else f.added, at := f.at + 1)
  }

  /** Until the first hunk header nothing is a line of either file. */
  function Next(w: Walk, mark: Mark): Walk {
    match mark
    case Hunk(start) => Flushed(w).(at := start)
    case Minus(text) => if w.at == 0 then w else w.(pending := w.pending + [text])
    case Note => w
    case Plus => if w.at == 0 then w else Passed(w, true)
    case Other => if w.at == 0 then w else Passed(w, false)
  }

  function Walked(w: Walk, marks: seq<Mark>): Walk
    decreases |marks|
  {
    if marks == [] then w else Walked(Next(w, marks[0]), marks[1..])
  }

  const START: Walk := Walk(0, {}, [], map[])

  /** The readers after a whole patch. */
  function Read(patch: string): Walk {
    Walked(START, Marks(Split(patch)))
  }

  lemma {:induction false} WalkedConcat(w: Walk, a: seq<Mark>, b: seq<Mark>)
    ensures Walked(w, a + b) == Walked(Walked(w, a), b)
    decreases |a|
  {
    if a == [] {
      assert a + b == b;
    } else {
      assert (a + b)[1..] == a[1..] + b;
      WalkedConcat(Next(w, a[0]), a[1..], b);
    }
  }

  lemma {:induction false} MarksConcat(a: seq<string>, b: seq<string>)
    ensures Marks(a + b) == Marks(a) + Marks(b)
  {
    if a == [] {
      assert a + b == b;
    } else {
      assert (a + b)[1..] == a[1..] + b;
      MarksConcat(a[1..], b);
    }
  }

  /** The set `added` of the walk, kept in a variable of its own. */
  method AddedLines(patch: string) returns (out: set<nat>)
    ensures out == Read(patch).added
  {
    out := {};
    var at := 0;
    ghost var w := START;
    var lines := Split(patch);
    for n := 0 to |lines|
      invariant Walked(w, Marks(lines[n..])) == Read(patch)
      invariant w.at == at && w.added == out
    {
      MarksFrom(lines, n);
      var mark := MarkOf(lines[n]);
      w := Next(w, mark);
      match mark {
        case Hunk(start) => at := start;
        case Plus =>
          if at != 0 {
            out := out + {at};
            at := at + 1;
          }
        case Minus(_) =>
        case Note =>
        case Other =>
          if at != 0 {
            at := at + 1;
          }
      }
    }
    assert lines[|lines|..] == [];
  }

  /** The map `removed` of the walk, with what is pending at the end put down. */
  method RemovedLines(patch: string) returns (out: map<nat, seq<string>>)
    ensures out == Flushed(Read(patch)).removed
  {
    out := map[];
    var at := 0;
    var pending := [];
    ghost var w := START;
    var lines := Split(patch);
    for n := 0 to |lines|
      invariant Walked(w, Marks(lines[n..])) == Read(patch)
      invariant w.at == at && w.pending == pending && w.removed == out
    {
      MarksFrom(lines, n);
      var mark := MarkOf(lines[n]);
      w := Next(w, mark);
      match mark {
        case Hunk(start) =>
          out, pending := Flush(at, pending, out);
          at := start;
        case Minus(text) =>
          if at != 0 {
            pending := pending + [text];
          }
        case Note =>
        case _ =>
          if at != 0 {
            out, pending := Flush(at, pending, out);
            at := at + 1;
          }
      }
    }
    assert lines[|lines|..] == [];
    out, pending := Flush(at, pending, out);
  }

  lemma MarksFrom(lines: seq<string>, n: nat)
    requires n < |lines|
    ensures Marks(lines[n..]) == [MarkOf(lines[n])] + Marks(lines[n + 1..])
    ensures Marks(lines[n..])[1..] == Marks(lines[n + 1..])
  {
    assert lines[n..][0] == lines[n] && lines[n..][1..] == lines[n + 1..];
  }

  method Flush(at: nat, pending: seq<string>, removed: map<nat, seq<string>>)
    returns (out: map<nat, seq<string>>, left: seq<string>)
    ensures forall added :: Walk(at, added, left, out) == Flushed(Walk(at, added, pending, removed))
  {
    if pending == [] {
      return removed, pending;
    }
    return removed[at := RemovedAt(removed, at) + pending], [];
  }
}
