/**
 What a pasted line reads as, written out: space where space may stand, `export` or
 none, a name, `=`, and a value with or without a comment behind it.
 */
module DotenvLines {
  import opened Common
  import opened Text
  import opened Dotenv
  import opened DotenvRoundTrip

  predicate Blank(s: string) {
    forall c :: c in s ==> IsWhitespace(c)
  }

  /** Neither end is whitespace. */
  predicate Trimmed(s: string) {
    s == "" || (!IsWhitespace(s[0]) && !IsWhitespace(s[|s| - 1]))
  }

  // ---- values --------------------------------------------------------------------

  /** Where a comment opens: a space and a `#`. */
  predicate CommentAt(s: string, at: nat) {
    at + 1 < |s| && s[at] == ' ' && s[at + 1] == '#'
  }

  predicate NoComment(s: string) {
    forall at :: 0 <= at < |s| ==> !CommentAt(s, at)
  }

  predicate InQuotes(s: string) {
    |s| >= 2 && s[0] == s[|s| - 1] && (s[0] == '\'' || s[0] == '"')
  }

  lemma {:induction false} FirstComment(s: string, at: nat)
    requires at <= |s| && (forall k :: 0 <= k < at ==> !CommentAt(s, k))
    requires CommentAt(s, at) || at == |s|
    ensures FindComment(s) == at
    decreases |s|
  {
    if |s| >= 2 && at > 0 {
      assert !CommentAt(s, 0);
      assert forall k :: 0 <= k < at - 1 ==> (CommentAt(s[1..], k) <==> CommentAt(s, k + 1));
      assert at < |s| ==> CommentAt(s[1..], at - 1);
      FirstComment(s[1..], at - 1);
    }
  }

  /** A bare value is its own text. */
  lemma BareValue(text: string)
    requires !InQuotes(text) && NoComment(text)
    ensures Unquote(text) == text
  {
    FirstComment(text, |text|);
  }

  /** A value with a comment is what stands before the comment, its own end trimmed. */
  lemma CommentedValue(text: string, gap: string, why: string)
    requires text != "" && Trimmed(text) && NoComment(text) && Blank(gap)
    requires !InQuotes(text + gap + " #" + why)
    ensures Unquote(text + gap + " #" + why) == text
  {
    var value, at := text + gap + " #" + why, |text| + |gap|;
    assert value[at] == ' ' && value[at + 1] == '#';
    forall k | 0 <= k < at ensures !CommentAt(value, k) {
      NoCommentBefore(text, gap, why, k);
    }
    FirstComment(value, at);
    assert value[..at] == text + gap;
    TrimEndOf(text, gap);
  }

  lemma NoCommentBefore(text: string, gap: string, why: string, k: nat)
    requires text != "" && Trimmed(text) && NoComment(text) && Blank(gap) && k < |text| + |gap|
    ensures !CommentAt(text + gap + " #" + why, k)
  {
    var value := text + gap + " #" + why;
    if k + 1 < |text| {
      assert !CommentAt(text, k);
      assert value[k] == text[k] && value[k + 1] == text[k + 1];
    } else if k + 1 == |text| {
      assert value[k] == text[|text| - 1];
    } else if k + 1 < |text| + |gap| {
      assert value[k + 1] == gap[k + 1 - |text|] && gap[k + 1 - |text|] in gap;
    } else {
      assert value[k + 1] == ' ';
    }
  }

  // ---- trimming ------------------------------------------------------------------

  lemma {:induction false} TrimStartOf(pad: string, text: string)
    requires Blank(pad) && (text == "" || !IsWhitespace(text[0]))
    ensures TrimStart(pad + text) == text
    decreases |pad|
  {
    var all := pad + text;
    if pad == "" {
      assert all == text;
    } else {
      assert all[0] == pad[0] && pad[0] in pad && all[1..] == pad[1..] + text;
      TrimStartOf(pad[1..], text);
    }
  }

  lemma TrimOf(pad: string, text: string, tail: string)
    requires Blank(pad) && Blank(tail) && Trimmed(text) && text != ""
    ensures Trim(pad + text + tail) == text
  {
    assert pad + text + tail == pad + (text + tail);
    TrimStartOf(pad, text + tail);
    TrimEndOf(text, tail);
  }

  // ---- lines ---------------------------------------------------------------------

  /** A comment behind a value: the space before ` #`, and what follows that. */
  datatype Remark = Remark(gap: string, why: string)

  datatype Entry = Entry(indent: string, exported: bool, pad: string, name: string, before: string, after: string,
    text: string, remark: Option<Remark>, tail: string, windows: bool)

  function Value(e: Entry): string {
    if e.remark.Some? then e.text + e.remark.value.gap + " #" + e.remark.value.why else e.text
  }

  /** From the name to the value. */
  function Body(e: Entry): string {
    e.name + e.before + "=" + e.after + Value(e)
  }

  function Line(e: Entry): string {
    e.indent + (if e.exported then "export " + e.pad else "") + Body(e) + e.tail
  }

  /** Whitespace where there may be some, and a value trimmed. */
  predicate Laid(e: Entry) {
    && Blank(e.indent) && Blank(e.pad) && Blank(e.before) && Blank(e.after) && Blank(e.tail)
    && Trimmed(e.name) && '=' !in e.name && Trimmed(Value(e))
  }

  /** A value not in quotes, and a comment only behind a value. */
  predicate Plain(e: Entry) {
    && Trimmed(e.text) && NoComment(e.text) && !InQuotes(Value(e))
    && (e.remark.Some? ==> e.text != "" && Blank(e.remark.value.gap))
  }

  /** A name that does not make its line a comment, or an `export` of something else. */
  predicate Opens(e: Entry) {
    && (e.name == "" ==> e.before == "")
    && (!e.exported ==> (e.name != "" ==> e.name[0] != '#') && !("export " <= Body(e)))
  }

  lemma ValueReads(e: Entry)
    requires Plain(e)
    ensures Unquote(Value(e)) == e.text
  {
    if e.remark.Some? {
      CommentedValue(e.text, e.remark.value.gap, e.remark.value.why);
    } else {
      BareValue(e.text);
    }
  }

  /** What a line comes to once its name is split off. */
  function Read(name: string, value: string): Reading {
    match Check(name)
    case Some(reason) => Refused(reason)
    case None => Assigned(name, value)
  }

  lemma NameEndsAtTheEquals(bare: string, name: string, before: string, rest: string)
    requires bare == name + before + "=" + rest && '=' !in name && Blank(before)
    ensures Find(bare, '=') == |name| + |before| < |bare|
    ensures bare[..|name| + |before|] == name + before && bare[|name| + |before| + 1..] == rest
  {
    var at := |name| + |before|;
    assert bare[at] == '=';
    forall i | 0 <= i < at ensures bare[i] != '=' {
      if i < |name| {
        assert bare[i] == name[i] && name[i] in name;
      } else {
        assert bare[i] == before[i - |name|] && before[i - |name|] in before;
      }
    }
    FindIsFirst(bare, '=', at);
  }

  lemma NameTrims(name: string, before: string)
    requires Trimmed(name) && Blank(before) && (name == "" ==> before == "")
    ensures Trim(name + before) == name
  {
    assert name + before == "" + name + before;
    if name != "" {
      TrimOf("", name, before);
    }
  }

  lemma ValueTrims(after: string, value: string)
    requires Blank(after) && Trimmed(value)
    ensures Trim(after + value) == value
  {
    if value == "" {
      assert after + value == after + "" == after;
      TrimStartOf(after, "");
    } else {
      TrimOf(after, value, "");
      assert after + value + "" == after + value;
    }
  }

  /** The line without what is trimmed off its ends: an empty value leaves its `=` last. */
  function Core(e: Entry): string {
    (if e.exported then "export " + e.pad else "")
    + (e.name + e.before + "=" + if Value(e) == "" then "" else e.after + Value(e))
  }

  lemma LineAroundCore(e: Entry) returns (tail: string)
    requires Laid(e)
    ensures Line(e) == e.indent + Core(e) + tail && Blank(tail)
  {
    var front := if e.exported then "export " + e.pad else "";
    var start := e.name + e.before + "=";
    if Value(e) == "" {
      tail := e.after + e.tail;
      assert start + "" == start;
      assert Body(e) == start + e.after;
    } else {
      tail := e.tail;
      assert Body(e) == start + (e.after + Value(e));
    }
  }

  /** Pieces put together open and close like the first and the last of them. */
  lemma Ends(front: string, start: string, rest: string)
    requires start != ""
    ensures var core := front + (start + rest);
            && core != ""
            && core[0] == (if front != "" then front[0] else start[0])
            && core[|core| - 1] == if rest != "" then rest[|rest| - 1] else start[|start| - 1]
  {
  }

  lemma CoreIsTrimmed(e: Entry)
    requires Laid(e) && Opens(e)
    ensures Trim(Line(e)) == Core(e) && Core(e) != "" && Core(e)[0] != '#'
  {
    var front := if e.exported then "export " + e.pad else "";
    var start, rest := e.name + e.before + "=", if Value(e) == "" then "" else e.after + Value(e);
    var tail := LineAroundCore(e);
    Ends(front, start, rest);
    assert start[|start| - 1] == '=';
    assert start[0] == if e.name != "" then e.name[0] else '=';
    assert rest != "" ==> rest[|rest| - 1] == Value(e)[|Value(e)| - 1];
    TrimOf(e.indent, Core(e), tail);
  }

  lemma ExportIsDropped(e: Entry)
    requires Laid(e) && Opens(e)
    ensures var line, rest := Core(e), if Value(e) == "" then "" else e.after + Value(e);
            TrimStart(if EXPORT <= line then line[|EXPORT|..] else line) == e.name + e.before + "=" + rest
  {
    var rest := if Value(e) == "" then "" else e.after + Value(e);
    var bare := e.name + e.before + "=" + rest;
    assert bare[0] == if e.name != "" then e.name[0] else '=';
    if e.exported {
      assert Core(e) == "export " + (e.pad + bare);
      assert ("export " + (e.pad + bare))[7..] == e.pad + bare;
      TrimStartOf(e.pad, bare);
    } else {
      assert Core(e) == bare;
      ExportIsNotThere(e, bare);
      TrimStartOf("", bare);
    }
  }

  lemma ExportIsNotThere(e: Entry, bare: string)
    requires bare == e.name + e.before + "=" + (if Value(e) == "" then "" else e.after + Value(e))
    requires !("export " <= Body(e))
    ensures !(EXPORT <= bare)
  {
    assert bare <= Body(e);
  }

  lemma ReadsFrom(raw: string, line: string, bare: string, left: string, right: string, name: string, value: string)
    requires Trim(raw) == line && line != "" && line[0] != '#'
    requires TrimStart(if EXPORT <= line then line[|EXPORT|..] else line) == bare
    requires |left| < |bare| && Find(bare, '=') == |left| && bare[..|left|] == left && bare[|left| + 1..] == right
    requires Trim(left) == name && Trim(right) == value
    ensures ReadLine(raw) == Read(name, Unquote(value))
  {
  }

  /** A line is its name and its value unquoted, wherever space stands in it, with `export` or without. */
  lemma ALineSplits(e: Entry)
    requires Laid(e) && Opens(e)
    ensures ReadLine(Line(e)) == Read(e.name, Unquote(Value(e)))
  {
    var rest := if Value(e) == "" then "" else e.after + Value(e);
    var bare := e.name + e.before + "=" + rest;
    CoreIsTrimmed(e);
    ExportIsDropped(e);
    RestTrims(e, rest);
    NameEndsAtTheEquals(bare, e.name, e.before, rest);
    NameTrims(e.name, e.before);
    ReadsFrom(Line(e), Core(e), bare, e.name + e.before, rest, e.name, Value(e));
  }

  /**
   A line reads as its name and its value, wherever space stands in it, with `export`
   or without, and with a comment behind the value or none; or it is refused for its name.
   */
  lemma ALineReads(e: Entry)
    requires Laid(e) && Plain(e) && Opens(e)
    ensures ReadLine(Line(e)) == Read(e.name, e.text)
  {
    ALineSplits(e);
    ValueReads(e);
  }

  lemma RestTrims(e: Entry, rest: string)
    requires Blank(e.after) && Trimmed(Value(e)) && rest == if Value(e) == "" then "" else e.after + Value(e)
    ensures Trim(rest) == Value(e)
  {
    if Value(e) != "" {
      ValueTrims(e.after, Value(e));
    }
  }

  /** A variable called `export` with a space before its `=` is refused: what follows is taken for its name. */
  lemma ExportIsNoName(e: Entry)
    requires Laid(e) && e.name == "export" && !e.exported && e.before != "" && e.before[0] == ' '
    ensures ReadLine(Line(e)) == Refused(NoName)
  {
    var taken := e.(exported := true, pad := e.before[1..], name := "", before := "");
    assert "export " + e.before[1..] == "export" + e.before;
    assert "" + "" + "=" + e.after + Value(e) == "=" + e.after + Value(e);
    assert Body(e) == "export" + e.before + ("=" + e.after + Value(e));
    assert Line(taken) == Line(e);
    assert Blank(taken.pad);
    ALineSplits(taken);
  }

  // ---- the lines that set nothing ----------------------------------------------------

  /** A line of whitespace alone, or whose first other character is `#`, is passed over, and no other. */
  lemma SkippedIff(raw: string)
    ensures ReadLine(raw) == Skipped <==> Trim(raw) == "" || Trim(raw)[0] == '#'
  {
  }

  /** Any other line without `=` is refused for that, with `export` or without. */
  lemma NoEqualsIsRefused(raw: string)
    requires '=' !in raw && Trim(raw) != "" && Trim(raw)[0] != '#'
    ensures ReadLine(raw) == Refused(NoEquals)
  {
    var line := Trim(raw);
    var bare := TrimStart(if EXPORT <= line then line[|EXPORT|..] else line);
    TrimHoldsNoMore(raw);
    TrimStartHoldsNoMore(if EXPORT <= line then line[|EXPORT|..] else line);
    FindNowhere(bare, '=');
  }

  lemma {:induction false} TrimStartHoldsNoMore(s: string)
    ensures forall c :: c in TrimStart(s) ==> c in s
    decreases |s|
  {
    if s != "" && IsWhitespace(s[0]) {
      TrimStartHoldsNoMore(s[1..]);
    }
  }

  lemma TrimHoldsNoMore(s: string)
    ensures forall c :: c in Trim(s) ==> c in s
  {
    TrimStartHoldsNoMore(s);
    TrimEndIsPrefix(TrimStart(s));
  }

  // ---- files ---------------------------------------------------------------------------

  predicate OneLine(e: Entry) {
    '\n' !in Line(e) && '\r' !in Line(e)
  }

  /** A file of such lines; the newline after the last is there or not. */
  function File(entries: seq<Entry>, ended: bool): string {
    if entries == [] then ""
    else if |entries| == 1 && !ended then Line(entries[0])
    else Line(entries[0]) + (if entries[0].windows then "\r\n" else "\n") + File(entries[1..], ended)
  }

  function Variables(entries: seq<Entry>): seq<Variable> {
    if entries == [] then [] else [Variable(entries[0].name, entries[0].text)] + Variables(entries[1..])
  }

  lemma LineIsWritten(e: Entry)
    requires Laid(e) && Opens(e)
    ensures Line(e) != ""
  {
    CoreIsTrimmed(e);
    assert Trim("") == "";
  }

  lemma {:induction false} FileReads(entries: seq<Entry>, ended: bool)
    requires forall e :: e in entries ==> Laid(e) && Plain(e) && Opens(e) && OneLine(e) && Check(e.name) == None
    ensures ReadAll(Lines(File(entries, ended))) == Assignments(Variables(entries))
    decreases |entries|
  {
    if entries != [] {
      var e, rest := entries[0], entries[1..];
      ALineReads(e);
      assert Variables(entries)[1..] == Variables(rest);
      if |entries| == 1 && !ended {
        LineIsWritten(e);
        FindNowhere(Line(e), '\n');
        assert Lines(Line(e)) == [Line(e)] + [];
        ReadAllCons(Line(e), []);
      } else {
        FileReads(rest, ended);
        if e.windows {
          LinesOfReturn(Line(e), File(rest, ended));
        } else {
          assert DropReturn(Line(e)) == Line(e);
          LinesOfLine(Line(e), File(rest, ended));
        }
        ReadAllCons(Line(e), Lines(File(rest, ended)));
      }
    }
  }

  lemma {:induction false} VariablesNames(entries: seq<Entry>)
    ensures |Variables(entries)| == |entries|
    ensures forall i :: 0 <= i < |entries| ==> Variables(entries)[i] == Variable(entries[i].name, entries[i].text)
    decreases |entries|
  {
    if entries != [] {
      VariablesNames(entries[1..]);
    }
  }

  lemma AllAreTaken(variables: seq<Variable>)
    requires DistinctNames(variables)
    ensures TakeAll(Parsed([], []), Assignments(variables), 1) == Parsed(variables, [])
  {
    AssignmentsAreTaken(Parsed([], []), variables, 1);
    assert [] + variables == variables;
  }

  lemma VariablesInOrder(entries: seq<Entry>)
    requires forall i, j :: 0 <= i < j < |entries| ==> entries[i].name != entries[j].name
    ensures DistinctNames(Variables(entries))
    ensures Variables(entries) ==
            seq(|entries|, i requires 0 <= i < |entries| => Variable(entries[i].name, entries[i].text))
  {
    VariablesNames(entries);
  }

  /**
   A pasted file of such lines, its names accepted and distinct, is read with nothing
   rejected: each name, in order, with the text written for it.
   */
  lemma APastedFileReads(entries: seq<Entry>, ended: bool)
    requires forall e :: e in entries ==> Laid(e) && Plain(e) && Opens(e) && OneLine(e) && Check(e.name) == None
    requires forall i, j :: 0 <= i < j < |entries| ==> entries[i].name != entries[j].name
    ensures Parsing(File(entries, ended)) ==
            Parsed(seq(|entries|, i requires 0 <= i < |entries| => Variable(entries[i].name, entries[i].text)), [])
  {
    FileReads(entries, ended);
    VariablesInOrder(entries);
    AllAreTaken(Variables(entries));
  }

  // ---- a comment with no value before it ------------------------------------------------

  /** The line of an empty value and a comment, `gap` before its ` #`. */
  function Remarked(e: Entry, gap: string, why: string): Entry {
    e.(after := e.after + gap + " ", text := "#" + why, remark := None)
  }

  lemma RemarkedIsTheLine(e: Entry, gap: string, why: string)
    requires e.text == "" && e.remark == Some(Remark(gap, why))
    ensures Line(Remarked(e, gap, why)) == Line(e)
  {
    var start := e.name + e.before + "=";
    assert e.text + gap + " #" + why == (gap + " ") + ("#" + why);
    assert start + (e.after + gap + " ") + ("#" + why) == start + e.after + ((gap + " ") + ("#" + why));
    assert Body(Remarked(e, gap, why)) == Body(e);
  }

  lemma HashStays(value: string)
    requires value != "" && value[0] == '#' && Trimmed(value)
    ensures Unquote(value) != ""
  {
    var at := FindComment(value);
    assert at > 0;
    var front := value[..at];
    TrimEndIsPrefix(front);
    assert front[0] == '#';
  }

  /**
   A comment is left out exactly when a value stands before it. Where none does the
   rest is trimmed first, its `#` comes to stand at the front, and the comment is the value.
   */
  lemma ACommentIsLeftOutIff(e: Entry, gap: string, why: string)
    requires e.remark == Some(Remark(gap, why)) && Blank(gap) && Trimmed("#" + why)
    requires Laid(if e.text == "" then Remarked(e, gap, why) else e)
    requires Opens(if e.text == "" then Remarked(e, gap, why) else e)
    requires Trimmed(e.text) && NoComment(e.text) && !InQuotes(Value(e)) && Check(e.name) == None
    ensures ReadLine(Line(e)) == Assigned(e.name, e.text) <==> e.text != ""
  {
    if e.text == "" {
      RemarkedIsTheLine(e, gap, why);
      ALineSplits(Remarked(e, gap, why));
      HashStays("#" + why);
    } else {
      ALineReads(e);
    }
  }

  /** `KEY= # why` */
  function EmptyKey(): Entry {
    Entry("", false, "", "KEY", "", " ", "# why", None, "", false)
  }

  lemma EmptyKeyIsWritten()
    ensures Line(EmptyKey()) == "KEY= # why"
  {
    assert Body(EmptyKey()) == "KEY" + "" + "=" + " " + "# why";
  }

  lemma EmptyKeyIsALine()
    ensures Laid(EmptyKey()) && Plain(EmptyKey()) && Opens(EmptyKey())
  {
    var e := EmptyKey();
    assert Value(e) == "# why";
    assert Body(e)[0] == 'K';
  }

  /** An empty value before a comment reads as the comment: it is trimmed first, and then ` #` stands nowhere in it. */
  lemma AnEmptyValueIsItsComment()
    ensures ReadLine("KEY= # why") == Assigned("KEY", "# why")
  {
    EmptyKeyIsWritten();
    EmptyKeyIsALine();
    ALineReads(EmptyKey());
    CheckIff("KEY");
  }
}
