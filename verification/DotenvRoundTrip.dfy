/** What comes back when a `.env` that was written is read, and when it is what went in. */
module DotenvRoundTrip {
  import opened Common
  import opened Text
  import opened Dotenv

  // ---- three replaces against one pass -----------------------------------

  function Code(c: char): string {
    if c == '\\' then "\\\\" else if c == '"' then "\\\"" else if c == '\n' then "\\n" else [c]
  }

  /** Escaping a character at a time. */
  function Encoded(value: string): string {
    if value == "" then "" else Code(value[0]) + Encoded(value[1..])
  }

  lemma {:induction false} ReplaceCharConcat(a: string, b: string, c: char, with: string)
    ensures ReplaceChar(a + b, c, with) == ReplaceChar(a, c, with) + ReplaceChar(b, c, with)
  {
    if a == "" {
      assert a + b == b;
    } else {
      assert (a + b)[1..] == a[1..] + b;
      ReplaceCharConcat(a[1..], b, c, with);
    }
  }

  lemma ReplaceCharOne(c: char, old_: char, with: string)
    ensures ReplaceChar([c], old_, with) == if c == old_ then with else [c]
  {
    assert [c][1..] == "";
  }

  lemma ReplaceCharTwo(c: char, d: char, old_: char, with: string)
    requires c != old_ && d != old_
    ensures ReplaceChar([c, d], old_, with) == [c, d]
  {
    ReplaceCharOne(c, old_, with);
    ReplaceCharOne(d, old_, with);
    ReplaceCharConcat([c], [d], old_, with);
  }

  /** The three global replaces of `quoted` are one pass. */
  lemma {:induction false} EscapedIsEncoded(value: string)
    ensures Escaped(value) == Encoded(value)
  {
    if value != "" {
      var c, rest := value[0], value[1..];
      EscapedIsEncoded(rest);
      var first := if c == '\\' then "\\\\" else [c];
      var r1 := ReplaceChar(rest, '\\', "\\\\");
      ReplaceCharConcat(first, r1, '"', "\\\"");
      var second := if c == '"' then "\\\"" else first;
      if c == '\\' { ReplaceCharTwo('\\', '\\', '"', "\\\""); } else { ReplaceCharOne(c, '"', "\\\""); }
      var r2 := ReplaceChar(r1, '"', "\\\"");
      ReplaceCharConcat(second, r2, '\n', "\\n");
      if c == '\\' { ReplaceCharTwo('\\', '\\', '\n', "\\n"); }
      else if c == '"' { ReplaceCharTwo('\\', '"', '\n', "\\n"); }
      else { ReplaceCharOne(c, '\n', "\\n"); }
    }
  }

  // ---- the three replaces of `unquote`, one after another ------------------

  /** A backslash that is directly followed by `n`. */
  predicate Swallowed(value: string) {
    |value| >= 2 && value[0] == '\\' && value[1] == 'n'
  }

  /** What the first replace leaves of an encoded value. */
  function AfterNewlines(value: string): string
    decreases |value|
  {
    if value == "" then ""
    else if Swallowed(value) then "\\\n" + AfterNewlines(value[2..])
    else (if value[0] == '\n' then "\n" else Code(value[0])) + AfterNewlines(value[1..])
  }

  /** What the second leaves of that. */
  function AfterQuotes(value: string): string
    decreases |value|
  {
    if value == "" then ""
    else if Swallowed(value) then "\\\n" + AfterQuotes(value[2..])
    else (if value[0] == '\\' then "\\\\" else [value[0]]) + AfterQuotes(value[1..])
  }

  /** What the third leaves: the value, with every `n` directly after a backslash turned into a newline. */
  function Garbled(value: string): string
    decreases |value|
  {
    if value == "" then ""
    else if Swallowed(value) then "\\\n" + Garbled(value[2..])
    else [value[0]] + Garbled(value[1..])
  }

  lemma PairStep(s: string, p: char, q: char, r: char, tail: string)
    requires s == [p, q] + tail
    ensures ReplacePair(s, p, q, r) == [r] + ReplacePair(tail, p, q, r)
  {
    assert s[2..] == tail;
  }

  lemma CharStep(s: string, p: char, q: char, r: char, c: char, tail: string)
    requires s == [c] + tail
    requires !(c == p && tail != "" && tail[0] == q)
    ensures ReplacePair(s, p, q, r) == [c] + ReplacePair(tail, p, q, r)
  {
    assert s[1..] == tail;
  }

  lemma TwoCharStep(s: string, p: char, q: char, r: char, c: char, d: char, tail: string)
    requires s == [c, d] + tail
    requires !(c == p && d == q) && !(d == p && tail != "" && tail[0] == q)
    ensures ReplacePair(s, p, q, r) == [c, d] + ReplacePair(tail, p, q, r)
  {
    CharStep(s, p, q, r, c, [d] + tail);
    CharStep([d] + tail, p, q, r, d, tail);
  }

  lemma SwallowedPair(s: string, far: string)
    requires s == ['\\', '\\', 'n'] + far
    ensures ReplacePair(s, '\\', 'n', '\n') == ['\\', '\n'] + ReplacePair(far, '\\', 'n', '\n')
  {
    CharStep(s, '\\', 'n', '\n', '\\', ['\\', 'n'] + far);
    PairStep(['\\', 'n'] + far, '\\', 'n', '\n', far);
  }

  lemma SwallowedEncoded(value: string)
    requires value != "" && Swallowed(value)
    ensures Encoded(value) == ['\\', '\\', 'n'] + Encoded(value[2..])
  {
    var rest, far := value[1..], value[2..];
    assert rest[1..] == far && rest[0] == 'n';
    assert Encoded(rest) == ['n'] + Encoded(far);
    assert Encoded(value) == ['\\', '\\'] + Encoded(rest);
  }

  lemma SwallowedFirst(value: string)
    requires value != "" && Swallowed(value)
    requires ReplacePair(Encoded(value[2..]), '\\', 'n', '\n') == AfterNewlines(value[2..])
    ensures ReplacePair(Encoded(value), '\\', 'n', '\n') == AfterNewlines(value)
  {
    SwallowedEncoded(value);
    SwallowedPair(Encoded(value), Encoded(value[2..]));
  }

  lemma {:induction false} FirstReplace(value: string)
    ensures ReplacePair(Encoded(value), '\\', 'n', '\n') == AfterNewlines(value)
    decreases |value|
  {
    if value != "" {
      var c, rest := value[0], value[1..];
      var tail := Encoded(rest);
      if Swallowed(value) {
        FirstReplace(value[2..]);
        SwallowedFirst(value);
      } else {
        FirstReplace(rest);
        if c == '\n' {
          PairStep(Encoded(value), '\\', 'n', '\n', tail);
        } else if c == '\\' {
          TwoCharStep(Encoded(value), '\\', 'n', '\n', '\\', '\\', tail);
        } else if c == '"' {
          TwoCharStep(Encoded(value), '\\', 'n', '\n', '\\', '"', tail);
        } else {
          CharStep(Encoded(value), '\\', 'n', '\n', c, tail);
        }
      }
    }
  }

  lemma {:induction false} SecondReplace(value: string)
    ensures ReplacePair(AfterNewlines(value), '\\', '"', '"') == AfterQuotes(value)
    ensures AfterNewlines(value) == "" || AfterNewlines(value)[0] != '"'
    decreases |value|
  {
    if value != "" {
      var c := value[0];
      if Swallowed(value) {
        var far := value[2..];
        var tail := AfterNewlines(far);
        SecondReplace(far);
        TwoCharStep(AfterNewlines(value), '\\', '"', '"', '\\', '\n', tail);
      } else {
        var rest := value[1..];
        var tail := AfterNewlines(rest);
        SecondReplace(rest);
        if c == '"' {
          PairStep(AfterNewlines(value), '\\', '"', '"', tail);
        } else if c == '\\' {
          TwoCharStep(AfterNewlines(value), '\\', '"', '"', '\\', '\\', tail);
        } else {
          CharStep(AfterNewlines(value), '\\', '"', '"', c, tail);
        }
      }
    }
  }

  lemma {:induction false} ThirdReplace(value: string)
    ensures ReplacePair(AfterQuotes(value), '\\', '\\', '\\') == Garbled(value)
    decreases |value|
  {
    if value != "" {
      var c := value[0];
      if Swallowed(value) {
        var far := value[2..];
        var tail := AfterQuotes(far);
        ThirdReplace(far);
        TwoCharStep(AfterQuotes(value), '\\', '\\', '\\', '\\', '\n', tail);
      } else {
        var rest := value[1..];
        var tail := AfterQuotes(rest);
        ThirdReplace(rest);
        if c == '\\' {
          PairStep(AfterQuotes(value), '\\', '\\', '\\', tail);
        } else {
          CharStep(AfterQuotes(value), '\\', '\\', '\\', c, tail);
        }
      }
    }
  }

  /** What reading a written value gives back, for every value. */
  function Returned(value: string): string {
    if NeedsDouble(value) then Garbled(value) else value
  }

  lemma QuotedComesBack(value: string)
    ensures Unquote(Quoted(value)) == Returned(value)
  {
    var quoted := Quoted(value);
    if NeedsDouble(value) {
      EscapedIsEncoded(value);
      FirstReplace(value);
      SecondReplace(value);
      ThirdReplace(value);
      assert quoted[1..|quoted| - 1] == Escaped(value);
    } else {
      assert quoted[1..|quoted| - 1] == value;
    }
  }

  /** A backslash directly followed by `n`, anywhere in the value. */
  predicate HasBackslashN(value: string) {
    exists i :: 0 <= i < |value| - 1 && value[i] == '\\' && value[i + 1] == 'n'
  }

  lemma PairInRest(value: string)
    requires value != "" && !Swallowed(value)
    ensures HasBackslashN(value) <==> HasBackslashN(value[1..])
  {
    var rest := value[1..];
    if HasBackslashN(rest) {
      var i :| 0 <= i < |rest| - 1 && rest[i] == '\\' && rest[i + 1] == 'n';
      assert value[i + 1] == '\\' && value[i + 1 + 1] == 'n';
    }
    if HasBackslashN(value) {
      var i :| 0 <= i < |value| - 1 && value[i] == '\\' && value[i + 1] == 'n';
      assert i > 0;
      assert rest[i - 1] == '\\' && rest[i - 1 + 1] == 'n';
    }
  }

  lemma {:induction false} GarbledIff(value: string)
    ensures Garbled(value) == value <==> !HasBackslashN(value)
    decreases |value|
  {
    if value != "" {
      if Swallowed(value) {
        assert value[0] == '\\' && value[0 + 1] == 'n';
        assert Garbled(value)[1] == '\n';
      } else {
        var rest := value[1..];
        GarbledIff(rest);
        PairInRest(value);
        assert value == [value[0]] + rest;
        assert Garbled(value)[1..] == Garbled(rest);
      }
    }
  }

  /** The values a written file gives back unchanged. */
  predicate Survives(value: string) {
    '\'' in value || '\n' in value ==> !HasBackslashN(value)
  }

  lemma SurvivesIff(value: string)
    ensures Returned(value) == value <==> Survives(value)
  {
    GarbledIff(value);
  }

  // ---- a written line ------------------------------------------------------

  lemma {:induction false} EncodedHasNoNewline(value: string)
    ensures '\n' !in Encoded(value)
  {
    if value != "" {
      EncodedHasNoNewline(value[1..]);
    }
  }

  lemma QuotedIsOneLine(value: string)
    ensures '\n' !in Quoted(value)
    ensures |Quoted(value)| >= 2
    ensures !IsWhitespace(Quoted(value)[0]) && !IsWhitespace(Quoted(value)[|Quoted(value)| - 1])
    ensures Quoted(value)[|Quoted(value)| - 1] != '\r'
  {
    EscapedIsEncoded(value);
    EncodedHasNoNewline(value);
  }

  lemma NameEnds(name: string)
    requires Check(name) == None
    ensures name != "" && name[0] != '#' && !IsWhitespace(name[0]) && !IsWhitespace(name[|name| - 1])
  {
    CheckIff(name);
    assert NameCharacter(name[0]) && NameCharacter(name[|name| - 1]);
  }

  lemma PlainLineIsTrimmed(name: string, text: string)
    requires name != "" && !IsWhitespace(name[0]) && text != "" && !IsWhitespace(text[|text| - 1])
    ensures Trim(name + "=" + text) == name + "=" + text && TrimStart(name + "=" + text) == name + "=" + text
  {
    var line := name + "=" + text;
    assert line[0] == name[0] && line[|line| - 1] == text[|text| - 1];
    TrimmedStays(line);
  }

  lemma PlainLineSplits(name: string, text: string)
    requires Check(name) == None
    ensures var line := name + "=" + text;
            && Find(line, '=') == |name| < |line| && line[0] == name[0]
            && line[..|name|] == name && line[|name| + 1..] == text
  {
    var line := name + "=" + text;
    CheckIff(name);
    assert line[|name|] == '=';
    forall i | 0 <= i < |name| ensures line[i] != '=' { assert line[i] == name[i]; }
    FindIsFirst(line, '=', |name|);
  }

  /** A name, `=` and something that starts and ends in no whitespace are read as just that. */
  lemma PlainLineReads(name: string, text: string)
    requires Check(name) == None
    requires text != "" && !IsWhitespace(text[0]) && !IsWhitespace(text[|text| - 1])
    ensures ReadLine(name + "=" + text) == Assigned(name, Unquote(text))
  {
    CheckIff(name);
    NameEnds(name);
    TrimmedStays(name);
    TrimmedStays(text);
    PlainLineIsTrimmed(name, text);
    NotExported(name, text);
    PlainLineSplits(name, text);
  }

  lemma RenderedLineReads(v: Variable)
    requires Check(v.name) == None
    ensures ReadLine(RenderLine(v)) == Assigned(v.name, Returned(v.value))
  {
    QuotedIsOneLine(v.value);
    QuotedComesBack(v.value);
    PlainLineReads(v.name, Quoted(v.value));
  }

  lemma RenderedLineIsOneLine(v: Variable)
    requires Check(v.name) == None
    ensures '\n' !in RenderLine(v) && DropReturn(RenderLine(v)) == RenderLine(v)
  {
    var quoted, line := Quoted(v.value), RenderLine(v);
    CheckIff(v.name);
    QuotedIsOneLine(v.value);
    assert line[|line| - 1] == quoted[|quoted| - 1];
  }

  lemma NotExported(name: string, text: string)
    requires forall i :: 0 <= i < |name| ==> NameCharacter(name[i])
    ensures !(EXPORT <= name + "=" + text)
  {
    var line := name + "=" + text;
    assert line[|name|] == '=';
    assert |name| > 6 ==> line[6] == name[6];
  }

  // ---- the whole file --------------------------------------------------------

  predicate DistinctNames(variables: seq<Variable>) {
    forall i, j :: 0 <= i < j < |variables| ==> variables[i].name != variables[j].name
  }

  function AllReturned(variables: seq<Variable>): seq<Variable> {
    if variables == [] then []
    else [Variable(variables[0].name, Returned(variables[0].value))] + AllReturned(variables[1..])
  }

  function RenderedLines(variables: seq<Variable>): seq<string> {
    if variables == [] then [] else [RenderLine(variables[0])] + RenderedLines(variables[1..])
  }

  /** One assignment for every variable. */
  function Assignments(variables: seq<Variable>): seq<Reading> {
    if variables == [] then [] else [Assigned(variables[0].name, variables[0].value)] + Assignments(variables[1..])
  }

  lemma {:induction false} LinesOfRendered(variables: seq<Variable>)
    requires forall v :: v in variables ==> Check(v.name) == None
    ensures Lines(RenderVariables(variables)) == RenderedLines(variables)
  {
    if variables != [] {
      RenderedLineIsOneLine(variables[0]);
      LinesOfRendered(variables[1..]);
      LinesOfLine(RenderLine(variables[0]), RenderVariables(variables[1..]));
    }
  }

  predicate Apart(done: seq<Variable>, given: seq<Variable>) {
    forall w, v :: w in done && v in given ==> w.name != v.name
  }

  lemma NewNameIsTaken(out: Parsed, v: Variable, number: nat)
    requires forall w :: w in out.variables ==> w.name != v.name
    ensures Take(out, Assigned(v.name, v.value), number) == out.(variables := out.variables + [v])
  {
    AssignAt(out.variables, v.name, v.value, |out.variables|);
  }

  /** Assignments of new names leave the variables they set, in order. */
  lemma {:induction false} AssignmentsAreTaken(out: Parsed, given: seq<Variable>, number: nat)
    requires DistinctNames(given) && Apart(out.variables, given)
    ensures TakeAll(out, Assignments(given), number) == out.(variables := out.variables + given)
    decreases |given|
  {
    if given == [] {
      assert out.variables + given == out.variables;
    } else {
      var v, rest := given[0], given[1..];
      var next := out.(variables := out.variables + [v]);
      assert v in given;
      NewNameIsTaken(out, v, number);
      assert Assignments(given) == [Assigned(v.name, v.value)] + Assignments(rest);
      assert Assignments(given)[1..] == Assignments(rest);
      assert TakeAll(out, Assignments(given), number) == TakeAll(next, Assignments(rest), number + 1);
      StillApart(out.variables, given);
      AssignmentsAreTaken(next, rest, number + 1);
      assert next.variables + rest == out.variables + given;
    }
  }

  /** Moving the first variable across keeps the two lists' names apart. */
  lemma StillApart(done: seq<Variable>, given: seq<Variable>)
    requires given != [] && DistinctNames(given) && Apart(done, given)
    ensures DistinctNames(given[1..]) && Apart(done + [given[0]], given[1..])
  {
    var rest := given[1..];
    assert forall j :: 0 <= j < |rest| ==> rest[j] == given[j + 1];
    forall w, v | w in done + [given[0]] && v in rest ensures w.name != v.name {
      var j :| 0 <= j < |rest| && rest[j] == v;
      assert v == given[j + 1];
    }
  }

  lemma {:induction false} RenderedLinesRead(variables: seq<Variable>)
    requires forall v :: v in variables ==> Check(v.name) == None
    ensures ReadAll(RenderedLines(variables)) == Assignments(AllReturned(variables))
  {
    if variables != [] {
      RenderedLineReads(variables[0]);
      RenderedLinesRead(variables[1..]);
      assert RenderedLines(variables)[1..] == RenderedLines(variables[1..]);
      assert AllReturned(variables)[1..] == AllReturned(variables[1..]);
    }
  }

  lemma {:induction false} ReturnedNames(variables: seq<Variable>)
    ensures |AllReturned(variables)| == |variables|
    ensures forall i :: 0 <= i < |variables| ==> AllReturned(variables)[i].name == variables[i].name
  {
    if variables != [] {
      ReturnedNames(variables[1..]);
    }
  }

  /** A line of the file's own, which no reader takes for a variable. */
  predicate Comment(line: string) {
    '\n' !in line && DropReturn(line) == line && line != "" && line[0] == '#' && !IsWhitespace(line[|line| - 1])
  }

  lemma CommentIsSkipped(line: string)
    requires Comment(line)
    ensures ReadLine(line) == Skipped
  {
    assert Trim(line) == line;
  }

  // Both are too long to be read at once, so they are in longer and longer openings.

  lemma HeaderOpens()
    ensures WRITTEN[0] == '#' && EDITS[0] == '#'
  {
    assert "# Written by Fire"[0] == '#';
    assert "# Written by Firetower when this ses"[0] == '#';
    assert "# Edits are lost "[0] == '#';
    assert "# Edits are lost the next time a se"[0] == '#';
    assert "# Edits are lost the next time a session on this rep"[0] == '#';
  }

  lemma WrittenHoldsNoNewline()
    ensures '\n' !in WRITTEN
  {
    assert '\n' !in "# Written by Fire";
    assert '\n' !in "# Written by Firetower when this ses";
  }

  lemma EditsHoldsNoNewline()
    ensures '\n' !in EDITS
  {
    assert '\n' !in "# Edits are lost ";
    assert '\n' !in "# Edits are lost the next time a se";
    assert '\n' !in "# Edits are lost the next time a session on this rep";
  }

  lemma HeaderIsComments()
    ensures Comment(WRITTEN) && Comment(EDITS)
  {
    HeaderOpens();
    WrittenHoldsNoNewline();
    EditsHoldsNoNewline();
    assert WRITTEN[|WRITTEN| - 1] == '.' && EDITS[|EDITS| - 1] == '.';
  }

  lemma TwoCommentsRead(a: string, b: string, body: string)
    requires Comment(a) && Comment(b)
    ensures ReadAll(Lines(a + "\n" + (b + "\n" + body))) == [Skipped, Skipped] + ReadAll(Lines(body))
  {
    LinesOfLine(a, b + "\n" + body);
    LinesOfLine(b, body);
    CommentIsSkipped(a);
    CommentIsSkipped(b);
    ReadAllCons(a, [b] + Lines(body));
    ReadAllCons(b, Lines(body));
  }

  lemma ReadAllCons(line: string, lines: seq<string>)
    ensures ReadAll([line] + lines) == [ReadLine(line)] + ReadAll(lines)
  {
    assert ([line] + lines)[1..] == lines;
  }

  lemma SkippedAreTaken(out: Parsed, readings: seq<Reading>)
    ensures TakeAll(out, [Skipped, Skipped] + readings, 1) == TakeAll(out, readings, 3)
  {
    var all := [Skipped, Skipped] + readings;
    assert all[1..] == [Skipped] + readings && all[1..][1..] == readings;
    assert TakeAll(out, all, 1) == TakeAll(out, all[1..], 2);
  }

  /** For every list of accepted, distinct names: what a file written with it reads back as. */
  lemma {:induction false} RenderedFileReads(variables: seq<Variable>)
    requires forall v :: v in variables ==> Check(v.name) == None
    requires DistinctNames(variables)
    ensures Parsing(Rendering(variables)) == Parsed(AllReturned(variables), [])
  {
    HeaderIsComments();
    TwoCommentsRead(WRITTEN, EDITS, RenderVariables(variables));
    LinesOfRendered(variables);
    RenderedLinesRead(variables);
    SkippedAreTaken(Parsed([], []), Assignments(AllReturned(variables)));
    ReturnedNames(variables);
    AssignmentsAreTaken(Parsed([], []), AllReturned(variables), 3);
    assert [] + AllReturned(variables) == AllReturned(variables);
  }

  /** A written file opens with two lines of its own, and holds one for each variable after them. */
  lemma ARenderedFileOpens(variables: seq<Variable>)
    ensures Rendering(variables) ==
            "# Written by Firetower when this session started." + "\n"
            + ("# Edits are lost the next time a session on this repository starts." + "\n"
               + RenderVariables(variables))
    ensures variables != [] ==>
            var v := variables[0];
            RenderVariables(variables) ==
            v.name + "="
            + (if '\'' in v.value || '\n' in v.value then "\"" + Escaped(v.value) + "\"" else "'" + v.value + "'")
            + "\n" + RenderVariables(variables[1..])
  {
  }

  lemma {:induction false} AllReturnedIff(variables: seq<Variable>)
    ensures AllReturned(variables) == variables <==> forall v :: v in variables ==> Survives(v.value)
  {
    if variables != [] {
      AllReturnedIff(variables[1..]);
      SurvivesIff(variables[0].value);
      assert variables == [variables[0]] + variables[1..];
      if AllReturned(variables) == variables {
        assert AllReturned(variables)[1..] == variables[1..] && AllReturned(variables)[0] == variables[0];
      }
    }
  }

  /**
   What is written reads back identically, with nothing rejected, exactly when no
   value that needs double quotes has a backslash directly followed by `n`.
   */
  lemma {:induction false} RoundTripIff(variables: seq<Variable>)
    requires forall v :: v in variables ==> Check(v.name) == None
    requires DistinctNames(variables)
    ensures Parsing(Rendering(variables)).rejected == []
    ensures Parsing(Rendering(variables)).variables == variables <==> forall v :: v in variables ==> Survives(v.value)
  {
    RenderedFileReads(variables);
    AllReturnedIff(variables);
  }

  /** A file that does not return what was written: a quote, and a Windows path under `new`. */
  lemma {:induction false} AValueIsLost()
    ensures var variables := [Variable("GREETING", "it's C:\\new")];
            Parsing(Rendering(variables)) != Parsed(variables, [])
  {
    var name, value := "GREETING", "it's C:\\new";
    var variables := [Variable(name, value)];
    assert Alphabetic(name[0]) && forall i :: 0 <= i < |name| ==> NameCharacter(name[i]);
    CheckIff(name);
    assert value[2] == '\'' && value[7] == '\\' && value[7 + 1] == 'n';
    assert !Survives(variables[0].value);
    RoundTripIff(variables);
  }

  // ---- any pasted file ---------------------------------------------------------

  /** The value the last accepted line gives a name. */
  function LastAssigned(readings: seq<Reading>, name: string): Option<string>
    decreases |readings|
  {
    if readings == [] then None
    else
      var last := readings[|readings| - 1];
      if last.Assigned? && last.name == name then Some(last.value) else LastAssigned(readings[..|readings| - 1], name)
  }

  function Lookup(variables: seq<Variable>, name: string): Option<string> {
    if variables == [] then None
    else if variables[0].name == name then Some(variables[0].value)
    else Lookup(variables[1..], name)
  }

  lemma {:induction false} AssignSets(variables: seq<Variable>, name: string, value: string, other: string)
    ensures Lookup(Assign(variables, name, value), other) ==
            if other == name then Some(value) else Lookup(variables, other)
    ensures forall v :: v in Assign(variables, name, value) ==>
              v.name == name || exists w :: w in variables && w.name == v.name
    ensures DistinctNames(variables) ==> DistinctNames(Assign(variables, name, value))
  {
    if variables != [] && variables[0].name != name {
      var rest := Assign(variables[1..], name, value);
      AssignSets(variables[1..], name, value, other);
      if DistinctNames(variables) {
        forall j | 0 <= j < |rest| ensures rest[j].name != variables[0].name {
          assert rest[j] in rest;
          if rest[j].name != name {
            var w :| w in variables[1..] && w.name == rest[j].name;
            var k :| 0 <= k < |variables[1..]| && variables[1..][k] == w;
            assert variables[k + 1].name != variables[0].name;
          }
        }
        assert DistinctNames(variables[1..]) by {
          forall i, j | 0 <= i < j < |variables[1..]| ensures variables[1..][i].name != variables[1..][j].name {
            assert variables[i + 1].name != variables[j + 1].name;
          }
        }
      }
    }
  }

  lemma {:induction false} TakeAllSnoc(out: Parsed, readings: seq<Reading>, last: Reading, number: nat)
    ensures TakeAll(out, readings + [last], number) == Take(TakeAll(out, readings, number), last, number + |readings|)
    decreases |readings|
  {
    if readings == [] {
      assert readings + [last] == [last] && [last][1..] == [];
    } else {
      assert (readings + [last])[1..] == readings[1..] + [last];
      TakeAllSnoc(Take(out, readings[0], number), readings[1..], last, number + 1);
    }
  }

  lemma {:induction false} ReadAllAt(lines: seq<string>)
    ensures |ReadAll(lines)| == |lines|
    ensures forall i :: 0 <= i < |lines| ==> ReadAll(lines)[i] == ReadLine(lines[i])
  {
    if lines != [] {
      ReadAllAt(lines[1..]);
    }
  }

  /** Whether the parse says a line could not be used, and why. */
  predicate IsRejected(out: Parsed, number: nat, reason: Reason) {
    Rejected(number, reason) in out.rejected
  }

  /**
   Each name is stored once, with the value of its last assignment, and a line
   is rejected exactly when it could not be used.
   */
  lemma {:induction false} LastAssignmentWins(readings: seq<Reading>, name: string, number: nat, reason: Reason)
    ensures
      var out := TakeAll(Parsed([], []), readings, 1);
      && DistinctNames(out.variables)
      && Lookup(out.variables, name) == LastAssigned(readings, name)
      && (IsRejected(out, number, reason) <==> 1 <= number <= |readings| && readings[number - 1] == Refused(reason))
    decreases |readings|
  {
    if readings != [] {
      var before, last := readings[..|readings| - 1], readings[|readings| - 1];
      LastAssignmentWins(before, name, number, reason);
      assert readings == before + [last];
      TakeAllSnoc(Parsed([], []), before, last, 1);
      var out := TakeAll(Parsed([], []), before, 1);
      if last.Assigned? {
        AssignSets(out.variables, last.name, last.value, name);
      }
    }
  }

  /** The same for every pasted text, by its lines. */
  lemma LastDefinitionWins(text: string, name: string, number: nat, reason: Reason)
    ensures
      var out, lines := Parsing(text), Lines(text);
      && DistinctNames(out.variables)
      && Lookup(out.variables, name) == LastAssigned(ReadAll(lines), name)
      && (IsRejected(out, number, reason) <==> 1 <= number <= |lines| && ReadLine(lines[number - 1]) == Refused(reason))
  {
    ReadAllAt(Lines(text));
    LastAssignmentWins(ReadAll(Lines(text)), name, number, reason);
  }
}
