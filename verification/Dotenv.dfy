/** The dotenv file: which names and lines are accepted, what a value reads as, how a list is written. */
module Dotenv {
  import opened Common
  import opened Text

  datatype Variable = Variable(name: string, value: string)

  /** Why a line could not be used. */
  datatype Reason = NoEquals | NoName | BadStart(first: char) | BadCharacter(bad: char)

  datatype Rejected = Rejected(line: nat, reason: Reason)

  datatype Parsed = Parsed(variables: seq<Variable>, rejected: seq<Rejected>)

  // ---- names -------------------------------------------------------------

  predicate Alphabetic(c: char) {
    'a' <= c <= 'z' || 'A' <= c <= 'Z'
  }

  predicate NameCharacter(c: char) {
    Alphabetic(c) || '0' <= c <= '9' || c == '_'
  }

  function FirstBad(rest: string): Option<Reason> {
    if rest == "" then None
    else if NameCharacter(rest[0]) then FirstBad(rest[1..])
    else Some(BadCharacter(rest[0]))
  }

  /** Why a shell would not take the name, if it would not. */
  function Check(name: string): Option<Reason> {
    if name == "" then Some(NoName)
    else if !(Alphabetic(name[0]) || name[0] == '_') then Some(BadStart(name[0]))
    else FirstBad(name[1..])
  }

  lemma {:induction false} FirstBadIff(rest: string)
    ensures FirstBad(rest) == None <==> forall i :: 0 <= i < |rest| ==> NameCharacter(rest[i])
  {
    if rest != "" {
      FirstBadIff(rest[1..]);
      assert forall i :: 0 <= i < |rest| - 1 ==> rest[1..][i] == rest[i + 1];
      if FirstBad(rest) == None {
        forall i | 0 <= i < |rest| ensures NameCharacter(rest[i]) {
          if i > 0 { assert rest[i] == rest[1..][i - 1]; }
        }
      }
    }
  }

  /** A name is accepted exactly when it is letters, digits and `_`, and no digit first. */
  lemma CheckIff(name: string)
    ensures Check(name) == None <==>
      && name != "" && !('0' <= name[0] <= '9')
      && forall i :: 0 <= i < |name| ==> NameCharacter(name[i])
  {
    if name != "" {
      FirstBadIff(name[1..]);
      assert forall i :: 0 <= i < |name| - 1 ==> name[1..][i] == name[i + 1];
      if Check(name) == None {
        forall i | 0 <= i < |name| ensures NameCharacter(name[i]) {
          if i > 0 { assert name[i] == name[1..][i - 1]; }
        }
      }
    }
  }

  lemma {:induction false} FirstBadIsFirst(rest: string, i: nat)
    requires i < |rest| && !NameCharacter(rest[i])
    requires forall k :: 0 <= k < i ==> NameCharacter(rest[k])
    ensures FirstBad(rest) == Some(BadCharacter(rest[i]))
    decreases |rest|
  {
    if i > 0 {
      assert NameCharacter(rest[0]);
      FirstBadIsFirst(rest[1..], i - 1);
    }
  }

  /** A refused name is refused for its first character that cannot stand where it does. */
  lemma {:induction false} RefusedForTheFirst(name: string, i: nat)
    requires i < |name| && (if i == 0 then !Alphabetic(name[0]) && name[0] != '_' else !NameCharacter(name[i]))
    requires i > 0 ==> Alphabetic(name[0]) || name[0] == '_'
    requires forall k :: 1 <= k < i ==> NameCharacter(name[k])
    ensures Check(name) == Some(if i == 0 then BadStart(name[0]) else BadCharacter(name[i]))
  {
    if i > 0 {
      FirstBadIsFirst(name[1..], i - 1);
    }
  }

  // ---- quoting -----------------------------------------------------------

  /** Every `c` replaced by `with`. */
  function ReplaceChar(s: string, c: char, with: string): string {
    if s == "" then ""
    else (if s[0] == c then with else [s[0]]) + ReplaceChar(s[1..], c, with)
  }

  /** Every `p` followed by `q`, from the left and not overlapping, replaced by `r`. */
  function ReplacePair(s: string, p: char, q: char, r: char): string
    decreases |s|
  {
    if |s| < 2 then s
    else if s[0] == p && s[1] == q then [r] + ReplacePair(s[2..], p, q, r)
    else [s[0]] + ReplacePair(s[1..], p, q, r)
  }

  predicate NeedsDouble(value: string) {
    '\'' in value || '\n' in value
  }

  function Escaped(value: string): string {
    ReplaceChar(ReplaceChar(ReplaceChar(value, '\\', "\\\\"), '"', "\\\""), '\n', "\\n")
  }

  function Unescaped(inner: string): string {
    ReplacePair(ReplacePair(ReplacePair(inner, '\\', 'n', '\n'), '\\', '"', '"'), '\\', '\\', '\\')
  }

  /** A value as written: escaped in double quotes when it holds a character single quotes cannot carry. */
  function Quoted(value: string): string {
    if NeedsDouble(value) then "\"" + Escaped(value) + "\"" else "'" + value + "'"
  }

  /** Where a space followed by `#` first stands, or the length where none does. */
  function FindComment(s: string): (at: nat)
    ensures at <= |s|
    decreases |s|
  {
    if |s| < 2 then |s|
    else if s[0] == ' ' && s[1] == '#' then 0
    else FindComment(s[1..]) + 1
  }

  predicate Within(value: string, quote: char) {
    |value| >= 2 && value[0] == quote && value[|value| - 1] == quote
  }

  /** Strip the quotes a value was written with; an unquoted one ends at a comment. */
  function Unquote(value: string): string {
    if Within(value, '\'') then value[1..|value| - 1]
    else if Within(value, '"') then Unescaped(value[1..|value| - 1])
    else
      var at := FindComment(value);
      if at < |value| then TrimEnd(value[..at]) else value
  }

  // ---- one line ----------------------------------------------------------

  datatype Reading = Skipped | Refused(reason: Reason) | Assigned(name: string, value: string)

  const EXPORT: string := "export "

  function ReadLine(raw: string): Reading {
    var line := Trim(raw);
    if line == "" || line[0] == '#' then Skipped
    else
      var bare := TrimStart(if EXPORT <= line then line[|EXPORT|..] else line);
      var at := Find(bare, '=');
      if at == |bare| then Refused(NoEquals)
      else
        var name := Trim(bare[..at]);
        match Check(name)
        case Some(reason) => Refused(reason)
        case None => Assigned(name, Unquote(Trim(bare[at + 1..])))
  }

  /** A later definition replaces an earlier one where it stands. */
  function Assign(variables: seq<Variable>, name: string, value: string): seq<Variable> {
    if variables == [] then [Variable(name, value)]
    else if variables[0].name == name then [Variable(name, value)] + variables[1..]
    else [variables[0]] + Assign(variables[1..], name, value)
  }

  /** What one line's reading does to what was parsed so far. */
  function Take(out: Parsed, reading: Reading, number: nat): Parsed {
    match reading
    case Skipped => out
    case Refused(reason) => out.(rejected := out.rejected + [Rejected(number, reason)])
    case Assigned(name, value) => out.(variables := Assign(out.variables, name, value))
  }

  function ReadAll(lines: seq<string>): seq<Reading> {
    if lines == [] then [] else [ReadLine(lines[0])] + ReadAll(lines[1..])
  }

  function TakeAll(out: Parsed, readings: seq<Reading>, number: nat): Parsed
    decreases |readings|
  {
    if readings == [] then out else TakeAll(Take(out, readings[0], number), readings[1..], number + 1)
  }

  function Parsing(text: string): Parsed {
    TakeAll(Parsed([], []), ReadAll(Lines(text)), 1)
  }

  /** The first variable of that name, or the length where there is none. */
  method FindVariable(variables: seq<Variable>, name: string) returns (at: nat)
    ensures at <= |variables|
    ensures at < |variables| ==> variables[at].name == name
    ensures forall i :: 0 <= i < at ==> variables[i].name != name
  {
    at := 0;
    while at < |variables| && variables[at].name != name
      invariant at <= |variables|
      invariant forall i :: 0 <= i < at ==> variables[i].name != name
    {
      at := at + 1;
    }
  }

  lemma {:induction false} AssignAt(variables: seq<Variable>, name: string, value: string, at: nat)
    requires at <= |variables|
    requires at < |variables| ==> variables[at].name == name
    requires forall i :: 0 <= i < at ==> variables[i].name != name
    ensures Assign(variables, name, value) ==
            if at < |variables| then variables[at := Variable(name, value)] else variables + [Variable(name, value)]
  {
    if variables != [] && at > 0 {
      AssignAt(variables[1..], name, value, at - 1);
    }
  }

  /** Read a `.env`. */
  method Parse(text: string) returns (out: Parsed)
    ensures out == Parsing(text)
  {
    out := Parsed([], []);
    var lines := Lines(text);
    for n := 0 to |lines|
      invariant TakeAll(out, ReadAll(lines[n..]), n + 1) == Parsing(text)
    {
      assert lines[n..][0] == lines[n] && lines[n..][1..] == lines[n + 1..];
      var reading := ReadLine(lines[n]);
      assert ReadAll(lines[n..]) == [reading] + ReadAll(lines[n + 1..]);
      assert ReadAll(lines[n..])[1..] == ReadAll(lines[n + 1..]);
      match reading {
        case Skipped =>
        case Refused(reason) =>
          out := out.(rejected := out.rejected + [Rejected(n + 1, reason)]);
        case Assigned(name, value) =>
          var at := FindVariable(out.variables, name);
          AssignAt(out.variables, name, value, at);
          if at < |out.variables| {
            out := out.(variables := out.variables[at := Variable(name, value)]);
          } else {
            out := out.(variables := out.variables + [Variable(name, value)]);
          }
      }
    }
    assert lines[|lines|..] == [];
  }

  // ---- writing -----------------------------------------------------------

  const WRITTEN: string := "# Written by Firetower when this session started."
  const EDITS: string := "# Edits are lost the next time a session on this repository starts."

  function RenderLine(v: Variable): string {
    v.name + "=" + Quoted(v.value)
  }

  function RenderVariables(variables: seq<Variable>): string {
    if variables == [] then "" else RenderLine(variables[0]) + "\n" + RenderVariables(variables[1..])
  }

  function Rendering(variables: seq<Variable>): string {
    WRITTEN + "\n" + (EDITS + "\n" + RenderVariables(variables))
  }

  /** Write the file back out. */
  method Render(variables: seq<Variable>) returns (out: string)
    ensures out == Rendering(variables)
  {
    out := WRITTEN + "\n" + (EDITS + "\n");
    var rest := variables;
    while rest != []
      invariant out + RenderVariables(rest) == Rendering(variables)
      decreases |rest|
    {
      var line := RenderLine(rest[0]) + "\n";
      assert out + RenderVariables(rest) == (out + line) + RenderVariables(rest[1..]);
      out := out + line;
      rest := rest[1..];
    }
    assert out + "" == out;
  }
}
