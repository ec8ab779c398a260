/** Text as the sources' libraries read it: whitespace, lines, the first place a character stands. */
module Text {
  import opened Common

  /** The characters with Unicode's `White_Space` property. */
  predicate IsWhitespace(c: char) {
    || '\t' <= c <= '\r' || c == ' ' || c == '\U{85}' || c == '\U{A0}' || c == '\U{1680}'
    || '\U{2000}' <= c <= '\U{200A}' || c == '\U{2028}' || c == '\U{2029}' || c == '\U{202F}'
    || c == '\U{205F}' || c == '\U{3000}'
  }

  const BLANKS: string := "\t\n\U{B}\U{C}\r \U{85}\U{A0}\U{1680}"
  const SPACES: string := "\U{2000}\U{2001}\U{2002}\U{2003}\U{2004}\U{2005}\U{2006}\U{2007}\U{2008}\U{2009}\U{200A}"
  const OTHERS: string := "\U{2028}\U{2029}\U{202F}\U{205F}\U{3000}"

  /** They are these twenty-five. */
  lemma TheWhitespace(c: char)
    ensures IsWhitespace(c) <==> c in BLANKS || c in SPACES || c in OTHERS
    ensures |BLANKS| + |SPACES| + |OTHERS| == 25
  {
  }

  function TrimStart(s: string): string {
    if s != "" && IsWhitespace(s[0]) then TrimStart(s[1..]) else s
  }

  function TrimEnd(s: string): string {
    if s != "" && IsWhitespace(s[|s| - 1]) then TrimEnd(s[..|s| - 1]) else s
  }

  function Trim(s: string): string {
    TrimEnd(TrimStart(s))
  }

  /** Trimming the end leaves a prefix that does not end in whitespace. */
  lemma {:induction false} TrimEndIsPrefix(s: string)
    ensures TrimEnd(s) <= s
    ensures TrimEnd(s) == "" || !IsWhitespace(TrimEnd(s)[|TrimEnd(s)| - 1])
    ensures forall i :: |TrimEnd(s)| <= i < |s| ==> IsWhitespace(s[i])
    decreases |s|
  {
    if s != "" && IsWhitespace(s[|s| - 1]) {
      TrimEndIsPrefix(s[..|s| - 1]);
    }
  }

  predicate EndsInWhitespace(s: string) {
    s != "" && IsWhitespace(s[|s| - 1])
  }

  lemma {:induction false} TrimEndOf(text: string, tail: string)
    requires !EndsInWhitespace(text) && forall c :: c in tail ==> IsWhitespace(c)
    ensures TrimEnd(text + tail) == text
    decreases |tail|
  {
    var all := text + tail;
    if tail == "" {
      assert all == text;
    } else {
      assert all[|all| - 1] == tail[|tail| - 1] && tail[|tail| - 1] in tail;
      assert all[..|all| - 1] == text + tail[..|tail| - 1];
      TrimEndOf(text, tail[..|tail| - 1]);
    }
  }

  lemma TrimmedStays(s: string)
    requires s != "" && !IsWhitespace(s[0]) && !IsWhitespace(s[|s| - 1])
    ensures TrimStart(s) == s && TrimEnd(s) == s && Trim(s) == s
  {
  }

  /** Where `c` first stands, or the length where it does not. */
  function Find(s: string, c: char): (at: nat)
    ensures at <= |s|
    ensures forall i :: 0 <= i < at ==> s[i] != c
    ensures at < |s| ==> s[at] == c
  {
    if s == "" || s[0] == c then 0
    else
      var rest := Find(s[1..], c);
      rest + 1
  }

  lemma FindIsFirst(s: string, c: char, at: nat)
    requires at < |s| && s[at] == c
    requires forall i :: 0 <= i < at ==> s[i] != c
    ensures Find(s, c) == at
  {
  }

  lemma FindNowhere(s: string, c: char)
    requires c !in s
    ensures Find(s, c) == |s|
  {
  }

  /** A line without the carriage return that stood before its newline. */
  function DropReturn(line: string): string {
    if line != "" && line[|line| - 1] == '\r' then line[..|line| - 1] else line
  }

  /** The lines of a text; the newline after the last of them is optional. */
  function Lines(text: string): seq<string>
    decreases |text|
  {
    if text == "" then []
    else
      var at := Find(text, '\n');
      if at == |text| then [text]
      else [DropReturn(text[..at])] + Lines(text[at + 1..])
  }

  lemma LinesOfLine(line: string, rest: string)
    requires '\n' !in line && DropReturn(line) == line
    ensures Lines(line + "\n" + rest) == [line] + Lines(rest)
  {
    var text := line + "\n" + rest;
    assert text[|line|] == '\n';
    forall i | 0 <= i < |line| ensures text[i] != '\n' { assert text[i] == line[i]; assert line[i] in line; }
    FindIsFirst(text, '\n', |line|);
    assert text[..|line|] == line && text[|line| + 1..] == rest;
  }

  lemma LinesOfReturn(line: string, rest: string)
    requires '\n' !in line
    ensures Lines(line + "\r\n" + rest) == [line] + Lines(rest)
  {
    var text := line + "\r\n" + rest;
    assert text[|line|] == '\r' && text[|line| + 1] == '\n';
    forall i | 0 <= i < |line| ensures text[i] != '\n' { assert text[i] == line[i]; assert line[i] in line; }
    FindIsFirst(text, '\n', |line| + 1);
    assert text[..|line| + 1] == line + "\r" && text[|line| + 2..] == rest;
  }

  /** The pieces of a text between its newlines, an empty one at the end included. */
  function Split(text: string): seq<string>
    decreases |text|
  {
    var at := Find(text, '\n');
    if at == |text| then [text] else [text[..at]] + Split(text[at + 1..])
  }

  function Join(pieces: seq<string>): string
    requires pieces != []
  {
    if |pieces| == 1 then pieces[0] else pieces[0] + "\n" + Join(pieces[1..])
  }

  lemma SplitFirst(first: string, rest: string)
    requires '\n' !in first
    ensures Split(first + "\n" + rest) == [first] + Split(rest)
  {
    var text := first + "\n" + rest;
    assert text[|first|] == '\n';
    forall i | 0 <= i < |first| ensures text[i] != '\n' { assert text[i] == first[i]; assert first[i] in first; }
    FindIsFirst(text, '\n', |first|);
    assert text[..|first|] == first && text[|first| + 1..] == rest;
  }

  lemma {:induction false} SplitJoin(pieces: seq<string>)
    requires pieces != [] && forall i :: 0 <= i < |pieces| ==> '\n' !in pieces[i]
    ensures Split(Join(pieces)) == pieces
  {
    if |pieces| == 1 {
      FindNowhere(Join(pieces), '\n');
    } else {
      SplitJoin(pieces[1..]);
      SplitFirst(pieces[0], Join(pieces[1..]));
    }
  }

  /** Whether `mark` stands at `at`. */
  predicate StandsAt(text: string, mark: string, at: nat) {
    at + |mark| <= |text| && text[at..at + |mark|] == mark
  }

  /** The last place before `before` where `mark` stands. */
  function LastAt(text: string, mark: string, before: nat): (at: Option<nat>)
    ensures at.Some? ==> at.value < before && StandsAt(text, mark, at.value)
  {
    if before == 0 then None
    else if StandsAt(text, mark, before - 1) then Some(before - 1)
    else LastAt(text, mark, before - 1)
  }

  lemma {:induction false} LastAtIsLast(text: string, mark: string, before: nat, at: nat)
    requires at < before && StandsAt(text, mark, at)
    requires forall k: nat :: at < k < before ==> !StandsAt(text, mark, k)
    ensures LastAt(text, mark, before) == Some(at)
    decreases before
  {
    if before - 1 > at {
      LastAtIsLast(text, mark, before - 1, at);
    }
  }

  lemma {:induction false} LastAtIsNotBefore(text: string, mark: string, before: nat, k: nat)
    requires k < before && StandsAt(text, mark, k)
    ensures LastAt(text, mark, before).Some? && LastAt(text, mark, before).value >= k
    decreases before
  {
    if before - 1 > k {
      LastAtIsNotBefore(text, mark, before - 1, k);
    }
  }
}
