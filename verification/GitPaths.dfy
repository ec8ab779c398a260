/**
 The file a chunk of a diff is about, read from the lines above its first hunk:
 the `+++` and `---` pair, a rename, git's line for a binary file, the header.
 */
module GitPaths {
  import opened Common
  import opened Text
  import opened GitNames
  import opened GitHeaders

  const NEW_NAME: string := "+++ "
  const OLD_NAME: string := "--- "
  const RENAMED: string := "rename to "
  const COPIED: string := "copy to "
  const BINARY: string := "Binary files "
  const DIFFER: string := " differ"
  const AND: string := " and "

  // ---- the lines above the first hunk ----------------------------------------------

  /** Whether a hunk's `@@` opens the next line. */
  predicate HunkFollows(text: string) {
    |text| >= 3 && text[0] == '\n' && text[1] == '@' && text[2] == '@'
  }

  function AboveHunks(chunk: string): string {
    if chunk == "" || HunkFollows(chunk) then "" else [chunk[0]] + AboveHunks(chunk[1..])
  }

  /** The first line under `mark` whose side has a name. */
  function Named(lines: seq<string>, mark: string): Option<seq<Byte>> {
    if lines == [] then None
    else if mark <= lines[0] && OneSide(lines[0][|mark|..]).Some? then OneSide(lines[0][|mark|..])
    else Named(lines[1..], mark)
  }

  /** What follows `rename to` or `copy to`, on the first line with either. */
  function Moved(lines: seq<string>): Option<seq<Byte>> {
    if lines == [] then None
    else if RENAMED <= lines[0] then Some(Unquoted(TrimEnd(lines[0][|RENAMED|..])))
    else if COPIED <= lines[0] then Some(Unquoted(TrimEnd(lines[0][|COPIED|..])))
    else Moved(lines[1..])
  }

  /** What stands between `Binary files` and `differ`, on the first such line. */
  function BinaryBody(lines: seq<string>): Option<string> {
    if lines == [] then None
    else
      var rest := if BINARY <= lines[0] then lines[0][|BINARY|..] else "";
      if BINARY <= lines[0] && |rest| >= |DIFFER| && rest[|rest| - |DIFFER|..] == DIFFER
      then Some(rest[..|rest| - |DIFFER|])
      else BinaryBody(lines[1..])
  }

  /** Either side of a binary file's line, split at the last ` and `, the name after the change first. */
  function BinaryName(body: string): Option<seq<Byte>> {
    match LastAt(body, AND, |body|)
    case None => None
    case Some(at) => OneSide(body[at + |AND|..]).Or(OneSide(body[..at]))
  }

  function PathOf(lines: seq<string>): seq<Byte> {
    var named := Named(lines, NEW_NAME).Or(Named(lines, OLD_NAME));
    if named.Some? then named.value
    else if Moved(lines).Some? then Moved(lines).value
    else
      var body := BinaryBody(lines);
      var binary := if body.Some? then BinaryName(body.value) else None;
      binary.Or(if lines == [] then HeaderPath("") else HeaderPath(lines[0])).GetOr(Utf8All("unknown"))
  }

  function PathIn(chunk: string): seq<Byte> {
    PathOf(Lines(AboveHunks(chunk)))
  }

  // ---- a chunk as git prints it -------------------------------------------------------

  /** Lines as they stand above the hunks; the hunks, if any, open with `@@` on a line of their own. */
  predicate Above(lines: seq<string>, hunks: string) {
    && lines != []
    && (forall i :: 0 <= i < |lines| ==> '\n' !in lines[i] && lines[i] != "" && DropReturn(lines[i]) == lines[i])
    && (forall i :: 1 <= i < |lines| ==> !("@@" <= lines[i]))
    && (hunks == "" || "\n@@" <= hunks)
  }

  lemma {:induction false} AboveALine(line: string, rest: string)
    requires '\n' !in line
    ensures AboveHunks(line + rest) == line + AboveHunks(rest)
    decreases |line|
  {
    var text := line + rest;
    if line == "" {
      assert text == rest;
    } else {
      assert text[0] == line[0] && line[0] in line;
      assert text[1..] == line[1..] + rest;
      AboveALine(line[1..], rest);
    }
  }

  lemma AboveANewline(rest: string)
    requires !("@@" <= rest)
    ensures AboveHunks(['\n'] + rest) == ['\n'] + AboveHunks(rest)
  {
    var text := ['\n'] + rest;
    assert text[1..] == rest;
    assert |rest| >= 2 ==> rest[..2] == [text[1], text[2]];
  }

  lemma JoinOpens(lines: seq<string>, hunks: string)
    requires lines != [] && lines[0] != "" && !("@@" <= lines[0]) && (hunks == "" || "\n@@" <= hunks)
    ensures !("@@" <= Join(lines) + hunks)
  {
    var text := Join(lines) + hunks;
    assert text[0] == lines[0][0];
    assert |lines[0]| >= 2 ==> text[1] == lines[0][1] && lines[0][..2] == [lines[0][0], lines[0][1]];
    assert |lines[0]| == 1 && |text| >= 2 ==> text[1] == '\n';
  }

  lemma {:induction false} AboveTheHunks(lines: seq<string>, hunks: string)
    requires Above(lines, hunks)
    ensures AboveHunks(Join(lines) + hunks) == Join(lines)
    decreases |lines|
  {
    if |lines| == 1 {
      AboveALine(lines[0], hunks);
      assert lines[0] + "" == lines[0];
    } else {
      var rest := lines[1..];
      AboveTheHunks(rest, hunks);
      var more := Join(rest) + hunks;
      JoinOpens(rest, hunks);
      AboveANewline(more);
      AboveALine(lines[0], ['\n'] + more);
      NewlineBetween(lines[0], Join(rest), hunks);
    }
  }

  lemma NewlineBetween(line: string, rest: string, hunks: string)
    ensures line + "\n" + rest + hunks == line + (['\n'] + (rest + hunks))
    ensures line + "\n" + rest == line + (['\n'] + rest)
  {
  }

  lemma {:induction false} JoinedLines(lines: seq<string>)
    requires Above(lines, "")
    ensures Lines(Join(lines)) == lines
    decreases |lines|
  {
    if |lines| == 1 {
      FindNowhere(lines[0], '\n');
    } else {
      JoinedLines(lines[1..]);
      LinesOfLine(lines[0], Join(lines[1..]));
    }
  }

  /** Only the lines above the first hunk are read, whatever the hunks hold. */
  lemma HunksAreNotRead(lines: seq<string>, hunks: string)
    requires Above(lines, hunks)
    ensures PathIn(Join(lines) + hunks) == PathOf(lines)
  {
    AboveTheHunks(lines, hunks);
    JoinedLines(lines);
  }

  // ---- which line names the file --------------------------------------------------------

  predicate NoneUnder(lines: seq<string>, mark: string) {
    forall i :: 0 <= i < |lines| ==> mark <= lines[i] ==> OneSide(lines[i][|mark|..]) == None
  }

  lemma {:induction false} NamedNowhere(lines: seq<string>, mark: string)
    requires NoneUnder(lines, mark)
    ensures Named(lines, mark) == None
    decreases |lines|
  {
    if lines != [] {
      NamedNowhere(lines[1..], mark);
    }
  }

  lemma {:induction false} NamedAt(lines: seq<string>, mark: string, i: nat, name: seq<Byte>)
    requires i < |lines| && NoneUnder(lines[..i], mark)
    requires mark <= lines[i] && OneSide(lines[i][|mark|..]) == Some(name)
    ensures Named(lines, mark) == Some(name)
    decreases |lines|
  {
    if i > 0 {
      assert lines[..i][0] == lines[0];
      assert lines[1..][..i - 1] == lines[..i][1..];
      NamedAt(lines[1..], mark, i - 1, name);
    }
  }

  /**
   The name after the change, where a `+++` line has one, is the path, whatever
   the hunks remove or add; where none has, as for a deleted file, the name before.
   */
  lemma PairNamesTheFile(lines: seq<string>, hunks: string, i: nat, name: seq<Byte>, deleted: bool)
    requires Above(lines, hunks) && i < |lines|
    requires deleted ==> NoneUnder(lines, "+++ ")
    requires var mark := if deleted then "--- " else "+++ ";
             NoneUnder(lines[..i], mark) && mark <= lines[i] && OneSide(lines[i][|mark|..]) == Some(name)
    ensures PathIn(Join(lines) + hunks) == name
  {
    HunksAreNotRead(lines, hunks);
    if deleted {
      NamedNowhere(lines, "+++ ");
      NamedAt(lines, "--- ", i, name);
    } else {
      NamedAt(lines, "+++ ", i, name);
    }
  }

  // ---- where a binary file's line is split --------------------------------------------------

  lemma AndIsSpelt(text: string, at: nat)
    ensures StandsAt(text, " and ", at) <==>
            at + 5 <= |text| && text[at] == ' ' && text[at + 1] == 'a' && text[at + 2] == 'n' && text[at + 3] == 'd'
            && text[at + 4] == ' '
  {
    if at + 5 <= |text| {
      assert text[at..at + 5] == [text[at], text[at + 1], text[at + 2], text[at + 3], text[at + 4]];
    }
  }

  /** Two sides with ` and ` between them: what opens the second, its name, what closes it. */
  function TwoSides(left: string, opening: string, name: string, closing: string): string {
    left + " and " + opening + name + closing
  }

  /** What may open and close a side: nothing ` and ` could begin or end in. */
  predicate Fences(opening: string, closing: string) {
    && opening != "" && opening[0] != 'a' && ' ' !in opening
    && (closing == "" || closing == ['"'])
  }

  lemma StandsFurtherOn(front: string, rest: string, at: nat)
    requires at >= |front|
    ensures StandsAt(front + rest, " and ", at) <==> StandsAt(rest, " and ", at - |front|)
  {
    if at + 5 <= |front + rest| {
      assert (front + rest)[at..at + 5] == rest[at - |front|..at - |front| + 5];
    }
  }

  /** ` and ` neither begins in itself nor in what opens a side. */
  lemma AndInTheMiddle(opening: string, rest: string, at: nat)
    requires Fences(opening, "") && 0 < at < 5 + |opening|
    ensures !StandsAt(" and " + opening + rest, " and ", at)
  {
    var text := " and " + opening + rest;
    AndIsSpelt(text, at);
    if at < 5 {
      assert text[1] == 'a' && text[2] == 'n' && text[3] == 'd' && text[5] == opening[0];
    } else {
      assert text[at] == opening[at - 5] && opening[at - 5] in opening;
    }
  }

  lemma AndBeforeTheEnd(name: string, closing: string, at: nat)
    requires closing == "" || closing == ['"']
    ensures StandsAt(name + closing, " and ", at) <==> StandsAt(name, " and ", at)
  {
    AndIsSpelt(name + closing, at);
    AndIsSpelt(name, at);
    assert forall m :: 0 <= m < |name| ==> (name + closing)[m] == name[m];
    assert closing != "" ==> (name + closing)[|name|] == '"';
  }

  /** After the place where the sides meet, ` and ` stands only inside the second name. */
  lemma AndAfterTheMiddle(left: string, opening: string, name: string, closing: string, k: nat)
    requires Fences(opening, closing) && k > |left|
    ensures var start := |left| + 5 + |opening|;
            StandsAt(TwoSides(left, opening, name, closing), " and ", k) <==>
            k >= start && StandsAt(name, " and ", k - start)
  {
    var rest := " and " + opening + (name + closing);
    assert TwoSides(left, opening, name, closing) == left + rest;
    StandsFurtherOn(left, rest, k);
    if k < |left| + 5 + |opening| {
      AndInTheMiddle(opening, name + closing, k - |left|);
    } else {
      StandsFurtherOn(" and " + opening, name + closing, k - |left|);
      AndBeforeTheEnd(name, closing, k - |left| - 5 - |opening|);
    }
  }

  predicate HoldsAnd(name: string) {
    LastAt(name, " and ", |name|).Some?
  }

  lemma HoldsAndIff(name: string)
    ensures HoldsAnd(name) <==> exists j :: 0 <= j < |name| && StandsAt(name, " and ", j)
  {
    if j: nat :| j < |name| && StandsAt(name, " and ", j) {
      LastAtIsNotBefore(name, " and ", |name|, j);
    }
  }

  function BeforeAnd(name: string): string
    requires HoldsAnd(name)
  {
    name[..LastAt(name, " and ", |name|).value]
  }

  function AfterAnd(name: string): string
    requires HoldsAnd(name)
  {
    name[LastAt(name, " and ", |name|).value + 5..]
  }

  lemma SplitsInside(left: string, opening: string, name: string, closing: string, j: nat)
    requires Fences(opening, closing) && LastAt(name, " and ", |name|) == Some(j)
    ensures var body := TwoSides(left, opening, name, closing);
            LastAt(body, " and ", |body|) == Some(|left| + 5 + |opening| + j)
  {
    var body, start := TwoSides(left, opening, name, closing), |left| + 5 + |opening|;
    forall k: nat | k > start + j ensures !StandsAt(body, " and ", k) {
      AndAfterTheMiddle(left, opening, name, closing, k);
      if StandsAt(name, " and ", k - start) {
        LastAtIsNotBefore(name, " and ", |name|, k - start);
      }
    }
    AndAfterTheMiddle(left, opening, name, closing, start + j);
    LastAtIsLast(body, " and ", |body|, start + j);
  }

  lemma SplitsBetween(left: string, opening: string, name: string, closing: string)
    requires Fences(opening, closing) && LastAt(name, " and ", |name|) == None
    ensures var body := TwoSides(left, opening, name, closing);
            LastAt(body, " and ", |body|) == Some(|left|)
  {
    var body, start := TwoSides(left, opening, name, closing), |left| + 5 + |opening|;
    forall k: nat | k > |left| ensures !StandsAt(body, " and ", k) {
      AndAfterTheMiddle(left, opening, name, closing, k);
      if k >= start && StandsAt(name, " and ", k - start) {
        LastAtIsNotBefore(name, " and ", |name|, k - start);
      }
    }
    AndIsSpelt(body, |left|);
    LastAtIsLast(body, " and ", |body|, |left|);
  }

  /** The line is split where the sides meet, or if the second name holds ` and `, at the last one in it. */
  lemma WhereItSplits(left: string, opening: string, name: string, closing: string)
    requires Fences(opening, closing)
    ensures var body, j := TwoSides(left, opening, name, closing), LastAt(name, " and ", |name|);
            LastAt(body, " and ", |body|) == Some(if j.None? then |left| else |left| + 5 + |opening| + j.value)
  {
    match LastAt(name, " and ", |name|)
    case Some(j) => SplitsInside(left, opening, name, closing, j);
    case None => SplitsBetween(left, opening, name, closing);
  }

  lemma TextsOfTheSides(left: string, opening: string, name: string, closing: string, at: nat)
    requires at == if HoldsAnd(name) then |left| + 5 + |opening| + |BeforeAnd(name)| else |left|
    ensures var body := TwoSides(left, opening, name, closing);
            && at + 5 <= |body|
            && body[..at] == (if HoldsAnd(name) then left + " and " + opening + BeforeAnd(name) else left)
            && body[at + 5..] == if HoldsAnd(name) then AfterAnd(name) + closing else opening + name + closing
  {
    if HoldsAnd(name) {
      var j := LastAt(name, " and ", |name|).value;
      assert name == name[..j] + (name[j..j + 5] + name[j + 5..]);
    }
  }

  lemma BinaryNameOf(body: string, at: nat, after: string, before: string)
    requires LastAt(body, " and ", |body|) == Some(at) && body[at + |" and "|..] == after && body[..at] == before
    ensures BinaryName(body) == OneSide(after).Or(OneSide(before))
  {
  }

  /** What a binary file's line gives, side by side. */
  lemma BinaryNameSplits(left: string, opening: string, name: string, closing: string)
    returns (after: string, before: string)
    requires Fences(opening, closing)
    ensures BinaryName(TwoSides(left, opening, name, closing)) == OneSide(after).Or(OneSide(before))
    ensures after == if HoldsAnd(name) then AfterAnd(name) + closing else opening + name + closing
    ensures before == if HoldsAnd(name) then left + " and " + opening + BeforeAnd(name) else left
  {
    var body := TwoSides(left, opening, name, closing);
    WhereItSplits(left, opening, name, closing);
    var at := LastAt(body, " and ", |body|).value;
    TextsOfTheSides(left, opening, name, closing, at);
    after, before := body[at + 5..], body[..at];
    BinaryNameOf(body, at, after, before);
  }

  // ---- a binary file that changed ----------------------------------------------------------

  function BothBinary(name: string): string {
    TwoSides(['a', '/'] + name, ['b', '/'], name, "")
  }

  /** A tail of a name, were it taken for a side, is not the name. */
  lemma TailIsNotTheName(name: string, tail: string, before: string)
    requires name == before + tail && '"' !in name
    ensures OneSide(tail) != Some(Utf8All(name))
  {
    var kept := TrimEnd(tail);
    TrimEndIsPrefix(tail);
    assert tail == kept + tail[|kept|..];
    Utf8AllOfTwo(kept, tail[|kept|..]);
    Utf8AllOfTwo(before, tail);
    assert |Utf8All(kept)| <= |Utf8All(name)|;
    if |kept| >= 2 {
      assert kept[0] == name[|before|] && name[|before|] in name;
    }
    assert !IsQuoted(kept);
  }

  /** The rest of the line, taken for the side before the change, is a name but not this one. */
  lemma RestIsNotTheName(name: string, front: string)
    ensures var side := OneSide(['a', '/'] + (name + " and " + ['b', '/'] + front) + "");
            side.Some? && side != Some(Utf8All(name))
  {
    var before := name + " and " + ['b', '/'];
    OneSideReads('a', before + front, "");
    assert before[|before| - 1] == '/';
    TrimmedName(before, front, "");
    assert before + front + "" == before + front;
    OneText(before + TrimEnd(front), name);
  }

  lemma NeitherSide(a: Option<seq<Byte>>, b: Option<seq<Byte>>, name: seq<Byte>)
    requires a != Some(name) && b != Some(name) && b.Some?
    ensures a.Or(b).Some? && a.Or(b) != Some(name)
  {
  }

  lemma BinaryNameLost(name: string)
    requires '"' !in name && HoldsAnd(name)
    ensures BinaryName(BothBinary(name)).Some? && BinaryName(BothBinary(name)) != Some(Utf8All(name))
  {
    var tail, rest := BinaryNameSplits(['a', '/'] + name, ['b', '/'], name, "");
    LostTexts(name, tail, rest);
    TailIsNotTheName(name, tail, name[..|name| - |tail|]);
    RestIsNotTheName(name, BeforeAnd(name));
    NeitherSide(OneSide(tail), OneSide(rest), Utf8All(name));
  }

  lemma LostTexts(name: string, tail: string, rest: string)
    requires HoldsAnd(name) && tail == AfterAnd(name) + ""
    requires rest == ['a', '/'] + name + " and " + ['b', '/'] + BeforeAnd(name)
    ensures |tail| <= |name| && name == name[..|name| - |tail|] + tail
    ensures rest == ['a', '/'] + (name + " and " + ['b', '/'] + BeforeAnd(name)) + ""
  {
    assert tail == AfterAnd(name);
  }

  /**
   Git's line for a binary file that changed gives its raw name back exactly when
   the name neither holds ` and ` nor ends in whitespace.
   */
  lemma BinaryReadsIff(name: string)
    requires '"' !in name
    ensures BinaryName(BothBinary(name)).Some?
    ensures BinaryName(BothBinary(name)) == Some(Utf8All(name)) <==> !HoldsAnd(name) && !EndsInWhitespace(name)
  {
    if HoldsAnd(name) {
      BinaryNameLost(name);
    } else {
      var after, before := BinaryNameSplits(['a', '/'] + name, ['b', '/'], name, "");
      OneSideReads('b', name, "");
      OneSideReadsIff('b', name, "");
    }
  }

  predicate Silent(line: string) {
    && !("+++ " <= line) && !("--- " <= line) && !("rename to " <= line) && !("copy to " <= line)
    && !("Binary files " <= line)
  }

  lemma {:induction false} SilentLines(lines: seq<string>, last: string)
    requires forall i :: 0 <= i < |lines| ==> Silent(lines[i])
    ensures Named(lines + [last], "+++ ") == Named([last], "+++ ")
    ensures Named(lines + [last], "--- ") == Named([last], "--- ")
    ensures Moved(lines + [last]) == Moved([last])
    ensures BinaryBody(lines + [last]) == BinaryBody([last])
    decreases |lines|
  {
    if lines == [] {
      assert lines + [last] == [last];
    } else {
      assert (lines + [last])[1..] == lines[1..] + [last];
      SilentLines(lines[1..], last);
    }
  }

  function BinaryLine(body: string): string {
    "Binary files " + body + " differ"
  }

  lemma BinaryLineSays(body: string)
    ensures BinaryBody([BinaryLine(body)]) == Some(body)
    ensures Named([BinaryLine(body)], "+++ ") == None && Named([BinaryLine(body)], "--- ") == None
    ensures Moved([BinaryLine(body)]) == None
  {
    var line := BinaryLine(body);
    assert line[0] == 'B';
    var rest := line[|"Binary files "|..];
    assert rest == body + " differ";
    assert rest[|rest| - |" differ"|..] == " differ" && rest[..|rest| - |" differ"|] == body;
    var only: seq<string> := [line];
    assert only[1..] == [];
  }

  lemma PathOfBinary(lines: seq<string>, body: string, binary: Option<seq<Byte>>, header: Option<seq<Byte>>)
    requires Above(lines, "") && Named(lines, "+++ ") == None && Named(lines, "--- ") == None
    requires Moved(lines) == None && BinaryBody(lines) == Some(body)
    requires binary == BinaryName(body) && header == HeaderPath(lines[0])
    ensures PathIn(Join(lines)) == binary.Or(header).GetOr(Utf8All("unknown"))
  {
    HunksAreNotRead(lines, "");
    assert Join(lines) + "" == Join(lines);
  }

  lemma BinaryLines(lines: seq<string>, body: string)
    requires forall i :: 0 <= i < |lines| ==> Silent(lines[i])
    ensures var all := lines + [BinaryLine(body)];
            && Named(all, "+++ ") == None && Named(all, "--- ") == None
            && Moved(all) == None && BinaryBody(all) == Some(body)
  {
    SilentLines(lines, BinaryLine(body));
    BinaryLineSays(body);
  }

  /** A chunk that ends in a binary file's line gives the name that line does, or else the header's. */
  lemma BinaryChunk(lines: seq<string>, body: string, binary: Option<seq<Byte>>, header: Option<seq<Byte>>)
    requires Above(lines + [BinaryLine(body)], "") && lines != []
    requires forall i :: 0 <= i < |lines| ==> Silent(lines[i])
    requires binary == BinaryName(body) && header == HeaderPath(lines[0])
    ensures PathIn(Join(lines + [BinaryLine(body)])) == binary.Or(header).GetOr(Utf8All("unknown"))
  {
    var all := lines + [BinaryLine(body)];
    BinaryLines(lines, body);
    assert all[0] == lines[0];
    PathOfBinary(all, body, binary, header);
  }

  /** Where the binary file's line gives a name, that is the path. */
  lemma BinaryChunkNamed(lines: seq<string>, body: string, name: seq<Byte>)
    requires Above(lines + [BinaryLine(body)], "") && lines != []
    requires forall i :: 0 <= i < |lines| ==> Silent(lines[i])
    requires BinaryName(body) == Some(name)
    ensures PathIn(Join(lines + [BinaryLine(body)])) == name
  {
    BinaryChunk(lines, body, Some(name), HeaderPath(lines[0]));
  }

  /**
   So the chunk of a changed binary file gives its raw name exactly when the name
   neither holds ` and ` nor ends in whitespace.
   */
  lemma BinaryChunkReadsIff(lines: seq<string>, name: string)
    requires '"' !in name && Above(lines + [BinaryLine(BothBinary(name))], "") && lines != []
    requires forall i :: 0 <= i < |lines| ==> Silent(lines[i])
    ensures PathIn(Join(lines + [BinaryLine(BothBinary(name))])) == Utf8All(name) <==>
            !HoldsAnd(name) && !EndsInWhitespace(name)
  {
    BinaryReadsIff(name);
    BinaryChunkNamed(lines, BothBinary(name), BinaryName(BothBinary(name)).value);
  }

  /** One such name. */
  lemma ABinaryNameIsLost()
    ensures BinaryName(BothBinary("x and y")) != Some(Utf8All("x and y"))
  {
    var name := "x and y";
    AndIsSpelt(name, 1);
    HoldsAndIff(name);
    BinaryReadsIff(name);
  }
}
