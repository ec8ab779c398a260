/** A hunk header is what the pattern `@@ -a,b +c,d @@` matches, its counts optional, and nothing else. */
module PatchHeaders {
  import opened Common
  import opened Decimals
  import opened Patch
  import opened PatchRebuild

  /** One digit or more. */
  predicate Numeral(s: string) {
    s != "" && AllDigits(s)
  }

  /** A comma and a numeral, or nothing. */
  predicate OptionalCount(s: string) {
    s == "" || (s[0] == ',' && Numeral(s[1..]))
  }

  datatype Parts = Parts(old_: string, oldCount: string, new_: string, newCount: string, heading: string)

  function Matched(p: Parts): string {
    "@@ -" + (p.old_ + (p.oldCount + (" +" + (p.new_ + (p.newCount + (" @@" + p.heading))))))
  }

  predicate Matches(p: Parts) {
    Numeral(p.old_) && OptionalCount(p.oldCount) && Numeral(p.new_) && OptionalCount(p.newCount)
  }

  // ---- what matches is read -----------------------------------------------------

  lemma CountIsPast(count: string, rest: string)
    requires OptionalCount(count) && rest != "" && rest[0] == ' '
    ensures PastCount(count + rest) == rest && !IsDigit((count + rest)[0])
  {
    if count == "" {
      assert count + rest == rest;
    } else {
      assert (count + rest)[1..] == count[1..] + rest;
      LeadingOf(count[1..], rest);
    }
  }

  lemma SideIsRead(number: string, count: string, rest: string)
    requires Numeral(number) && OptionalCount(count) && rest != "" && rest[0] == ' '
    ensures var side := number + (count + rest);
            Leading(side) == |number| && side[..|number|] == number && PastCount(side[|number|..]) == rest
  {
    CountIsPast(count, rest);
    LeadingOf(number, count + rest);
  }

  lemma MatchedIsRead(p: Parts)
    requires Matches(p)
    ensures HunkStart(Matched(p)) == Some(Value(p.new_))
  {
    var closing := " @@" + p.heading;
    var new_ := p.new_ + (p.newCount + closing);
    var old_ := p.old_ + (p.oldCount + (" +" + new_));
    SideIsRead(p.new_, p.newCount, closing);
    SideIsRead(p.old_, p.oldCount, " +" + new_);
    PastTheMark("@@ -", old_);
    PastTheMark(" +", new_);
  }

  // ---- what is read matches --------------------------------------------------------

  lemma {:induction false} LeadingDigits(s: string)
    ensures AllDigits(s[..Leading(s)])
    decreases |s|
  {
    if s != "" && IsDigit(s[0]) {
      LeadingDigits(s[1..]);
      assert s[..Leading(s)] == [s[0]] + s[1..][..Leading(s[1..])];
    }
  }

  lemma CountStandsBefore(s: string) returns (count: string)
    ensures OptionalCount(count) && s == count + PastCount(s)
  {
    count := s[..|s| - |PastCount(s)|];
    if PastCount(s) != s {
      var n := Leading(s[1..]);
      LeadingDigits(s[1..]);
      assert count == s[..1 + n] && count[1..] == s[1..][..n];
    }
  }

  lemma PrefixAndRest(mark: string, text: string)
    requires mark <= text
    ensures text == mark + text[|mark|..]
  {
  }

  lemma SideStands(s: string) returns (number: string, count: string)
    requires Leading(s) > 0
    ensures Numeral(number) && OptionalCount(count) && number == s[..Leading(s)]
    ensures s == number + (count + PastCount(s[Leading(s)..]))
  {
    var n := Leading(s);
    var rest := s[n..];
    number := s[..n];
    LeadingDigits(s);
    count := CountStandsBefore(rest);
    InTwo(s, n, rest);
  }

  lemma InTwo(s: string, n: nat, rest: string)
    requires n <= |s| && rest == s[n..]
    ensures s == s[..n] + rest
  {
  }

  lemma ReadIsMatched(line: string) returns (p: Parts)
    requires HunkStart(line).Some?
    ensures Matches(p) && line == Matched(p)
  {
    var old_ := line[|OLD_SIDE|..];
    var between := PastCount(old_[Leading(old_)..]);
    var new_ := between[|NEW_SIDE|..];
    var closing := PastCount(new_[Leading(new_)..]);
    PrefixAndRest(OLD_SIDE, line);
    PrefixAndRest(NEW_SIDE, between);
    PrefixAndRest(CLOSE, closing);
    var a, b := SideStands(old_);
    var c, d := SideStands(new_);
    p := Parts(a, b, c, d, closing[|CLOSE|..]);
  }

  /** A line starts a hunk exactly when the pattern matches it, and then at the number behind its `+`. */
  lemma HunkStartIff(line: string)
    ensures HunkStart(line).Some? <==> exists p :: Matches(p) && line == Matched(p)
    ensures forall p :: Matches(p) && line == Matched(p) ==> HunkStart(line) == Some(Value(p.new_))
  {
    if HunkStart(line).Some? {
      var p := ReadIsMatched(line);
    }
    forall p | Matches(p) && line == Matched(p) ensures HunkStart(line) == Some(Value(p.new_)) {
      MatchedIsRead(p);
    }
  }
}
