/** The handles that artifacts mentioned in one message go by. */
module Mentions {
  import opened Common
  import opened Decimals

  datatype Artifact = Artifact(id: string, slug: string)

  datatype Held = Held(artifact: Artifact, handle: string)

  /** The names tried in turn: the slug, then the slug with 2, 3 and so on. */
  function Candidate(slug: string, n: nat): string {
    if n <= 1 then slug else slug + ['-'] + Written(n)
  }

  lemma CandidatesDiffer(slug: string, m: nat, n: nat)
    requires 1 <= m < n
    ensures Candidate(slug, m) != Candidate(slug, n)
  {
    var a, b := Candidate(slug, m), Candidate(slug, n);
    if a == b {
      assert a[|slug| + 1..] == Written(m) && b[|slug| + 1..] == Written(n);
      WrittenIsInjective(m, n);
    }
  }

  function Handles(held: seq<Held>): set<string> {
    set i | 0 <= i < |held| :: held[i].handle
  }

  // ---- the search ends ---------------------------------------------------------

  function Candidates(slug: string, n: nat): set<string> {
    if n == 0 then {} else Candidates(slug, n - 1) + {Candidate(slug, n)}
  }

  lemma {:induction false} AsManyCandidates(slug: string, n: nat)
    ensures |Candidates(slug, n)| == n
    ensures forall h :: h in Candidates(slug, n) ==> exists k :: 1 <= k <= n && Candidate(slug, k) == h
  {
    if n > 0 {
      AsManyCandidates(slug, n - 1);
      if Candidate(slug, n) in Candidates(slug, n - 1) {
        var k :| 1 <= k <= n - 1 && Candidate(slug, k) == Candidate(slug, n);
        CandidatesDiffer(slug, k, n);
      }
    }
  }

  lemma {:induction false} NoLargerThan(a: set<string>, b: set<string>)
    requires a <= b
    ensures |a| <= |b|
    decreases |a|
  {
    if a != {} {
      var x :| x in a;
      NoLargerThan(a - {x}, b - {x});
    }
  }

  /** As many different names taken as were tried: more tries than names cannot all fail. */
  lemma TriesAreBounded(slug: string, n: nat, taken: set<string>)
    requires forall k :: 1 <= k <= n ==> Candidate(slug, k) in taken
    ensures n <= |taken|
  {
    AsManyCandidates(slug, n);
    NoLargerThan(Candidates(slug, n), taken);
  }

  lemma {:induction false} NoMoreHandlesThanHeld(held: seq<Held>)
    ensures |Handles(held)| <= |held|
    decreases |held|
  {
    if held != [] {
      var front := held[..|held| - 1];
      NoMoreHandlesThanHeld(front);
      assert Handles(held) == Handles(front) + {held[|held| - 1].handle};
    }
  }

  // ---- the program ---------------------------------------------------------------

  /** The number of the first free name at or after `n`. */
  function FirstFree(slug: string, n: nat, taken: set<string>): (free: nat)
    requires n >= 1 && forall k :: 1 <= k < n ==> Candidate(slug, k) in taken
    ensures 1 <= free <= |taken| + 1 && Candidate(slug, free) !in taken
    ensures forall k :: 1 <= k < free ==> Candidate(slug, k) in taken
    decreases |taken| + 1 - n
  {
    TriesAreBounded(slug, n - 1, taken);
    if Candidate(slug, n) in taken then
      TriesAreBounded(slug, n, taken);
      FirstFree(slug, n + 1, taken)
    else n
  }

  /** The handle an artifact already goes by: the first mention's. */
  function Known(artifact: Artifact, held: seq<Held>): Option<string> {
    if held == [] then None
    else if held[0].artifact.id == artifact.id then Some(held[0].handle)
    else Known(artifact, held[1..])
  }

  /** The handle an artifact has, or the first of its names that is free. */
  function HandleOf(artifact: Artifact, held: seq<Held>): string {
    Known(artifact, held).GetOr(Candidate(artifact.slug, FirstFree(artifact.slug, 1, Handles(held))))
  }

  /**
   The search for a handle. It ends: a free name is found in no more tries than
   there are mentions, and one.
   */
  method HandleFor(artifact: Artifact, held: seq<Held>) returns (handle: string, ghost tries: nat)
    ensures handle == HandleOf(artifact, held)
    ensures tries <= |held| + 1
  {
    tries := 0;
    for i := 0 to |held|
      invariant Known(artifact, held[i..]) == Known(artifact, held)
    {
      assert held[i..][0] == held[i] && held[i..][1..] == held[i + 1..];
      if held[i].artifact.id == artifact.id {
        return held[i].handle, 0;
      }
    }
    var taken := Handles(held);
    NoMoreHandlesThanHeld(held);
    ghost var free := FirstFree(artifact.slug, 1, taken);
    if artifact.slug !in taken {
      assert Candidate(artifact.slug, 1) == artifact.slug;
      return artifact.slug, 1;
    }
    var n := 2;
    handle := Candidate(artifact.slug, n);
    while handle in taken
      invariant 2 <= n <= free && handle == Candidate(artifact.slug, n)
      decreases free - n
    {
      n := n + 1;
      handle := Candidate(artifact.slug, n);
    }
    tries := n;
  }

  // ---- what a message holds ---------------------------------------------------------

  lemma {:induction false} KnownIsHeld(artifact: Artifact, held: seq<Held>) returns (i: nat)
    requires Known(artifact, held).Some?
    ensures i < |held| && held[i].artifact.id == artifact.id && Known(artifact, held) == Some(held[i].handle)
    decreases |held|
  {
    if held[0].artifact.id == artifact.id {
      i := 0;
    } else {
      var k := KnownIsHeld(artifact, held[1..]);
      i := k + 1;
    }
  }

  lemma {:induction false} UnknownIsNotHeld(artifact: Artifact, held: seq<Held>, i: nat)
    requires Known(artifact, held).None? && i < |held|
    ensures held[i].artifact.id != artifact.id
    decreases |held|
  {
    if i > 0 {
      UnknownIsNotHeld(artifact, held[1..], i - 1);
    }
  }

  /** What a writer does: mention an artifact, or take a mention away. */
  datatype Change = Mention(artifact: Artifact) | Remove(i: nat)

  function After(held: seq<Held>, change: Change): seq<Held> {
    match change
    case Mention(artifact) => held + [Held(artifact, HandleOf(artifact, held))]
    case Remove(i) => if i < |held| then held[..i] + held[i + 1..] else held
  }

  function Message(changes: seq<Change>): seq<Held> {
    if changes == [] then [] else After(Message(changes[..|changes| - 1]), changes[|changes| - 1])
  }

  /** One artifact, one handle; one handle, one artifact. */
  predicate OneToOne(held: seq<Held>) {
    forall i, j :: 0 <= i < |held| && 0 <= j < |held| ==>
      (held[i].artifact.id == held[j].artifact.id <==> held[i].handle == held[j].handle)
  }

  /** A mention's handle is another's exactly when they are of one artifact. */
  lemma HandleIsItsOwn(held: seq<Held>, artifact: Artifact, i: nat)
    requires OneToOne(held) && i < |held|
    ensures held[i].artifact.id == artifact.id <==> held[i].handle == HandleOf(artifact, held)
  {
    if Known(artifact, held).Some? {
      var k := KnownIsHeld(artifact, held);
      assert held[k].artifact.id == held[i].artifact.id <==> held[k].handle == held[i].handle;
    } else {
      UnknownIsNotHeld(artifact, held, i);
      assert held[i].handle in Handles(held);
    }
  }

  lemma MentioningKeeps(held: seq<Held>, artifact: Artifact, handle: string)
    requires OneToOne(held)
    requires forall i :: 0 <= i < |held| ==> (held[i].artifact.id == artifact.id <==> held[i].handle == handle)
    ensures OneToOne(held + [Held(artifact, handle)])
  {
  }

  /**
   However mentions are added and taken away, distinct artifacts go by distinct
   handles and the same artifact by one.
   */
  lemma {:induction false} HandlesAreOneToOne(changes: seq<Change>)
    ensures OneToOne(Message(changes))
    decreases |changes|
  {
    if changes != [] {
      var held := Message(changes[..|changes| - 1]);
      HandlesAreOneToOne(changes[..|changes| - 1]);
      match changes[|changes| - 1]
      case Mention(artifact) =>
        forall i | 0 <= i < |held|
          ensures held[i].artifact.id == artifact.id <==> held[i].handle == HandleOf(artifact, held)
        {
          HandleIsItsOwn(held, artifact, i);
        }
        MentioningKeeps(held, artifact, HandleOf(artifact, held));
      case Remove(i) =>
        var after := After(held, Remove(i));
        assert i < |held| ==> forall j :: 0 <= j < |after| ==> after[j] == held[if j < i then j else j + 1];
    }
  }

  /** The slug followed by a number. */
  function Numbered(slug: string, n: nat): string {
    slug + "-" + Written(n)
  }

  /**
   An artifact not mentioned yet goes by its slug where that is free, and else by the
   slug with `-2`, `-3` and so on behind it, whichever is the first that is free.
   */
  lemma ANewHandleIsTheFirstFree(artifact: Artifact, held: seq<Held>) returns (n: nat)
    requires forall i :: 0 <= i < |held| ==> held[i].artifact.id != artifact.id
    ensures var handle, taken := HandleOf(artifact, held), Handles(held);
            && handle !in taken
            && if artifact.slug !in taken then handle == artifact.slug
               else
                 && n >= 2 && handle == Numbered(artifact.slug, n)
                 && forall k :: 2 <= k < n ==> Numbered(artifact.slug, k) in taken
  {
    if Known(artifact, held).Some? {
      var i := KnownIsHeld(artifact, held);
    }
    var taken := Handles(held);
    n := FirstFree(artifact.slug, 1, taken);
    assert Candidate(artifact.slug, 1) == artifact.slug;
    assert forall k: nat :: k >= 2 ==> Candidate(artifact.slug, k) == Numbered(artifact.slug, k);
  }

  /** One mentioned already keeps the handle of its first mention. */
  lemma AKnownHandleIsKept(artifact: Artifact, held: seq<Held>, i: nat)
    requires i < |held| && held[i].artifact.id == artifact.id
    requires forall j :: 0 <= j < i ==> held[j].artifact.id != artifact.id
    ensures HandleOf(artifact, held) == held[i].handle
  {
    FirstIsKnown(artifact, held, i);
  }

  lemma {:induction false} FirstIsKnown(artifact: Artifact, held: seq<Held>, i: nat)
    requires i < |held| && held[i].artifact.id == artifact.id
    requires forall j :: 0 <= j < i ==> held[j].artifact.id != artifact.id
    ensures Known(artifact, held) == Some(held[i].handle)
    decreases i
  {
    if i > 0 {
      FirstIsKnown(artifact, held[1..], i - 1);
    }
  }
}
