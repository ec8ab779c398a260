/**
 One round of the telemetry courier: it asks a control plane what is owed, posts
 it to the gateway newest first, and says which days got through, until nothing
 is owed or something fails.
 */
module Telemetry {
  import opened Common
  import opened OrderedSets

  type Day = int

  // ---- one post ------------------------------------------------------------

  /** A reply's status, or no reply at all. */
  datatype Reply = NoReply | Status(code: nat)

  datatype Carried = Delivered | Refused | Later

  /** What became of a post: a refusal is for good, save the two that ask for patience. */
  function Became(reply: Reply): Carried {
    match reply
    case NoReply => Later
    case Status(code) =>
      if 200 <= code < 300 then Delivered
      else if code == 429 || code == 408 then Later
      else if 400 <= code < 500 then Refused
      else Later
  }

  /** A reply that settles its day: 2xx, or 4xx other than 408 and 429. */
  predicate Settles(reply: Reply) {
    reply.Status? &&
    (200 <= reply.code < 300 || (400 <= reply.code < 500 && reply.code != 408 && reply.code != 429))
  }

  /** What a status comes to, and that no reply at all settles nothing. */
  lemma BecameIff(reply: Reply)
    ensures Became(reply) == Delivered <==> reply.Status? && 200 <= reply.code < 300
    ensures Became(reply) == Refused <==> Settles(reply) && reply.code >= 400
    ensures Became(reply) != Later <==> Settles(reply)
  {
  }

  /** How many posts go through before the first that stays owed. */
  function Settling(replies: seq<Reply>): (n: nat)
    ensures n <= |replies|
    ensures forall k :: 0 <= k < n ==> Settles(replies[k])
    ensures n < |replies| ==> !Settles(replies[n])
  {
    if replies == [] || Became(replies[0]) == Later then 0 else 1 + Settling(replies[1..])
  }

  // ---- one batch -------------------------------------------------------------

  /** The acknowledgement: whether the server took it in, and whether anything came back. */
  datatype Ack = Ack(marked: bool, answered: bool)

  /**
   What a courier is told in one batch: the days offered, or nothing when the
   control plane did not answer; the gateway's reply to each; the acknowledgement.
   */
  datatype Answer = Answer(offered: Option<seq<Day>>, replies: seq<Reply>, ack: Ack)

  predicate Complete(a: Answer) {
    a.offered.Some? ==> |a.replies| == |a.offered.value|
  }

  datatype Batch = Drained | More | Stop

  /** A batch's verdict, the days it posted in that order, and the days it acknowledged. */
  datatype Outcome = Outcome(batch: Batch, posted: seq<Day>, settled: seq<Day>)

  predicate OffersAgain(days: seq<Day>, already: set<Day>) {
    exists d :: d in days && d in already
  }

  function Collected(already: set<Day>, a: Answer): Outcome
    requires Complete(a)
  {
    match a.offered
    case None => Outcome(Stop, [], [])
    case Some(days) =>
      if days == [] then Outcome(Drained, [], [])
      else if OffersAgain(days, already) then Outcome(Stop, [], [])
      else
        var n := Settling(a.replies);
        if n < |days| then Outcome(Stop, days[..n + 1], days[..n])
        else Outcome(if a.ack.answered then More else Stop, days, days)
  }

  // ---- one round ---------------------------------------------------------------

  const MAX_BATCHES: nat := 8

  /** What a round posted, which days of it the control plane marked delivered, and how often it asked. */
  datatype Round = Round(posted: seq<Day>, marked: seq<Day>, asked: nat)

  /** The days an acknowledgement takes out of the outbox, if it is taken in. */
  function MarkedBy(o: Outcome, ack: Ack): seq<Day> {
    if ack.marked then o.settled else []
  }

  function Carrying(answers: seq<Answer>, already: set<Day>): Round
    requires forall a :: a in answers ==> Complete(a)
    decreases |answers|
  {
    if answers == [] then Round([], [], 0)
    else
      var o := Collected(already, answers[0]);
      var marked := MarkedBy(o, answers[0].ack);
      if o.batch != More then Round(o.posted, marked, 1)
      else
        var rest := Carrying(answers[1..], already + Elements(o.settled));
        Round(o.posted + rest.posted, marked + rest.marked, 1 + rest.asked)
  }

  class Courier {
    /** The days already delivered in this round. */
    var already: set<Day>
    /** Every post made, in order. */
    ghost var posted: seq<Day>
    /** Every day the control plane marked delivered on this courier's word. */
    ghost var marked: seq<Day>

    constructor ()
      ensures already == {} && posted == [] && marked == []
    {
      already, posted, marked := {}, [], [];
    }

    /** Post a batch, newest first, to the first day that is put off. */
    method PostBatch(days: seq<Day>, replies: seq<Reply>) returns (settled: seq<Day>, stalled: bool)
      requires |replies| == |days|
      modifies this`already, this`posted
      ensures var n := Settling(replies);
              && settled == days[..n] && (stalled <==> n < |days|)
              && already == old(already) + Elements(days[..n])
              && posted == old(posted) + days[..if n < |days| then n + 1 else n]
    {
      settled := [];
      var n := 0;
      stalled := false;
      while n < |days| && !stalled
        invariant n <= |days|
        invariant forall k :: 0 <= k < n ==> Settles(replies[k])
        invariant stalled ==> n < |days| && !Settles(replies[n])
        invariant settled == days[..n] && already == old(already) + Elements(days[..n])
        invariant posted == old(posted) + days[..if stalled then n + 1 else n]
        decreases |days| - n, !stalled
      {
        posted := posted + [days[n]];
        var went := Became(replies[n]);
        assert days[..n + 1] == days[..n] + [days[n]];
        if went == Later {
          stalled := true;
        } else {
          settled := settled + [days[n]];
          already := already + {days[n]};
          n := n + 1;
        }
      }
      FirstLater(replies, n);
    }

    method Collect(a: Answer) returns (batch: Batch, settled: seq<Day>)
      requires Complete(a)
      modifies this
      ensures var o := Collected(old(already), a);
              && batch == o.batch && settled == o.settled
              && posted == old(posted) + o.posted
              && marked == old(marked) + MarkedBy(o, a.ack)
              && already == old(already) + Elements(o.settled)
    {
      if a.offered.None? {
        return Stop, [];
      }
      var days := a.offered.value;
      if days == [] {
        return Drained, [];
      }
      if exists d :: d in days && d in already {
        return Stop, [];
      }
      var stalled;
      settled, stalled := PostBatch(days, a.replies);
      assert days[..|days|] == days;
      if settled == [] {
        return Stop, [];
      }
      if a.ack.marked {
        marked := marked + settled;
      }
      batch := if stalled || !a.ack.answered then Stop else More;
    }

    /** One turn of the loop below, with what it leaves for the rest of the round. */
    method CarryBatch(answers: seq<Answer>, batch: nat) returns (verdict: Batch)
      requires batch < |answers| && forall a :: a in answers ==> Complete(a)
      modifies this
      ensures var whole := Carrying(answers[batch..], old(already));
              var rest :=
                if verdict == More then Carrying(answers[batch + 1..], already) else Round([], [], 0);
              && posted + rest.posted == old(posted) + whole.posted
              && marked + rest.marked == old(marked) + whole.marked
              && 1 + rest.asked == whole.asked
    {
      CarryingOn(answers, batch, already);
      var settled;
      verdict, settled := Collect(answers[batch]);
    }

    /** Empty the outbox, in no more than eight batches. */
    method Carry(answers: seq<Answer>) returns (ghost asked: nat)
      requires |answers| == 8 && forall a :: a in answers ==> Complete(a)
      modifies this
      ensures var round := Carrying(answers, {});
              && posted == old(posted) + round.posted
              && marked == old(marked) + round.marked
              && asked == round.asked <= 8
    {
      already := {};
      asked := 0;
      ghost var whole := Carrying(answers, {});
      assert answers[0..] == answers;
      for batch := 0 to MAX_BATCHES
        invariant asked == batch
        invariant var rest := Carrying(answers[batch..], already);
                  && posted + rest.posted == old(posted) + whole.posted
                  && marked + rest.marked == old(marked) + whole.marked
                  && batch + rest.asked == whole.asked
      {
        var verdict := CarryBatch(answers, batch);
        asked := asked + 1;
        if verdict != More {
          return;
        }
      }
    }
  }

  lemma CarryingOn(answers: seq<Answer>, batch: nat, already: set<Day>)
    requires batch < |answers| && forall a :: a in answers ==> Complete(a)
    ensures var o := Collected(already, answers[batch]);
            var marked := MarkedBy(o, answers[batch].ack);
            var rest := Carrying(answers[batch + 1..], already + Elements(o.settled));
            Carrying(answers[batch..], already) ==
            if o.batch != More then Round(o.posted, marked, 1)
            else Round(o.posted + rest.posted, marked + rest.marked, 1 + rest.asked)
  {
    assert answers[batch..][0] == answers[batch] && answers[batch..][1..] == answers[batch + 1..];
  }

  /** Whatever stops the loop, it stopped at the first that stays owed. */
  lemma {:induction false} FirstLater(replies: seq<Reply>, n: nat)
    requires n <= |replies|
    requires forall k :: 0 <= k < n ==> Settles(replies[k])
    requires n < |replies| ==> !Settles(replies[n])
    ensures n == Settling(replies)
    decreases |replies|
  {
    if n > 0 {
      assert Settles(replies[0]);
      FirstLater(replies[1..], n - 1);
    }
  }

  /**
   A batch is posted up to and with the first day put off, and settled up to and
   without it: a day is settled exactly when its own reply and every one before it is
   2xx, or 4xx other than 408 and 429, and nothing behind a day put off is posted at all.
   */
  lemma StopsAtTheFirstPutOff(already: set<Day>, days: seq<Day>, replies: seq<Reply>, ack: Ack, k: nat)
    requires |replies| == |days| && !OffersAgain(days, already) && k < |days|
    ensures var o := Collected(already, Answer(Some(days), replies, ack));
            && o.posted <= days && o.settled <= o.posted
            && (k < |o.posted| <==> forall j :: 0 <= j < k ==> Settles(replies[j]))
            && (k < |o.settled| <==> forall j :: 0 <= j <= k ==> Settles(replies[j]))
  {
    var n := Settling(replies);
    assert n < |days| ==> !Settles(replies[n]);
  }

  // ---- no day twice --------------------------------------------------------------

  lemma DistinctOfTwo(a: seq<Day>, b: seq<Day>)
    ensures Distinct(a + b) <==> Distinct(a) && Distinct(b) && Elements(a) !! Elements(b)
  {
    var all := a + b;
    if Distinct(all) {
      forall i, j | 0 <= i < j < |a| ensures a[i] != a[j] {
        assert all[i] != all[j];
      }
      forall i, j | 0 <= i < j < |b| ensures b[i] != b[j] {
        assert all[|a| + i] != all[|a| + j];
      }
      forall i, j | 0 <= i < |a| && 0 <= j < |b| ensures a[i] != b[j] {
        assert all[i] != all[|a| + j];
      }
    }
    if Distinct(a) && Distinct(b) && Elements(a) !! Elements(b) {
      forall i, j | 0 <= i < j < |all| ensures all[i] != all[j] {
        if i < |a| <= j {
          assert a[i] in Elements(a) && b[j - |a|] in Elements(b);
        }
      }
    }
  }

  lemma ABatchPostsNewDays(already: set<Day>, a: Answer)
    requires Complete(a)
    ensures Elements(Collected(already, a).posted) !! already
  {
    var o := Collected(already, a);
    forall d | d in o.posted ensures d !in already {
      assert d in a.offered.value;
    }
  }

  /** What a round posts is new to it. */
  lemma {:induction false} PostsOnlyNewDays(answers: seq<Answer>, already: set<Day>)
    requires forall a :: a in answers ==> Complete(a)
    ensures Elements(Carrying(answers, already).posted) !! already
    decreases |answers|
  {
    if answers != [] {
      var o := Collected(already, answers[0]);
      ABatchPostsNewDays(already, answers[0]);
      if o.batch == More {
        PostsOnlyNewDays(answers[1..], already + Elements(o.settled));
        var rest := Carrying(answers[1..], already + Elements(o.settled));
        forall d | d in o.posted + rest.posted ensures d !in already {
          assert d in Elements(o.posted) || d in Elements(rest.posted);
        }
      }
    }
  }

  function OfferedDays(a: Answer): seq<Day> {
    a.offered.GetOr([])
  }

  /** Whether a batch is carried whole and acknowledged to an answer, so that another follows it. */
  predicate LeadsOn(a: Answer, already: set<Day>) {
    && OfferedDays(a) != [] && !OffersAgain(OfferedDays(a), already)
    && (forall reply :: reply in a.replies ==> Settles(reply))
    && a.ack.answered
  }

  /** The days known before batch `k`: those of every batch before it. */
  function OfferedBefore(answers: seq<Answer>, already: set<Day>, k: nat): set<Day>
    requires k <= |answers|
  {
    if k == 0 then already else OfferedBefore(answers, already, k - 1) + Elements(OfferedDays(answers[k - 1]))
  }

  /** Whether a round gets as far as batch `k`. */
  predicate Reached(answers: seq<Answer>, already: set<Day>, k: nat)
    requires k <= |answers|
  {
    forall j :: 0 <= j < k ==> LeadsOn(answers[j], OfferedBefore(answers, already, j))
  }

  /** The days of a batch up to and with the first that is put off. */
  function UpToPutOff(a: Answer): seq<Day>
    requires Complete(a)
  {
    var days := OfferedDays(a);
    if Settling(a.replies) < |days| then days[..Settling(a.replies) + 1] else days
  }

  /** Whether batch `k`, if it is reached and offers nothing known, names no day twice before one is put off. */
  ghost predicate OnceAt(answers: seq<Answer>, already: set<Day>, k: nat)
    requires k < |answers| && forall a :: a in answers ==> Complete(a)
  {
    Reached(answers, already, k) && !OffersAgain(OfferedDays(answers[k]), OfferedBefore(answers, already, k)) ==>
      Distinct(UpToPutOff(answers[k]))
  }

  lemma WhatABatchDoes(a: Answer, already: set<Day>)
    requires Complete(a)
    ensures var o := Collected(already, a);
            && (o.batch == More <==> LeadsOn(a, already))
            && o.posted == (if OffersAgain(OfferedDays(a), already) then [] else UpToPutOff(a))
            && (o.batch == More ==> o.settled == OfferedDays(a))
            && (o.batch == Drained <==> a.offered == Some([]))
  {
    var n := Settling(a.replies);
    assert n < |a.replies| ==> a.replies[n] in a.replies;
    if a.offered.Some? && n == |a.replies| {
      forall reply | reply in a.replies ensures Settles(reply) {
        var k :| 0 <= k < |a.replies| && a.replies[k] == reply;
      }
    }
  }

  lemma {:induction false} OneBatchOn(answers: seq<Answer>, already: set<Day>, k: nat)
    requires k < |answers|
    ensures var next := already + Elements(OfferedDays(answers[0]));
            OfferedBefore(answers, already, k + 1) == OfferedBefore(answers[1..], next, k)
    decreases k
  {
    if k > 0 {
      OneBatchOn(answers, already, k - 1);
    }
  }

  lemma ReachedOneOn(answers: seq<Answer>, already: set<Day>, k: nat)
    requires k < |answers|
    ensures var next := already + Elements(OfferedDays(answers[0]));
            Reached(answers, already, k + 1) <==> LeadsOn(answers[0], already) && Reached(answers[1..], next, k)
  {
    var next := already + Elements(OfferedDays(answers[0]));
    forall j | 0 <= j < k
      ensures OfferedBefore(answers, already, j + 1) == OfferedBefore(answers[1..], next, j)
      ensures answers[1..][j] == answers[j + 1]
    {
      OneBatchOn(answers, already, j);
    }
    if LeadsOn(answers[0], already) && Reached(answers[1..], next, k) {
      forall j | 0 <= j < k + 1 ensures LeadsOn(answers[j], OfferedBefore(answers, already, j)) {
        assert j > 0 ==> LeadsOn(answers[1..][j - 1], OfferedBefore(answers[1..], next, j - 1));
      }
    }
    if Reached(answers, already, k + 1) {
      assert LeadsOn(answers[0], OfferedBefore(answers, already, 0));
      forall j | 0 <= j < k ensures LeadsOn(answers[1..][j], OfferedBefore(answers[1..], next, j)) {
        assert LeadsOn(answers[j + 1], OfferedBefore(answers, already, j + 1));
      }
    }
  }

  lemma OnceOneOn(answers: seq<Answer>, already: set<Day>, k: nat)
    requires k + 1 < |answers| && forall a :: a in answers ==> Complete(a)
    ensures var next := already + Elements(OfferedDays(answers[0]));
            OnceAt(answers, already, k + 1) <==> (LeadsOn(answers[0], already) ==> OnceAt(answers[1..], next, k))
  {
    ReachedOneOn(answers, already, k);
    OneBatchOn(answers, already, k);
  }

  ghost predicate OnceFrom(answers: seq<Answer>, already: set<Day>, from: nat)
    requires forall a :: a in answers ==> Complete(a)
  {
    forall k :: from <= k < |answers| ==> OnceAt(answers, already, k)
  }

  lemma OnceFromOneOn(answers: seq<Answer>, already: set<Day>)
    requires answers != [] && forall a :: a in answers ==> Complete(a)
    ensures var next := already + Elements(OfferedDays(answers[0]));
            OnceFrom(answers, already, 1) <==> (LeadsOn(answers[0], already) ==> OnceFrom(answers[1..], next, 0))
  {
    var next, rest := already + Elements(OfferedDays(answers[0])), answers[1..];
    if LeadsOn(answers[0], already) && OnceFrom(answers, already, 1) {
      forall k | 0 <= k < |rest| ensures OnceAt(rest, next, k) {
        OnceOneOn(answers, already, k);
        assert OnceAt(answers, already, k + 1);
      }
    }
    if LeadsOn(answers[0], already) ==> OnceFrom(rest, next, 0) {
      forall k | 1 <= k < |answers| ensures OnceAt(answers, already, k) {
        OnceOneOn(answers, already, k - 1);
        assert LeadsOn(answers[0], already) ==> OnceAt(rest, next, k - 1);
      }
    }
  }

  /**
   Against any answers, a round posts no day twice exactly when no batch it gets to
   names one twice before a day is put off.
   */
  lemma {:induction false} PostedOnceIff(answers: seq<Answer>, already: set<Day>)
    requires forall a :: a in answers ==> Complete(a)
    ensures Distinct(Carrying(answers, already).posted) <==> OnceFrom(answers, already, 0)
    decreases |answers|
  {
    if answers != [] {
      var o, rest := Collected(already, answers[0]), answers[1..];
      var next := already + Elements(OfferedDays(answers[0]));
      WhatABatchDoes(answers[0], already);
      FirstIsOnce(answers, already);
      OnceFromOneOn(answers, already);
      if o.batch == More {
        PostsOnlyNewDays(rest, next);
        PostedOnceIff(rest, next);
        DistinctOfTwo(o.posted, Carrying(rest, next).posted);
      }
    }
  }

  lemma FirstIsOnce(answers: seq<Answer>, already: set<Day>)
    requires answers != [] && forall a :: a in answers ==> Complete(a)
    ensures OnceAt(answers, already, 0) <==> Distinct(Collected(already, answers[0]).posted)
    ensures OnceFrom(answers, already, 0) <==> OnceAt(answers, already, 0) && OnceFrom(answers, already, 1)
  {
    WhatABatchDoes(answers[0], already);
  }

  /** So with distinct days in every batch no day is posted twice, whatever else is answered. */
  lemma {:induction false} DistinctBatchesPostOnce(answers: seq<Answer>, already: set<Day>)
    requires forall a :: a in answers ==> Complete(a) && (a.offered.Some? ==> Distinct(a.offered.value))
    ensures Distinct(Carrying(answers, already).posted)
    decreases |answers|
  {
    if answers != [] {
      var o := Collected(already, answers[0]);
      if o.batch == More {
        var next := already + Elements(o.settled);
        PostsOnlyNewDays(answers[1..], next);
        DistinctBatchesPostOnce(answers[1..], next);
        DistinctOfTwo(o.posted, Carrying(answers[1..], next).posted);
      }
    }
  }

  /** A batch with a day in it twice is posted twice: the repeat is looked for only between batches. */
  lemma ADayTwiceInABatchIsPostedTwice(d: Day, ack: Ack)
    ensures var a := Answer(Some([d, d]), [Status(200), Status(200)], ack);
            Collected({}, a).posted == [d, d] && !Distinct(Carrying([a], {}).posted)
  {
    var a := Answer(Some([d, d]), [Status(200), Status(200)], ack);
    FirstLater(a.replies, 2);
    assert !OffersAgain([d, d], {});
    assert [a][1..] == [];
    var rest := Carrying([], {} + Elements([d, d]));
    assert rest.posted == [];
    var posted := Carrying([a], {}).posted;
    assert posted == [d, d] + rest.posted || posted == [d, d];
    assert posted[0] == posted[1];
  }

  // ---- a control plane that keeps its side -------------------------------------------

  /** What is owed, newest first and no more than `limit` days of it. */
  function Offer(owed: seq<Day>, limit: nat): seq<Day> {
    if |owed| <= limit then owed else owed[..limit]
  }

  function Honest(owed: seq<Day>, limit: nat, reply: Day -> Reply, ack: Ack): (a: Answer)
    ensures Complete(a)
  {
    var days := Offer(owed, limit);
    Answer(Some(days), seq(|days|, i requires 0 <= i < |days| => reply(days[i])), ack)
  }

  /** What stays owed once some days are marked delivered. */
  function Unmarked(owed: seq<Day>, marked: seq<Day>): seq<Day> {
    if owed == [] then []
    else if owed[0] in marked then Unmarked(owed[1..], marked)
    else [owed[0]] + Unmarked(owed[1..], marked)
  }

  /**
   An honest control plane's side of a round: each batch is offered what is owed
   by then, and takes out of the outbox what an acknowledgement it hears says.
   */
  function HonestAnswers(owed: seq<Day>, limit: nat, reply: Day -> Reply, acks: seq<Ack>, already: set<Day>)
    : (answers: seq<Answer>)
    ensures |answers| == |acks| && forall a :: a in answers ==> Complete(a)
    decreases |acks|
  {
    if acks == [] then []
    else
      var a := Honest(owed, limit, reply, acks[0]);
      var o := Collected(already, a);
      [a] + HonestAnswers(Unmarked(owed, MarkedBy(o, acks[0])), limit, reply, acks[1..], already + Elements(o.settled))
  }

  /** What is still owed after a round with an honest control plane. */
  function LeftOwed(owed: seq<Day>, limit: nat, reply: Day -> Reply, acks: seq<Ack>, already: set<Day>): seq<Day> {
    Unmarked(owed, Carrying(HonestAnswers(owed, limit, reply, acks, already), already).marked)
  }

  lemma {:induction false} UnmarkedInTwo(owed: seq<Day>, a: seq<Day>, b: seq<Day>)
    ensures Unmarked(owed, a + b) == Unmarked(Unmarked(owed, a), b)
    decreases |owed|
  {
    if owed != [] {
      UnmarkedInTwo(owed[1..], a, b);
      var rest := Unmarked(owed[1..], a);
      assert ([owed[0]] + rest)[1..] == rest;
    }
  }

  /** Batch by batch: what is left after the first is where the rest of the round begins. */
  lemma LeftOwedInTwo(owed: seq<Day>, limit: nat, reply: Day -> Reply, acks: seq<Ack>, already: set<Day>)
    requires acks != []
    ensures
      var o := Collected(already, Honest(owed, limit, reply, acks[0]));
      var after := Unmarked(owed, MarkedBy(o, acks[0]));
      LeftOwed(owed, limit, reply, acks, already) ==
      if o.batch == More then LeftOwed(after, limit, reply, acks[1..], already + Elements(o.settled)) else after
  {
    var answers := HonestAnswers(owed, limit, reply, acks, already);
    var o := Collected(already, answers[0]);
    var marked := MarkedBy(o, acks[0]);
    if o.batch == More {
      var next := already + Elements(o.settled);
      var rest := HonestAnswers(Unmarked(owed, marked), limit, reply, acks[1..], next);
      assert answers[1..] == rest;
      UnmarkedInTwo(owed, marked, Carrying(rest, next).marked);
    }
  }

  lemma {:induction false} NoneOfThemMarked(owed: seq<Day>, marked: seq<Day>)
    requires Elements(owed) !! Elements(marked)
    ensures Unmarked(owed, marked) == owed
    decreases |owed|
  {
    if owed != [] {
      assert owed[0] in Elements(owed);
      assert Elements(owed[1..]) <= Elements(owed);
      NoneOfThemMarked(owed[1..], marked);
    }
  }

  /** Marking the newest days leaves the rest as it was. */
  lemma {:induction false} NewestMarked(owed: seq<Day>, n: nat, marked: seq<Day>)
    requires Distinct(owed) && n <= |owed|
    requires forall k :: 0 <= k < |owed| ==> (owed[k] in marked <==> k < n)
    ensures Unmarked(owed, marked) == owed[n..]
    decreases |owed|
  {
    if n == 0 {
      NoneOfThemMarked(owed, marked);
      assert owed[0..] == owed;
    } else {
      assert Distinct(owed[1..]) by {
        assert owed == [owed[0]] + owed[1..];
        ConsElements(owed[0], owed[1..]);
      }
      NewestMarked(owed[1..], n - 1, marked);
      assert owed[1..][n - 1..] == owed[n..];
    }
  }

  /** How many of the newest days one batch takes out of the outbox. */
  function Taken(owed: seq<Day>, limit: nat, reply: Day -> Reply, ack: Ack, already: set<Day>): (n: nat)
    ensures n <= |owed|
  {
    var o := Collected(already, Honest(owed, limit, reply, ack));
    if ack.marked then |o.settled| else 0
  }

  /** The gateway's reply to each of the `n` newest days settles it. */
  predicate AllSettle(owed: seq<Day>, n: nat, reply: Day -> Reply) {
    n <= |owed| && forall k :: 0 <= k < n ==> Settles(reply(owed[k]))
  }

  lemma ABatchTakesTheNewest(owed: seq<Day>, limit: nat, reply: Day -> Reply, ack: Ack, already: set<Day>)
    requires Distinct(owed)
    ensures var o := Collected(already, Honest(owed, limit, reply, ack));
            var n := Taken(owed, limit, reply, ack, already);
            && Unmarked(owed, MarkedBy(o, ack)) == owed[n..]
            && AllSettle(owed, n, reply)
  {
    var a := Honest(owed, limit, reply, ack);
    var o := Collected(already, a);
    var n := |o.settled|;
    assert o.settled == owed[..n];
    assert forall k :: 0 <= k < n ==> a.replies[k] == reply(owed[k]);
    if o.settled != [] && ack.marked {
      forall k | 0 <= k < |owed| ensures owed[k] in o.settled <==> k < n {
        if k < n {
          assert o.settled[k] == owed[k];
        }
      }
      NewestMarked(owed, n, o.settled);
    } else {
      NoneOfThemMarked(owed, []);
      assert owed[0..] == owed;
    }
  }

  lemma DistinctTail(owed: seq<Day>, n: nat)
    requires Distinct(owed) && n <= |owed|
    ensures Distinct(owed[n..])
  {
    assert owed == owed[..n] + owed[n..];
    DistinctOfTwo(owed[..n], owed[n..]);
  }

  lemma GoneInTwo(owed: seq<Day>, n: nat, more: nat, reply: Day -> Reply)
    requires AllSettle(owed, n, reply) && AllSettle(owed[n..], more, reply)
    ensures owed[n..][more..] == owed[n + more..] && AllSettle(owed, n + more, reply)
  {
    forall k | n <= k < n + more ensures Settles(reply(owed[k])) {
      assert owed[n..][k - n] == owed[k];
    }
  }

  /**
   What stays owed is an unbroken run of the oldest days, whatever the gateway
   answers and whichever acknowledgements are lost; and no day went that the
   gateway asked to see later.
   */
  lemma {:induction false} TheOldestStayOwed(owed: seq<Day>, limit: nat, reply: Day -> Reply, acks: seq<Ack>,
                                             already: set<Day>) returns (gone: nat)
    requires Distinct(owed)
    ensures gone <= |owed| && LeftOwed(owed, limit, reply, acks, already) == owed[gone..]
    ensures AllSettle(owed, gone, reply)
    decreases |acks|
  {
    if acks == [] {
      gone := 0;
      NoneOfThemMarked(owed, []);
    } else {
      LeftOwedInTwo(owed, limit, reply, acks, already);
      var o := Collected(already, Honest(owed, limit, reply, acks[0]));
      ABatchTakesTheNewest(owed, limit, reply, acks[0], already);
      var n := Taken(owed, limit, reply, acks[0], already);
      gone := n;
      if o.batch == More {
        DistinctTail(owed, n);
        var more := TheOldestStayOwed(owed[n..], limit, reply, acks[1..], already + Elements(o.settled));
        gone := n + more;
        GoneInTwo(owed, n, more, reply);
      }
    }
  }

  predicate Heard(acks: seq<Ack>) {
    forall k :: 0 <= k < |acks| ==> acks[k].marked && acks[k].answered
  }

  predicate NothingPutOff(owed: seq<Day>, reply: Day -> Reply) {
    forall k :: 0 <= k < |owed| ==> Settles(reply(owed[k]))
  }

  lemma {:induction false} EmptiedWhenNothingIsPutOff(owed: seq<Day>, limit: nat, reply: Day -> Reply, acks: seq<Ack>,
                                                      already: set<Day>)
    requires Distinct(owed) && Elements(owed) !! already
    requires limit >= 1 && |owed| <= limit * |acks| && Heard(acks) && NothingPutOff(owed, reply)
    ensures LeftOwed(owed, limit, reply, acks, already) == []
    decreases |acks|
  {
    if acks != [] {
      LeftOwedInTwo(owed, limit, reply, acks, already);
      var o := Collected(already, Honest(owed, limit, reply, acks[0]));
      ABatchTakesTheNewest(owed, limit, reply, acks[0], already);
      var n := Taken(owed, limit, reply, acks[0], already);
      if o.batch == More {
        AFullBatch(owed, limit, reply, acks[0], already);
        EnoughBatches(|owed|, n, limit, |acks|);
        DistinctTail(owed, n);
        EmptiedWhenNothingIsPutOff(owed[n..], limit, reply, acks[1..], already + Elements(o.settled));
      } else if owed != [] {
        StoppedByOnePutOff(owed, limit, reply, acks[0], already);
      }
    }
  }

  /** A batch takes no more than its room, so what a round takes is bounded. */
  lemma {:induction false} RoomIsLimited(owed: seq<Day>, limit: nat, reply: Day -> Reply, acks: seq<Ack>,
                                         already: set<Day>)
    requires Distinct(owed)
    ensures |LeftOwed(owed, limit, reply, acks, already)| >= |owed| - limit * |acks|
    decreases |acks|
  {
    if acks == [] {
      NoneOfThemMarked(owed, []);
    } else {
      LeftOwedInTwo(owed, limit, reply, acks, already);
      var o := Collected(already, Honest(owed, limit, reply, acks[0]));
      ABatchTakesTheNewest(owed, limit, reply, acks[0], already);
      var n := Taken(owed, limit, reply, acks[0], already);
      assert n <= limit;
      RoomOfOneMore(limit, |acks|);
      if o.batch == More {
        DistinctTail(owed, n);
        RoomIsLimited(owed[n..], limit, reply, acks[1..], already + Elements(o.settled));
      }
    }
  }

  lemma RoomOfOneMore(limit: nat, batches: nat)
    requires batches >= 1
    ensures limit * batches == limit + limit * (batches - 1) && limit * (batches - 1) >= 0
  {
  }

  /**
   With every acknowledgement heard, a round of eight batches empties the outbox
   exactly when the batches have room for all that is owed and the gateway's reply to
   every day is 2xx, or 4xx other than 408 and 429.
   */
  lemma EmptiedIff(owed: seq<Day>, limit: nat, reply: Day -> Reply, acks: seq<Ack>)
    requires Distinct(owed) && |acks| == 8 && forall k :: 0 <= k < 8 ==> acks[k] == Ack(true, true)
    ensures LeftOwed(owed, limit, reply, acks, {}) == [] <==> |owed| <= 8 * limit && NothingPutOff(owed, reply)
  {
    if |owed| <= 8 * limit && NothingPutOff(owed, reply) && owed != [] {
      EmptiedWhenNothingIsPutOff(owed, limit, reply, acks, {});
    }
    RoomIsLimited(owed, limit, reply, acks, {});
    var gone := TheOldestStayOwed(owed, limit, reply, acks, {});
    assert LeftOwed(owed, limit, reply, acks, {}) == [] ==> gone == |owed|;
  }

  /** A batch that leads to another took all it was offered, and nothing of it stays owed. */
  lemma AFullBatch(owed: seq<Day>, limit: nat, reply: Day -> Reply, ack: Ack, already: set<Day>)
    requires Distinct(owed) && Elements(owed) !! already && ack.marked
    requires Collected(already, Honest(owed, limit, reply, ack)).batch == More
    ensures var n := Taken(owed, limit, reply, ack, already);
            var settled := Collected(already, Honest(owed, limit, reply, ack)).settled;
            && (n == |owed| || n == limit)
            && Elements(owed[n..]) !! already + Elements(settled)
  {
    var settled := Collected(already, Honest(owed, limit, reply, ack)).settled;
    var n := |settled|;
    assert settled == owed[..n];
    assert owed == owed[..n] + owed[n..];
    DistinctOfTwo(owed[..n], owed[n..]);
    assert Elements(owed[n..]) <= Elements(owed);
  }

  lemma EnoughBatches(owed: nat, n: nat, limit: nat, batches: nat)
    requires n <= owed <= limit * batches && batches >= 1
    requires n == owed || n == limit
    ensures owed - n <= limit * (batches - 1)
  {
    assert limit * (batches - 1) == limit * batches - limit;
    if n == owed {
      assert 0 <= limit * (batches - 1);
    }
  }

  lemma StoppedByOnePutOff(owed: seq<Day>, limit: nat, reply: Day -> Reply, ack: Ack, already: set<Day>)
    requires owed != [] && Elements(owed) !! already && limit >= 1 && ack.answered
    requires Collected(already, Honest(owed, limit, reply, ack)).batch != More
    ensures var n := |Collected(already, Honest(owed, limit, reply, ack)).settled|;
            n < |owed| && !Settles(reply(owed[n]))
  {
    var a := Honest(owed, limit, reply, ack);
    var days := Offer(owed, limit);
    assert forall d :: d in days ==> d in Elements(owed);
    assert !OffersAgain(days, already);
    var n := Settling(a.replies);
    assert n < |days| && a.replies[n] == reply(days[n]);
  }
}
