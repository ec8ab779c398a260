/**
 A courier nobody interleaves with, step by step: a run of the whole system in
 which one batch is posted, taken in by the gateway, acknowledged and marked.
 */
module CouriersAlone {
  import opened Common
  import opened OrderedSets
  import opened Telemetry
  import opened Couriers

  // ---- runs --------------------------------------------------------------------

  lemma {:induction false} RunInTwo(w: World, a: seq<Step>, b: seq<Step>)
    ensures Run(w, a + b) == Run(Run(w, a), b)
    decreases |b|
  {
    if b == [] {
      assert a + b == a;
    } else {
      var all := a + b;
      assert all[..|all| - 1] == a + b[..|b| - 1] && all[|all| - 1] == b[|b| - 1];
      RunInTwo(w, a, b[..|b| - 1]);
    }
  }

  lemma RunOfOne(w: World, step: Step)
    requires Enabled(w, step)
    ensures Run(w, [step]) == Next(w, step)
  {
    assert [step][..0] == [];
  }

  lemma RunOn(w: World, steps: seq<Step>, step: Step)
    requires Enabled(Run(w, steps), step)
    ensures Run(w, steps + [step]) == Next(Run(w, steps), step)
  {
    RunInTwo(w, steps, [step]);
    RunOfOne(Run(w, steps), step);
  }

  // ---- one post ------------------------------------------------------------------

  predicate Took(reply: Reply) {
    reply.Status? && 200 <= reply.code < 300
  }

  /** What the rest of a batch leaves at the gateway. */
  function StoredBy(table: seq<Digest>, todo: seq<Digest>, replies: seq<Reply>): seq<Digest>
    requires |todo| == |replies|
    decreases |todo|
  {
    if todo == [] || !Settles(replies[0]) then table
    else StoredBy(if Took(replies[0]) then Upsert(table, todo[0]) else table, todo[1..], replies[1..])
  }

  function RefusedBy(refused: set<Day>, todo: seq<Digest>, replies: seq<Reply>): set<Day>
    requires |todo| == |replies|
    decreases |todo|
  {
    if todo == [] || !Settles(replies[0]) then refused
    else RefusedBy(if Took(replies[0]) then refused else refused + {todo[0].day}, todo[1..], replies[1..])
  }

  /** Nothing of the control plane's moved. */
  predicate SamePlane(w: World, after: World) {
    w.rows == after.rows && w.today == after.today && w.acks == after.acks && w.offers == after.offers
  }

  lemma OnePost(w: World, c: nat, reply: Reply) returns (steps: seq<Step>)
    requires c < |w.carriers| && w.carriers[c].phase.Posting?
    requires w.carriers[c].phase.todo != [] && !w.carriers[c].phase.sent
    ensures var after, k := Run(w, steps), w.carriers[c];
            var digest := k.phase.todo[0];
            && SamePlane(w, after)
            && after.carriers == w.carriers[c := if Settles(reply) then Hearing(k) else PuttingOff(k)]
            && after.table == (if Took(reply) then Upsert(w.table, digest) else w.table)
            && after.refused == if Settles(reply) && !Took(reply) then w.refused + {digest.day} else w.refused
  {
    var k := w.carriers[c];
    var digest := k.phase.todo[0];
    RunOfOne(w, Post(c));
    var sent := Next(w, Post(c));
    assert sent.carriers[c].phase == Posting(k.phase.todo, true);
    if Settles(reply) {
      var taking := if Took(reply) then TakeIn(digest) else Refuse(digest);
      var went := if Took(reply) then Delivered else Refused;
      RunOn(w, [Post(c)], taking);
      var taken := Next(sent, taking);
      assert taken.carriers == sent.carriers && (digest, went) in taken.answers;
      RunOn(w, [Post(c)] + [taking], Hear(c, went));
      steps := [Post(c)] + [taking] + [Hear(c, went)];
      assert Hearing(taken.carriers[c]) == Hearing(k);
      assert sent.carriers[c := Hearing(k)] == w.carriers[c := Hearing(k)];
    } else {
      RunOn(w, [Post(c)], PutOff(c));
      steps := [Post(c)] + [PutOff(c)];
      assert PuttingOff(sent.carriers[c]) == PuttingOff(k);
      assert sent.carriers[c := PuttingOff(k)] == w.carriers[c := PuttingOff(k)];
    }
  }

  /** The rest of a batch, post by post. */
  lemma {:induction false} PostsTheRest(w: World, c: nat, todo: seq<Digest>, replies: seq<Reply>)
    returns (steps: seq<Step>)
    requires c < |w.carriers| && w.carriers[c].phase == Posting(todo, false) && todo != [] && |todo| == |replies|
    ensures var after := Run(w, steps);
            && SamePlane(w, after)
            && after.carriers == w.carriers[c := Replied(w.carriers[c], replies)]
            && after.table == StoredBy(w.table, todo, replies)
            && after.refused == RefusedBy(w.refused, todo, replies)
    decreases |todo|
  {
    steps := OnePost(w, c, replies[0]);
    var next := Run(w, steps);
    BecameIff(replies[0]);
    if Settles(replies[0]) && todo[1..] != [] {
      var more := PostsTheRest(next, c, todo[1..], replies[1..]);
      RunInTwo(w, steps, more);
      steps := steps + more;
      var done := Replied(w.carriers[c], replies);
      assert next.carriers[c := done] == w.carriers[c := done];
    } else if Settles(replies[0]) {
      assert replies[1..] == [];
    }
  }

  // ---- what is at the gateway then -------------------------------------------------

  predicate OnOtherDays(todo: seq<Digest>, day: Day) {
    forall i :: 0 <= i < |todo| ==> todo[i].day != day
  }

  lemma {:induction false} StoredStays(table: seq<Digest>, todo: seq<Digest>, replies: seq<Reply>, s: Digest)
    requires |todo| == |replies| && OncePerDay(table) && s in table && OnOtherDays(todo, s.day)
    ensures s in StoredBy(table, todo, replies)
    decreases |todo|
  {
    if todo != [] && Settles(replies[0]) {
      UpsertStores(table, todo[0]);
      assert OnOtherDays(todo[1..], s.day);
      StoredStays(if Took(replies[0]) then Upsert(table, todo[0]) else table, todo[1..], replies[1..], s);
    }
  }

  /** A digest posted with a 2xx reply is stored as it is, and one refused for good is noted so. */
  lemma {:induction false} PostedIsThere(table: seq<Digest>, refused: set<Day>, todo: seq<Digest>, replies: seq<Reply>,
                                         j: nat)
    requires |todo| == |replies| && OncePerDay(table) && OncePerDay(todo) && j < |todo|
    requires forall i :: 0 <= i <= j ==> Settles(replies[i])
    ensures if Took(replies[j]) then todo[j] in StoredBy(table, todo, replies)
            else todo[j].day in RefusedBy(refused, todo, replies)
    decreases |todo|
  {
    UpsertStores(table, todo[0]);
    var after := if Took(replies[0]) then Upsert(table, todo[0]) else table;
    var noted := if Took(replies[0]) then refused else refused + {todo[0].day};
    assert OnOtherDays(todo[1..], todo[0].day);
    assert OncePerDay(todo[1..]);
    if j > 0 {
      PostedIsThere(after, noted, todo[1..], replies[1..], j - 1);
    } else if Took(replies[0]) {
      StoredStays(after, todo[1..], replies[1..], todo[0]);
    } else {
      NotedStays(noted, todo[1..], replies[1..], todo[0].day);
    }
  }

  lemma {:induction false} NotedStays(refused: set<Day>, todo: seq<Digest>, replies: seq<Reply>, day: Day)
    requires |todo| == |replies| && day in refused
    ensures day in RefusedBy(refused, todo, replies)
    decreases |todo|
  {
    if todo != [] && Settles(replies[0]) {
      NotedStays(if Took(replies[0]) then refused else refused + {todo[0].day}, todo[1..], replies[1..], day);
    }
  }

  // ---- a whole batch -----------------------------------------------------------------

  /** Posting, and then the acknowledgement heard on both sides, where there is anything to acknowledge. */
  lemma AcknowledgesTheBatch(w: World, c: nat) returns (steps: seq<Step>)
    requires c < |w.carriers| && w.carriers[c].phase.Acknowledging? && !w.carriers[c].phase.sent
    ensures var after, k := Run(w, steps), w.carriers[c];
            && after.rows == Marking(w.rows, k.settled) && after.table == w.table && after.refused == w.refused
            && after.carriers == w.carriers[c := Acknowledged(k)]
  {
    var k := w.carriers[c];
    RunOfOne(w, Acknowledge(c));
    RunOn(w, [Acknowledge(c)], Mark(k.settled));
    RunOn(w, [Acknowledge(c)] + [Mark(k.settled)], AckAnswered(c));
    steps := [Acknowledge(c)] + [Mark(k.settled)] + [AckAnswered(c)];
    assert w.carriers[c := k.(phase := Acknowledging(k.phase.stalled, true))][c := Acknowledged(k)]
        == w.carriers[c := Acknowledged(k)];
  }

  lemma MarkedIsNotOwed(w: World, after: World, days: seq<Day>, d: Day)
    requires after.rows == Marking(w.rows, days)
    ensures IsOwed(after, d) <==> IsOwed(w, d) && d !in days
  {
  }

  lemma BatchPosted(w: World, c: nat, offer: seq<Digest>, replies: seq<Reply>) returns (steps: seq<Step>)
    requires c < |w.carriers| && w.carriers[c].phase.Asked? && offer in w.offers && offer != [] && |replies| == |offer|
    requires forall i :: 0 <= i < |offer| ==> offer[i].day !in w.carriers[c].already
    ensures var after, n, k := Run(w, steps), Settling(replies), w.carriers[c];
            && after.rows == (if n == 0 then w.rows else Marking(w.rows, Days(offer)[..n]))
            && after.table == StoredBy(w.table, offer, replies)
            && after.refused == RefusedBy(w.refused, offer, replies)
            && c < |after.carriers| && after.carriers[c].already == k.already + Elements(Days(offer)[..n])
            && after.carriers[c].phase == if n == |offer| && k.batches + 1 < 8 then Asked else Idle
  {
    var k := w.carriers[c];
    RunOfOne(w, Begin(c, offer));
    var begun := Next(w, Begin(c, offer));
    var posting := PostsTheRest(begun, c, offer, replies);
    RunInTwo(w, [Begin(c, offer)], posting);
    steps := [Begin(c, offer)] + posting;
    var posted := Run(w, steps);
    RepliesSettle(begun.carriers[c], offer, replies);
    var settled := Days(offer)[..Settling(replies)];
    assert [] + settled == settled;
    if Settling(replies) > 0 {
      var ending := AcknowledgesTheBatch(posted, c);
      RunInTwo(w, steps, ending);
      steps := steps + ending;
    }
  }

  /**
   Left alone with its batch, a courier can carry it whole: each day it settles is at
   the gateway, under the very document offered where the reply was 2xx, and owed no
   more; each other stays owed; and it asks again exactly when every reply settled.
   */
  lemma ACourierAloneCarries(w: World, c: nat, offer: seq<Digest>, replies: seq<Reply>) returns (steps: seq<Step>)
    requires OncePerDay(w.table) && OncePerDay(offer) && OffersOwed(w, offer)
    requires c < |w.carriers| && w.carriers[c].phase.Asked? && w.carriers[c].batches < 7
    requires offer in w.offers && offer != [] && |replies| == |offer|
    requires forall i :: 0 <= i < |offer| ==> offer[i].day !in w.carriers[c].already
    ensures var after := Run(w, steps);
            && (forall j :: 0 <= j < |offer| ==>
                  var settled := forall i :: 0 <= i <= j ==> Settles(replies[i]);
                  && (IsOwed(after, offer[j].day) <==> !settled)
                  && (settled && replies[j].code < 300 ==> offer[j] in after.table)
                  && (settled && replies[j].code >= 400 ==> offer[j].day in after.refused))
            && c < |after.carriers|
            && after.carriers[c].phase ==
               (if forall i :: 0 <= i < |replies| ==> Settles(replies[i]) then Asked else Idle)
  {
    steps := BatchPosted(w, c, offer, replies);
    var after, n := Run(w, steps), Settling(replies);
    var days := Days(offer)[..n];
    assert n < |replies| ==> !Settles(replies[n]);
    forall j | 0 <= j < |offer|
      ensures var settled := forall i :: 0 <= i <= j ==> Settles(replies[i]);
              && (IsOwed(after, offer[j].day) <==> !settled)
              && (settled && replies[j].code < 300 ==> offer[j] in after.table)
              && (settled && replies[j].code >= 400 ==> offer[j].day in after.refused)
    {
      assert (forall i :: 0 <= i <= j ==> Settles(replies[i])) <==> j < n;
      DaysInFront(offer, n, j);
      if n > 0 {
        MarkedIsNotOwed(w, after, days, offer[j].day);
      }
      if j < n {
        PostedIsThere(w.table, w.refused, offer, replies, j);
      }
    }
  }

  lemma DaysInFront(offer: seq<Digest>, n: nat, j: nat)
    requires OncePerDay(offer) && n <= |offer| && j < |offer|
    ensures offer[j].day in Days(offer)[..n] <==> j < n
  {
    var days := Days(offer)[..n];
    if j < n {
      assert days[j] == offer[j].day;
    }
  }

  /** So does one that sets out: it asks, is served whatever of the outbox, and carries that. */
  lemma ACourierSetsOut(w: World, c: nat, offer: seq<Digest>, replies: seq<Reply>) returns (steps: seq<Step>)
    requires OncePerDay(w.table) && OncePerDay(offer) && OffersOwed(w, offer)
    requires c < |w.carriers| && w.carriers[c].phase.Idle? && offer != [] && |replies| == |offer|
    ensures var after := Run(w, steps);
            && (forall j :: 0 <= j < |offer| ==>
                  var settled := forall i :: 0 <= i <= j ==> Settles(replies[i]);
                  && (IsOwed(after, offer[j].day) <==> !settled)
                  && (settled && replies[j].code < 300 ==> offer[j] in after.table)
                  && (settled && replies[j].code >= 400 ==> offer[j].day in after.refused))
            && c < |after.carriers|
            && after.carriers[c].phase ==
               (if forall i :: 0 <= i < |replies| ==> Settles(replies[i]) then Asked else Idle)
  {
    RunOfOne(w, Ask(c));
    RunOn(w, [Ask(c)], Serve(offer));
    var served := Run(w, [Ask(c)] + [Serve(offer)]);
    var more := ACourierAloneCarries(served, c, offer, replies);
    RunInTwo(w, [Ask(c)] + [Serve(offer)], more);
    steps := [Ask(c)] + [Serve(offer)] + more;
  }
}
