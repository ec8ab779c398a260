/**
 Many couriers at one control plane and one gateway, with every message free to
 be late, lost or taken in after its sender gave up.

 A step is one thing happening somewhere: the control plane sweeping its outbox
 or answering, a courier moving on, the gateway taking a digest in. Messages are
 kept once sent, so any of them may be taken in at any later time, or never.
 */
module Couriers {
  import opened Common
  import opened OrderedSets
  import opened Telemetry

  type Payload = string

  datatype Digest = Digest(day: Day, payload: Payload)

  /** An outbox row: its document, and whether it was marked delivered. */
  datatype Row = Row(payload: Payload, delivered: bool)

  /** Where a courier stands between its awaits. */
  datatype Phase =
    | Idle
    | Asked
    | Posting(todo: seq<Digest>, sent: bool)
    | Acknowledging(stalled: bool, sent: bool)

  datatype Carrier = Carrier(phase: Phase, already: set<Day>, settled: seq<Day>, batches: nat)

  datatype World = World(
    today: Day,
    rows: map<Day, Row>,                   // the control plane's outbox
    table: seq<Digest>,                    // what the gateway stored
    carriers: seq<Carrier>,
    offers: set<seq<Digest>>,              // answers to couriers that asked
    posts: set<Digest>,                    // digests on their way to the gateway
    answers: set<(Digest, Carried)>,       // the gateway's answers
    acks: set<seq<Day>>,                   // acknowledgements on their way back
    // What ever happened, for the record.
    recorded: set<Digest>,
    refused: set<Day>,
    dropped: set<Day>
  )

  datatype Step =
    | NewDay
    | Record(digest: Digest)
    | Prune
    | Discard
    | Ask(c: nat)
    | Serve(offer: seq<Digest>)
    | NotServed(c: nat)
    | Begin(c: nat, offer: seq<Digest>)
    | Post(c: nat)
    | TakeIn(digest: Digest)
    | Refuse(digest: Digest)
    | Hear(c: nat, went: Carried)
    | PutOff(c: nat)
    | Acknowledge(c: nat)
    | Mark(days: seq<Day>)
    | AckAnswered(c: nat)
    | AckLost(c: nat)

  /** How long a digest is worth keeping, in days. */
  const KEEP_UNDELIVERED_DAYS: nat := 30

  predicate IsOwed(w: World, d: Day) {
    d in w.rows && !w.rows[d].delivered
  }

  predicate Stored(table: seq<Digest>, d: Day) {
    exists i :: 0 <= i < |table| && table[i].day == d
  }

  /** The day reached the gateway: it is stored there, or was refused for good. */
  predicate Reached(w: World, d: Day) {
    Stored(w.table, d) || d in w.refused
  }

  /** The gateway keys on the day: a second digest for it replaces the first. */
  function Upsert(table: seq<Digest>, digest: Digest): seq<Digest> {
    if table == [] then [digest]
    else if table[0].day == digest.day then [digest] + table[1..]
    else [table[0]] + Upsert(table[1..], digest)
  }

  // ---- steps -----------------------------------------------------------------

  /** Whether an offer holds only rows that are owed, and the documents they hold. */
  predicate OffersOwed(w: World, offer: seq<Digest>) {
    forall i :: 0 <= i < |offer| ==> IsOwed(w, offer[i].day) && w.rows[offer[i].day].payload == offer[i].payload
  }

  /** Whether a step can happen now. */
  predicate Enabled(w: World, step: Step) {
    match step
    case NewDay => true
    // A day already in `rows`, or out of the window, is not recorded.
    case Record(digest) =>
      w.today - KEEP_UNDELIVERED_DAYS <= digest.day < w.today && digest.day !in w.rows
    case Prune => true
    case Discard => true
    case Ask(c) => c < |w.carriers| && w.carriers[c].phase.Idle?
    case Serve(offer) => OffersOwed(w, offer)
    case NotServed(c) => c < |w.carriers| && w.carriers[c].phase.Asked?
    case Begin(c, offer) => c < |w.carriers| && w.carriers[c].phase.Asked? && offer in w.offers
    case Post(c) =>
      && c < |w.carriers| && w.carriers[c].phase.Posting?
      && w.carriers[c].phase.todo != [] && !w.carriers[c].phase.sent
    case TakeIn(digest) => digest in w.posts
    case Refuse(digest) => digest in w.posts
    case Hear(c, went) =>
      && c < |w.carriers| && w.carriers[c].phase.Posting?
      && w.carriers[c].phase.todo != [] && w.carriers[c].phase.sent
      && (w.carriers[c].phase.todo[0], went) in w.answers
    case PutOff(c) => c < |w.carriers| && w.carriers[c].phase.Posting? && w.carriers[c].phase.sent
    case Acknowledge(c) => c < |w.carriers| && w.carriers[c].phase.Acknowledging? && !w.carriers[c].phase.sent
    case Mark(days) => days in w.acks
    case AckAnswered(c) => c < |w.carriers| && w.carriers[c].phase.Acknowledging? && w.carriers[c].phase.sent
    case AckLost(c) => c < |w.carriers| && w.carriers[c].phase.Acknowledging? && w.carriers[c].phase.sent
  }

  /** A courier taking up a batch: nothing owed or a day come back ends its round. */
  function TakingUp(k: Carrier, offer: seq<Digest>): Carrier {
    if offer == [] || exists i :: 0 <= i < |offer| && offer[i].day in k.already then k.(phase := Idle)
    else k.(phase := Posting(offer, false), settled := [])
  }

  function Hearing(k: Carrier): Carrier
    requires k.phase.Posting? && k.phase.todo != []
  {
    var d := k.phase.todo[0].day;
    var rest := k.phase.todo[1..];
    k.(settled := k.settled + [d], already := k.already + {d},
       phase := if rest == [] then Acknowledging(false, false) else Posting(rest, false))
  }

  function PuttingOff(k: Carrier): Carrier {
    k.(phase := if k.settled == [] then Idle else Acknowledging(true, false))
  }

  function Acknowledged(k: Carrier): Carrier
    requires k.phase.Acknowledging?
  {
    k.(batches := k.batches + 1,
       phase := if k.phase.stalled || k.batches + 1 >= MAX_BATCHES then Idle else Asked)
  }

  function Marking(rows: map<Day, Row>, days: seq<Day>): map<Day, Row> {
    map d | d in rows :: if d in days then rows[d].(delivered := true) else rows[d]
  }

  function With(w: World, c: nat, k: Carrier): World
    requires c < |w.carriers|
  {
    w.(carriers := w.carriers[c := k])
  }

  function Next(w: World, step: Step): World
    requires Enabled(w, step)
  {
    match step
    case NewDay => w.(today := w.today + 1)
    case Record(digest) =>
      w.(rows := w.rows[digest.day := Row(digest.payload, false)], recorded := w.recorded + {digest})
    case Prune =>
      var aged := set d | d in w.rows && d < w.today - KEEP_UNDELIVERED_DAYS;
      w.(rows := w.rows - aged, dropped := w.dropped + aged)
    case Discard =>
      var owed := set d | d in w.rows && !w.rows[d].delivered;
      w.(rows := w.rows - owed, dropped := w.dropped + owed)
    case Ask(c) => With(w, c, Carrier(Asked, {}, [], 0))
    case Serve(offer) => w.(offers := w.offers + {offer})
    case NotServed(c) => With(w, c, w.carriers[c].(phase := Idle))
    case Begin(c, offer) => With(w, c, TakingUp(w.carriers[c], offer))
    case Post(c) =>
      var k := w.carriers[c];
      With(w.(posts := w.posts + {k.phase.todo[0]}), c, k.(phase := Posting(k.phase.todo, true)))
    case TakeIn(digest) =>
      w.(table := Upsert(w.table, digest), answers := w.answers + {(digest, Delivered)})
    case Refuse(digest) =>
      w.(refused := w.refused + {digest.day}, answers := w.answers + {(digest, Refused)})
    case Hear(c, went) => With(w, c, Hearing(w.carriers[c]))
    case PutOff(c) => With(w, c, PuttingOff(w.carriers[c]))
    case Acknowledge(c) =>
      var k := w.carriers[c];
      With(w.(acks := w.acks + {k.settled}), c, k.(phase := Acknowledging(k.phase.stalled, true)))
    case Mark(days) => w.(rows := Marking(w.rows, days))
    case AckAnswered(c) => With(w, c, Acknowledged(w.carriers[c]))
    case AckLost(c) => With(w, c, w.carriers[c].(phase := Idle))
  }

  /** A run: steps that cannot happen when their turn comes are passed over. */
  function Run(w: World, steps: seq<Step>): World
    decreases |steps|
  {
    if steps == [] then w
    else
      var before := Run(w, steps[..|steps| - 1]);
      var step := steps[|steps| - 1];
      if Enabled(before, step) then Next(before, step) else before
  }

  predicate Start(w: World) {
    && w.rows == map[] && w.table == []
    && w.offers == {} && w.posts == {} && w.answers == {} && w.acks == {}
    && w.recorded == {} && w.refused == {} && w.dropped == {}
    && forall c :: 0 <= c < |w.carriers| ==> w.carriers[c] == Carrier(Idle, {}, [], 0)
  }

  // ---- what holds in every run --------------------------------------------------

  predicate AllReached(w: World, days: seq<Day>) {
    forall i :: 0 <= i < |days| ==> Reached(w, days[i])
  }

  /** Nobody believes a day to have got through that did not. */
  predicate Believed(w: World) {
    && (forall a :: a in w.answers ==> a.1 != Later && Reached(w, a.0.day))
    && (forall c :: 0 <= c < |w.carriers| ==> AllReached(w, w.carriers[c].settled))
    && (forall days :: days in w.acks ==> AllReached(w, days))
    && (forall d :: d in w.rows && w.rows[d].delivered ==> Reached(w, d))
  }

  predicate AllRecorded(w: World, digests: seq<Digest>) {
    forall i :: 0 <= i < |digests| ==> digests[i] in w.recorded
  }

  function Todo(k: Carrier): seq<Digest> {
    if k.phase.Posting? then k.phase.todo else []
  }

  /** Every document in the system is one the control plane recorded for that day. */
  predicate Genuine(w: World) {
    && (forall d :: d in w.rows ==> Digest(d, w.rows[d].payload) in w.recorded)
    && (forall offer :: offer in w.offers ==> AllRecorded(w, offer))
    && (forall c :: 0 <= c < |w.carriers| ==> AllRecorded(w, Todo(w.carriers[c])))
    && w.posts <= w.recorded
    && AllRecorded(w, w.table)
  }

  predicate OncePerDay(table: seq<Digest>) {
    forall i, j :: 0 <= i < j < |table| ==> table[i].day != table[j].day
  }

  /** Every recorded day is still owed, reached the gateway, or was dropped by the control plane itself. */
  predicate Accounted(w: World) {
    forall digest :: digest in w.recorded ==>
      digest.day in w.rows || Reached(w, digest.day) || digest.day in w.dropped
  }

  predicate Safe(w: World) {
    Believed(w) && Genuine(w) && OncePerDay(w.table) && Accounted(w)
  }

  lemma {:induction false} UpsertStores(table: seq<Digest>, digest: Digest)
    requires OncePerDay(table)
    ensures OncePerDay(Upsert(table, digest))
    ensures forall d :: Stored(Upsert(table, digest), d) <==> Stored(table, d) || d == digest.day
    ensures forall s :: s in Upsert(table, digest) <==> s == digest || (s in table && s.day != digest.day)
    decreases |table|
  {
    var after := Upsert(table, digest);
    if table == [] {
      assert after[0] == digest;
    } else {
      var rest := table[1..];
      assert OncePerDay(rest);
      UpsertStores(rest, digest);
      assert table == [table[0]] + rest;
      if table[0].day == digest.day {
        StoredInCons(table[0], rest);
        StoredInCons(digest, rest);
        assert forall i :: 0 <= i < |rest| ==> rest[i].day == table[i + 1].day;
      } else {
        var more := Upsert(rest, digest);
        StoredInCons(table[0], rest);
        StoredInCons(table[0], more);
        forall j | 0 <= j < |more| ensures more[j].day != table[0].day {
          assert Stored(more, more[j].day);
          if Stored(rest, more[j].day) {
            var i :| 0 <= i < |rest| && rest[i].day == more[j].day;
            assert table[i + 1] == rest[i];
          }
        }
      }
    }
  }

  lemma StoredInCons(first: Digest, rest: seq<Digest>)
    ensures forall d :: Stored([first] + rest, d) <==> first.day == d || Stored(rest, d)
  {
    var all := [first] + rest;
    assert all[0] == first;
    forall d | Stored(rest, d) ensures Stored(all, d) {
      var i :| 0 <= i < |rest| && rest[i].day == d;
      assert all[i + 1] == rest[i];
    }
    forall d | Stored(all, d) && first.day != d ensures Stored(rest, d) {
      var i :| 0 <= i < |all| && all[i].day == d;
      assert rest[i - 1] == all[i];
    }
  }

  /** What reached the gateway stays so. */
  lemma ReachedStays(w: World, step: Step)
    requires Enabled(w, step) && OncePerDay(w.table)
    ensures forall d :: Reached(w, d) ==> Reached(Next(w, step), d)
  {
    if step.TakeIn? {
      UpsertStores(w.table, step.digest);
    }
  }

  lemma BelievedStays(w: World, step: Step)
    requires Enabled(w, step) && Believed(w) && OncePerDay(w.table)
    ensures Believed(Next(w, step))
  {
    ReachedStays(w, step);
    var after := Next(w, step);
    if step.TakeIn? {
      UpsertStores(w.table, step.digest);
    }
    forall c | 0 <= c < |after.carriers| ensures AllReached(after, after.carriers[c].settled) {
      if step.Hear? && c == step.c {
        assert Reached(w, w.carriers[c].phase.todo[0].day);
      }
      assert AllReached(w, w.carriers[c].settled);
    }
    forall days | days in after.acks ensures AllReached(after, days) {
      if days in w.acks {
        assert AllReached(w, days);
      } else {
        assert AllReached(w, w.carriers[step.c].settled);
      }
    }
    forall d | d in after.rows && after.rows[d].delivered ensures Reached(after, d) {
      if !(d in w.rows && w.rows[d].delivered) {
        assert step.Mark? && AllReached(w, step.days);
      }
    }
  }

  lemma GenuineStays(w: World, step: Step)
    requires Enabled(w, step) && Genuine(w) && OncePerDay(w.table)
    ensures Genuine(Next(w, step))
  {
    var after := Next(w, step);
    assert w.recorded <= after.recorded;
    if step.TakeIn? {
      UpsertStores(w.table, step.digest);
    }
    forall c | 0 <= c < |after.carriers| ensures AllRecorded(after, Todo(after.carriers[c])) {
      assert AllRecorded(w, Todo(w.carriers[c]));
      if step.Begin? {
        assert AllRecorded(w, step.offer);
      }
    }
    forall offer | offer in after.offers ensures AllRecorded(after, offer) {
      if offer in w.offers {
        assert AllRecorded(w, offer);
      }
    }
    forall i | 0 <= i < |after.table| ensures after.table[i] in after.recorded {
      if step.TakeIn? {
        assert after.table[i] in w.table || after.table[i] == step.digest;
      } else {
        assert after.table[i] == w.table[i];
      }
    }
    if step.Post? {
      assert AllRecorded(w, Todo(w.carriers[step.c]));
    }
  }

  /**
   A day leaves the outbox exactly when it is acknowledged, grows older than thirty
   days and is pruned, or is discarded; and what is acknowledged has reached the gateway.
   */
  lemma LeavesIff(w: World, step: Step, d: Day)
    requires Enabled(w, step) && Safe(w) && IsOwed(w, d)
    ensures !IsOwed(Next(w, step), d) <==>
            || (step.Mark? && d in step.days)
            || (step.Prune? && d < w.today - 30)
            || step.Discard?
    ensures step.Mark? && d in step.days ==> Reached(w, d)
  {
    if step.Mark? && d in step.days {
      assert AllReached(w, step.days);
    }
  }

  lemma SafeStays(w: World, step: Step)
    requires Enabled(w, step) && Safe(w)
    ensures Safe(Next(w, step))
  {
    ReachedStays(w, step);
    BelievedStays(w, step);
    GenuineStays(w, step);
    if step.TakeIn? {
      UpsertStores(w.table, step.digest);
    }
    AccountedStays(w, step);
  }

  lemma AccountedStays(w: World, step: Step)
    requires Enabled(w, step) && Safe(w)
    ensures Accounted(Next(w, step))
  {
    ReachedStays(w, step);
    var after := Next(w, step);
    forall digest | digest in after.recorded
      ensures digest.day in after.rows || Reached(after, digest.day) || digest.day in after.dropped
    {
      if digest in w.recorded {
        assert digest.day in w.rows || Reached(w, digest.day) || digest.day in w.dropped;
      }
    }
  }

  /** Any number of couriers, any interleaving, any message late or lost. */
  lemma {:induction false} EveryRunIsSafe(w: World, steps: seq<Step>)
    requires Start(w)
    ensures Safe(Run(w, steps))
    decreases |steps|
  {
    if steps != [] {
      EveryRunIsSafe(w, steps[..|steps| - 1]);
      var before := Run(w, steps[..|steps| - 1]);
      if Enabled(before, steps[|steps| - 1]) {
        SafeStays(before, steps[|steps| - 1]);
      }
    }
  }

  /**
   So in every run a day once recorded is still owed, or is stored at the gateway
   under a document recorded for it, or was refused, or was dropped by age or by
   switching off; and the gateway has no day twice.
   */
  lemma NoDayIsLost(w: World, steps: seq<Step>, digest: Digest)
    requires Start(w) && digest in Run(w, steps).recorded
    ensures var after := Run(w, steps);
            || IsOwed(after, digest.day)
            || (exists i :: 0 <= i < |after.table| &&
                  after.table[i].day == digest.day && after.table[i] in after.recorded)
            || digest.day in after.refused
            || digest.day in after.dropped
    ensures OncePerDay(Run(w, steps).table)
  {
    EveryRunIsSafe(w, steps);
    var after := Run(w, steps);
    if !IsOwed(after, digest.day) && digest.day !in after.refused && digest.day !in after.dropped {
      assert Reached(after, digest.day);
      var i :| 0 <= i < |after.table| && after.table[i].day == digest.day;
      assert after.table[i] in after.recorded;
    }
  }

  /** Delivered, or gone from the outbox for its age. */
  predicate Done(w: World, d: Day) {
    if d in w.rows then w.rows[d].delivered else d < w.today - KEEP_UNDELIVERED_DAYS
  }

  lemma DoneStays(w: World, step: Step, d: Day)
    requires Enabled(w, step) && Done(w, d)
    ensures Done(Next(w, step), d)
  {
  }

  /** A day once delivered is never owed again, whatever is computed and pruned afterwards. */
  lemma {:induction false} NeverOwedAgain(w: World, steps: seq<Step>, d: Day)
    requires d in w.rows && w.rows[d].delivered
    ensures Done(Run(w, steps), d) && !IsOwed(Run(w, steps), d)
    decreases |steps|
  {
    if steps != [] {
      NeverOwedAgain(w, steps[..|steps| - 1], d);
      var before := Run(w, steps[..|steps| - 1]);
      if Enabled(before, steps[|steps| - 1]) {
        DoneStays(before, steps[|steps| - 1], d);
      }
    }
  }

  /** A day is owed after a step exactly when it was just recorded, or was owed and does not leave. */
  lemma OwedIff(w: World, step: Step, d: Day)
    requires Enabled(w, step) && Safe(w)
    ensures IsOwed(Next(w, step), d) <==>
            || (step.Record? && step.digest.day == d)
            || (IsOwed(w, d) && !(step.Mark? && d in step.days) && !(step.Prune? && d < w.today - 30) && !step.Discard?)
    ensures step.Record? && step.digest.day == d ==> Next(w, step).rows[d].payload == step.digest.payload
  {
    if IsOwed(w, d) {
      LeavesIff(w, step, d);
    }
  }

  function NewDays(steps: seq<Step>): nat {
    if steps == [] then 0 else NewDays(steps[..|steps| - 1]) + if steps[|steps| - 1].NewDay? then 1 else 0
  }

  /** Days pass one at a time, and only as days. */
  lemma {:induction false} DaysPass(w: World, steps: seq<Step>)
    ensures Run(w, steps).today == w.today + NewDays(steps)
    decreases |steps|
  {
    if steps != [] {
      DaysPass(w, steps[..|steps| - 1]);
    }
  }

  /** A day can be recorded exactly within the thirty days before today, and only without a row; the rest is free. */
  lemma WhatThePlaneMayDo(w: World, digest: Digest)
    ensures Enabled(w, Record(digest)) <==> w.today - 30 <= digest.day < w.today && digest.day !in w.rows
    ensures Enabled(w, NewDay) && Enabled(w, Prune) && Enabled(w, Discard)
  {
  }

  /**
   A courier's round ends exactly when it is not answered, is offered nothing or a day
   it knows, has its first post put off, or is done acknowledging: with the answer
   lost, after a day put off, or in the eighth batch.
   */
  lemma ARoundEndsIff(w: World, step: Step, c: nat)
    requires Enabled(w, step) && c < |w.carriers| && !w.carriers[c].phase.Idle?
    ensures var k, after := w.carriers[c], Next(w, step).carriers;
            && |after| == |w.carriers|
            && (after[c].phase.Idle? <==>
                match step
                case NotServed(d) => d == c
                case Begin(d, offer) =>
                  d == c && (offer == [] || exists i :: 0 <= i < |offer| && offer[i].day in k.already)
                case PutOff(d) => d == c && k.settled == []
                case AckAnswered(d) => d == c && (k.phase.stalled || k.batches >= 7)
                case AckLost(d) => d == c
                case _ => false)
  {
  }

  /** No courier asks more than eight times in a round. */
  predicate Bounded(w: World) {
    forall c :: 0 <= c < |w.carriers| ==>
      w.carriers[c].batches <= 8 && (!w.carriers[c].phase.Idle? ==> w.carriers[c].batches < 8)
  }

  lemma {:induction false} EveryRoundIsBounded(w: World, steps: seq<Step>)
    requires Start(w)
    ensures Bounded(Run(w, steps))
    decreases |steps|
  {
    if steps != [] {
      EveryRoundIsBounded(w, steps[..|steps| - 1]);
    }
  }

  // ---- one courier, left alone --------------------------------------------------

  function Days(offer: seq<Digest>): seq<Day> {
    seq(|offer|, i requires 0 <= i < |offer| => offer[i].day)
  }

  /** A courier posting the rest of its batch, with the gateway's replies in hand. */
  function Replied(k: Carrier, replies: seq<Reply>): Carrier
    decreases |replies|
  {
    if replies == [] || !k.phase.Posting? || k.phase.todo == [] then k
    else if Became(replies[0]) == Later then PuttingOff(k)
    else Replied(Hearing(k), replies[1..])
  }

  lemma {:induction false} RepliesSettle(k: Carrier, todo: seq<Digest>, replies: seq<Reply>)
    requires k.phase == Posting(todo, false) && todo != [] && |replies| == |todo|
    ensures var n := Settling(replies);
            var after := Replied(k, replies);
            && after.settled == k.settled + Days(todo)[..n]
            && after.already == k.already + Elements(Days(todo)[..n])
            && after.batches == k.batches
            && after.phase == (if n == |todo| then Acknowledging(false, false)
                               else if after.settled == [] then Idle else Acknowledging(true, false))
    decreases |replies|
  {
    if Became(replies[0]) == Later {
      assert Settling(replies) == 0;
    } else {
      var d, rest := todo[0].day, todo[1..];
      var heard := Hearing(k);
      var n := Settling(replies[1..]);
      assert Days(todo)[..1 + n] == [d] + Days(rest)[..n];
      if rest == [] {
        assert replies[1..] == [];
      } else {
        RepliesSettle(heard, rest, replies[1..]);
      }
    }
  }

  /**
   A courier whose batch nobody interleaves with does what one batch of a round
   does: it settles the same days, and asks for more in the same case.
   */
  lemma AloneItCollects(k: Carrier, offer: seq<Digest>, replies: seq<Reply>, ack: Ack)
    requires k.phase.Asked? && |replies| == |offer| && k.batches + 1 < 8
    ensures var o := Collected(k.already, Answer(Some(Days(offer)), replies, ack));
            var posted := Replied(TakingUp(k, offer), replies);
            && posted.already == k.already + Elements(o.settled)
            && (o.settled != [] ==> posted.settled == o.settled && posted.phase.Acknowledging?)
            && (o.settled == [] ==> posted.phase.Idle?)
            && (o.batch == More <==> posted.phase.Acknowledging? && ack.answered && Acknowledged(posted).phase.Asked?)
  {
    var days := Days(offer);
    if offer != [] {
      if exists i :: 0 <= i < |offer| && offer[i].day in k.already {
        var i :| 0 <= i < |offer| && offer[i].day in k.already;
        assert days[i] in days && OffersAgain(days, k.already);
      } else {
        assert !OffersAgain(days, k.already);
        RepliesSettle(TakingUp(k, offer), offer, replies);
        assert days[..|days|] == days;
        assert [] + days[..Settling(replies)] == days[..Settling(replies)];
      }
    }
  }
}
