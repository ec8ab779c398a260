/**
 The agent reports running totals; a turn is billed the difference. Over a whole
 journal the differences add up to what the totals climbed by.
 */
module AcpBilling {
  import opened Common
  import opened Acp

  // ---- sequences of totals -------------------------------------------------

  /** The sum of the rises of a sequence of readings that starts from `from`. */
  function Climb(from: nat, readings: seq<nat>): nat
    decreases |readings|
  {
    if readings == [] then 0
    else SaturatingSub(readings[0], from) + Climb(readings[0], readings[1..])
  }

  function Last(from: nat, readings: seq<nat>): nat {
    if readings == [] then from else readings[|readings| - 1]
  }

  /** No reading is below the one before it. */
  predicate NeverFalls(from: nat, readings: seq<nat>)
    decreases |readings|
  {
    readings == [] || (from <= readings[0] && NeverFalls(readings[0], readings[1..]))
  }

  /** What is billed is never less than the net rise, and equals it exactly when no reading falls. */
  lemma {:induction false} ClimbIsTheLastReading(from: nat, readings: seq<nat>)
    ensures Climb(from, readings) >= Last(from, readings) - from
    ensures Climb(from, readings) == Last(from, readings) - from <==> NeverFalls(from, readings)
    decreases |readings|
  {
    if readings != [] {
      ClimbIsTheLastReading(readings[0], readings[1..]);
      assert Last(from, readings) == Last(readings[0], readings[1..]);
    }
  }

  // ---- what a journal billed -----------------------------------------------

  datatype Field = InputField | OutputField | CacheReadField | CacheWriteField | ThinkingField

  function FieldOfUsage(usage: Usage, field: Field): nat {
    match field
    case InputField => usage.input
    case OutputField => usage.output
    case CacheReadField => usage.cacheRead.GetOr(0)
    case CacheWriteField => usage.cacheWrite.GetOr(0)
    case ThinkingField => usage.thinking.GetOr(0)
  }

  /** A total as a reply reports it; one it leaves out counts as nothing reported yet. */
  function FieldOfTotals(totals: Totals, field: Field): nat {
    match field
    case InputField => totals.input
    case OutputField => totals.output
    case CacheReadField => totals.cacheRead.GetOr(0)
    case CacheWriteField => totals.cacheWrite.GetOr(0)
    case ThinkingField => totals.thinking.GetOr(0)
  }

  /** `/usage` prints input and output and nothing else. */
  function FieldOfPair(pair: Pair, field: Field): nat {
    match field
    case InputField => pair.input
    case OutputField => pair.output
    case _ => 0
  }

  function Billed(events: seq<Event>, field: Field): nat {
    if events == [] then 0
    else
      (if events[0].TurnCompleted? && events[0].usage.Some? then FieldOfUsage(events[0].usage.value, field) else 0)
      + Billed(events[1..], field)
  }

  /** Whether the record is the reply that closes the active turn. */
  predicate Replies(s: State, record: Record) {
    record.Received? && !record.replay && Closes(s, record.message)
  }

  /** The `/usage` readings the journal's replies were billed from. */
  function MeterReadings(s: State, journal: seq<Record>): seq<Pair>
    decreases |journal|
  {
    if journal == [] then []
    else
      var record := journal[0];
      (if Replies(s, record) && ParseUsage(record.message.usage).None? && s.metered.Some?
       then [s.metered.value] else [])
      + MeterReadings(Step(s, record).state, journal[1..])
  }

  /** The totals the journal's replies carried themselves. */
  function ReplyReadings(s: State, journal: seq<Record>): seq<Totals>
    decreases |journal|
  {
    if journal == [] then []
    else
      var record := journal[0];
      (if Replies(s, record) && ParseUsage(record.message.usage).Some?
       then [ParseUsage(record.message.usage).value] else [])
      + ReplyReadings(Step(s, record).state, journal[1..])
  }

  function PairColumn(readings: seq<Pair>, field: Field): seq<nat> {
    if readings == [] then [] else [FieldOfPair(readings[0], field)] + PairColumn(readings[1..], field)
  }

  function TotalsColumn(readings: seq<Totals>, field: Field): seq<nat> {
    if readings == [] then [] else [FieldOfTotals(readings[0], field)] + TotalsColumn(readings[1..], field)
  }

  lemma {:induction false} BilledConcat(a: seq<Event>, b: seq<Event>, field: Field)
    ensures Billed(a + b, field) == Billed(a, field) + Billed(b, field)
    decreases |a|
  {
    if a == [] {
      assert a + b == b;
    } else {
      assert (a + b)[1..] == a[1..] + b;
      BilledConcat(a[1..], b, field);
    }
  }

  /** Events none of which ends a turn bill nothing. */
  lemma {:induction false} NothingBilled(events: seq<Event>, field: Field)
    requires forall i :: 0 <= i < |events| ==> !events[i].TurnCompleted?
    ensures Billed(events, field) == 0
    decreases |events|
  {
    if events != [] {
      NothingBilled(events[1..], field);
    }
  }

  lemma FinishBills(s: State, status: TurnStatus, detail: Option<string>, spent: Option<Usage>, field: Field)
    ensures Billed(Finish(s, status, detail, spent).events, field) ==
            if s.active.Some? && spent.Some? then FieldOfUsage(spent.value, field) else 0
  {
    var ending := CloseTurn(s.active, status, detail, spent);
    ClosingShape(s, EndOfItem(status));
    NothingBilled(Closing(s, EndOfItem(status)), field);
    BilledConcat(Closing(s, EndOfItem(status)), ending, field);
    if s.active.Some? {
      assert Billed(ending[1..], field) == 0;
    }
  }

  /** What the reply that closes a turn bills, and leaves to be subtracted from the next. */
  lemma ClosedBills(s: State, message: Incoming, field: Field)
    requires Closes(s, message)
    ensures
      var out := Closed(s, message);
      match ParseUsage(message.usage)
      case Some(total) =>
        && out.state.billed == total && out.state.charged == s.charged
        && Billed(out.events, field) == SaturatingSub(FieldOfTotals(total, field), FieldOfTotals(s.billed, field))
      case None =>
        && out.state.billed == s.billed
        && out.state.charged == (if s.metered.Some? then s.metered.value else s.charged)
        && Billed(out.events, field) ==
           (if s.metered.Some?
            then SaturatingSub(FieldOfPair(s.metered.value, field), FieldOfPair(s.charged, field)) else 0)
  {
    var bill := Spent(s.(ran := NobodyAsked), message.usage);
    var verdict := Judged(Said(message.error, message.stop), bill.state.ran);
    FinishBills(bill.state, verdict.status, verdict.detail, Some(bill.usage), field);
  }

  lemma AnsweredBillsNothing(s: State, message: Incoming, field: Field)
    requires !Closes(s, message)
    ensures
      var out := Answered(s, message);
      out.state.billed == s.billed && out.state.charged == s.charged && Billed(out.events, field) == 0
  {
    AnsweredShape(s, message);
    NothingBilled(Answered(s, message).events, field);
  }

  lemma ReplyBills(s: State, record: Record, field: Field)
    requires Replies(s, record)
    ensures
      var s' := Noticed(s, record.message).state;
      && Closes(s', record.message)
      && Step(s, record).state == Closed(s', record.message).state
      && Billed(Step(s, record).events, field) == Billed(Closed(s', record.message).events, field)
      && s'.billed == s.billed && s'.charged == s.charged && s'.metered == s.metered
  {
    var noticed := Noticed(s, record.message);
    NothingBilled(noticed.events, field);
    BilledConcat(noticed.events, Closed(noticed.state, record.message).events, field);
  }

  /** Every other record bills nothing. */
  lemma NoReplyBillsNothing(s: State, record: Record, field: Field)
    requires !Replies(s, record)
    ensures
      var out := Step(s, record);
      out.state.billed == s.billed && out.state.charged == s.charged && Billed(out.events, field) == 0
  {
    match record
    case Started(_) => FinishBills(s, TurnInterrupted, Some(RESTARTED), None, field);
    case Failed(detail) =>
      var t := if s.active.None? then s.(active := Some(Active("null", Startup(s.epoch)))) else s;
      FinishBills(t, TurnFailed, Some(detail), None, field);
    case Sent(call) =>
      SentShape(s, call);
      NothingBilled(StepSent(s, call).events, field);
    case Received(message, replay) =>
      var noticed := Noticed(s, message);
      NothingBilled(noticed.events, field);
      if !(replay || OnlyConfigures(s, message)) {
        AnsweredBillsNothing(noticed.state, message, field);
        BilledConcat(noticed.events, Answered(noticed.state, message).events, field);
      }
    case _ =>
  }

  lemma ClimbFirst(from: nat, first: nat, rest: seq<nat>)
    ensures Climb(from, [first] + rest) == SaturatingSub(first, from) + Climb(first, rest)
  {
    assert ([first] + rest)[1..] == rest;
  }

  lemma FirstTotal(from: nat, total: Totals, rest: seq<Totals>, field: Field)
    ensures
      var first := FieldOfTotals(total, field);
      Climb(from, TotalsColumn([total] + rest, field)) ==
          SaturatingSub(first, from) + Climb(first, TotalsColumn(rest, field))
  {
    assert ([total] + rest)[1..] == rest;
    ClimbFirst(from, FieldOfTotals(total, field), TotalsColumn(rest, field));
  }

  lemma FirstPair(from: nat, pair: Pair, rest: seq<Pair>, field: Field)
    ensures
      var first := FieldOfPair(pair, field);
      Climb(from, PairColumn([pair] + rest, field)) ==
          SaturatingSub(first, from) + Climb(first, PairColumn(rest, field))
  {
    assert ([pair] + rest)[1..] == rest;
    ClimbFirst(from, FieldOfPair(pair, field), PairColumn(rest, field));
  }

  /**
   Over any journal, everything billed in a field is the climb of the `/usage`
   readings taken plus the climb of the totals replies carried.
   */
  lemma {:induction false} BillingTelescopes(s: State, journal: seq<Record>, field: Field)
    ensures
      Billed(Run(s, journal).events, field) ==
      Climb(FieldOfPair(s.charged, field), PairColumn(MeterReadings(s, journal), field))
      + Climb(FieldOfTotals(s.billed, field), TotalsColumn(ReplyReadings(s, journal), field))
    decreases |journal|
  {
    if journal != [] {
      var record, rest := journal[0], journal[1..];
      var first := Step(s, record);
      if Replies(s, record) {
        ReplyBills(s, record, field);
        ClosedBills(Noticed(s, record.message).state, record.message, field);
      } else {
        NoReplyBillsNothing(s, record, field);
      }
      BillingTelescopes(first.state, rest, field);
      BilledConcat(first.events, Run(first.state, rest).events, field);
      var meters, replies := MeterReadings(first.state, rest), ReplyReadings(first.state, rest);
      if Replies(s, record) && ParseUsage(record.message.usage).Some? {
        var total := ParseUsage(record.message.usage).value;
        assert ReplyReadings(s, journal) == [total] + replies && MeterReadings(s, journal) == meters;
        FirstTotal(FieldOfTotals(s.billed, field), total, replies, field);
      } else if Replies(s, record) && s.metered.Some? {
        var pair := s.metered.value;
        assert MeterReadings(s, journal) == [pair] + meters && ReplyReadings(s, journal) == replies;
        FirstPair(FieldOfPair(s.charged, field), pair, meters, field);
      } else {
        assert MeterReadings(s, journal) == meters && ReplyReadings(s, journal) == replies;
      }
    }
  }

  /**
   From a new reader metered only through `/usage`, the bill is the last reading
   exactly when the readings never fall.
   */
  lemma MeteredBillIsTheLastReading(journal: seq<Record>, field: Field)
    requires ReplyReadings(INITIAL, journal) == []
    ensures
      var readings := PairColumn(MeterReadings(INITIAL, journal), field);
      Billed(Run(INITIAL, journal).events, field) == Last(0, readings) <==> NeverFalls(0, readings)
  {
    BillingTelescopes(INITIAL, journal, field);
    ClimbIsTheLastReading(0, PairColumn(MeterReadings(INITIAL, journal), field));
  }

  /**
   Billed from replies alone, a field's bill is its last total exactly when the
   totals never fall - an optional one that goes unreported falls to nothing.
   */
  lemma ReplyBillIsTheLastTotal(journal: seq<Record>, field: Field)
    requires MeterReadings(INITIAL, journal) == []
    ensures
      var totals := TotalsColumn(ReplyReadings(INITIAL, journal), field);
      Billed(Run(INITIAL, journal).events, field) == Last(0, totals) <==> NeverFalls(0, totals)
  {
    BillingTelescopes(INITIAL, journal, field);
    ClimbIsTheLastReading(0, TotalsColumn(ReplyReadings(INITIAL, journal), field));
  }

  /** A prompt and the reply that ends its turn. */
  function Exchange(id: string, usage: RawUsage): seq<Record> {
    [Sent(PromptCall(id, [])), Received(Response(id, None, None, Some(EndTurn), usage), false)]
  }

  lemma ExchangeReads(s: State, id: string, usage: RawUsage, rest: seq<Record>) returns (t: State)
    requires ParseUsage(usage).Some?
    ensures MeterReadings(s, Exchange(id, usage) + rest) == MeterReadings(t, rest)
    ensures ReplyReadings(s, Exchange(id, usage) + rest) == [ParseUsage(usage).value] + ReplyReadings(t, rest)
  {
    var journal := Exchange(id, usage) + rest;
    var reply := Exchange(id, usage)[1];
    var prompted := Step(s, journal[0]).state;
    assert journal[1..] == [reply] + rest && ([reply] + rest)[1..] == rest;
    assert Replies(prompted, reply) && !Replies(s, journal[0]);
    t := Step(prompted, reply).state;
    assert ReplyReadings(s, journal) == ReplyReadings(prompted, [reply] + rest);
    assert MeterReadings(s, journal) == MeterReadings(prompted, [reply] + rest);
  }

  function CacheReadUsage(total: nat, cacheRead: Option<nat>): RawUsage {
    RawUsage(Some(total), Some(total), cacheRead, None, None)
  }

  /** Three replies, the same total reported, left out and reported again: billed twice. */
  lemma AnUnreportedFieldIsBilledAgain()
    ensures
      var journal :=
        Exchange("1", CacheReadUsage(1, Some(10)))
        + (Exchange("2", CacheReadUsage(2, None)) + (Exchange("3", CacheReadUsage(3, Some(10))) + []));
      Billed(Run(INITIAL, journal).events, CacheReadField) == 20
  {
    var first, second, third := CacheReadUsage(1, Some(10)), CacheReadUsage(2, None), CacheReadUsage(3, Some(10));
    var s := ExchangeReads(INITIAL, "1", first, Exchange("2", second) + (Exchange("3", third) + []));
    var t := ExchangeReads(s, "2", second, Exchange("3", third) + []);
    var u := ExchangeReads(t, "3", third, []);
    var journal := Exchange("1", first) + (Exchange("2", second) + (Exchange("3", third) + []));
    BillingTelescopes(INITIAL, journal, CacheReadField);
    var known, again := Totals(1, 1, Some(10), None, None), Totals(3, 3, Some(10), None, None);
    var unknown := Totals(2, 2, None, None, None);
    FirstTotal(0, known, [unknown] + ([again] + []), CacheReadField);
    FirstTotal(10, unknown, [again] + [], CacheReadField);
    FirstTotal(0, again, [], CacheReadField);
  }

  // ---- the verdict -----------------------------------------------------------

  predicate SaysDone(events: seq<Event>) {
    exists i :: 0 <= i < |events| && events[i].TurnCompleted? && events[i].turnStatus == TurnDone
  }

  /** The meter was read for this turn and its input had not grown. */
  predicate ReachedNoModel(s: State, raw: RawUsage) {
    ParseUsage(raw).None? && s.metered.Some? && s.metered.value.input <= s.charged.input
  }

  lemma FinishSaysDone(s: State, status: TurnStatus, detail: Option<string>, spent: Option<Usage>)
    ensures SaysDone(Finish(s, status, detail, spent).events) <==> s.active.Some? && status == TurnDone
  {
    ClosingShape(s, EndOfItem(status));
    var events := Finish(s, status, detail, spent).events;
    if s.active.Some? {
      assert events[|events| - 1] == TurnCompleted(s.active.value.turn, status, spent, detail);
      assert forall i :: 0 <= i < |events| - 1 ==> events[i] == Closing(s, EndOfItem(status))[i];
    }
  }

  /** Events that end no turn, before others, do not say one is done. */
  lemma SaysDoneAfter(before: seq<Event>, events: seq<Event>)
    requires forall i :: 0 <= i < |before| ==> !before[i].TurnCompleted?
    ensures SaysDone(before + events) <==> SaysDone(events)
  {
    if SaysDone(events) {
      var i :| 0 <= i < |events| && events[i].TurnCompleted? && events[i].turnStatus == TurnDone;
      assert (before + events)[|before| + i] == events[i];
    }
  }

  lemma ClosedSaysDone(s: State, message: Incoming)
    requires Closes(s, message)
    ensures
      SaysDone(Closed(s, message).events) <==>
      && message.error.None? && message.stop.Some? && message.stop.value != Cancelled
      && !ReachedNoModel(s, message.usage)
  {
    var bill := Spent(s.(ran := NobodyAsked), message.usage);
    var verdict := Judged(Said(message.error, message.stop), bill.state.ran);
    FinishSaysDone(bill.state, verdict.status, verdict.detail, Some(bill.usage));
  }

  /**
   A turn is reported as completed by exactly one kind of record: the reply to
   its own prompt, with no error and a stop reason other than `cancelled`, unless
   the turn was metered and its input did not grow.
   */
  lemma CompletedIff(s: State, record: Record)
    ensures
      SaysDone(Step(s, record).events) <==>
      && Replies(s, record)
      && record.message.error.None? && record.message.stop.Some? && record.message.stop.value != Cancelled
      && !ReachedNoModel(s, record.message.usage)
  {
    match record
    case Started(_) => FinishSaysDone(s, TurnInterrupted, Some(RESTARTED), None);
    case Failed(detail) =>
      var t := if s.active.None? then s.(active := Some(Active("null", Startup(s.epoch)))) else s;
      FinishSaysDone(t, TurnFailed, Some(detail), None);
    case Sent(call) => SentShape(s, call);
    case Received(message, replay) =>
      var noticed := Noticed(s, message);
      if !(replay || OnlyConfigures(s, message)) {
        SaysDoneAfter(noticed.events, Answered(noticed.state, message).events);
        if Closes(s, message) {
          ClosedSaysDone(noticed.state, message);
        } else {
          AnsweredShape(noticed.state, message);
        }
      }
    case _ =>
  }
}
