/**
 A load replays history the journal already holds. Reading those records as well
 must not say anything to the conversation a second time.
 */
module AcpReplay {
  import opened Common
  import opened Acp

  predicate IsReplay(record: Record) {
    record.Received? && record.replay
  }

  /** The journal without the records a load replayed. */
  function Live(journal: seq<Record>): seq<Record> {
    if journal == [] then []
    else if IsReplay(journal[0]) then Live(journal[1..])
    else [journal[0]] + Live(journal[1..])
  }

  /** The events that are part of the conversation rather than its settings. */
  function Conversation(events: seq<Event>): seq<Event> {
    if events == [] then []
    else if events[0].SessionConfigured? then Conversation(events[1..])
    else [events[0]] + Conversation(events[1..])
  }

  /** The state without what a replayed record is allowed to change. */
  function Unconfigured(s: State): State {
    s.(configuration := [], configRequests := {})
  }

  lemma {:induction false} ConversationConcat(a: seq<Event>, b: seq<Event>)
    ensures Conversation(a + b) == Conversation(a) + Conversation(b)
    decreases |a|
  {
    if a == [] {
      assert a + b == b;
    } else {
      assert (a + b)[1..] == a[1..] + b;
      ConversationConcat(a[1..], b);
    }
  }

  lemma ConversationOfOne(event: Event)
    ensures Conversation([event]) == if event.SessionConfigured? then [] else [event]
  {
    assert Conversation([event][1..]) == [];
  }

  lemma NoticedSaysNothing(s: State, message: Incoming)
    ensures Conversation(Noticed(s, message).events) == []
    ensures Unconfigured(Noticed(s, message).state) == Unconfigured(s)
  {
    var noticed := Noticed(s, message);
    if noticed.events != [] {
      assert noticed.events == [noticed.events[0]];
      ConversationOfOne(noticed.events[0]);
    }
  }

  lemma UpdatedIgnoresConfiguration(s: State, update: Update)
    ensures
      var out := Updated(s, update);
      Updated(Unconfigured(s), update) == Out(Unconfigured(out.state), out.events)
  {
  }

  lemma FinishIgnoresConfiguration(s: State, status: TurnStatus, detail: Option<string>, spent: Option<Usage>)
    ensures
      var out := Finish(s, status, detail, spent);
      Finish(Unconfigured(s), status, detail, spent) == Out(Unconfigured(out.state), out.events)
  {
  }

  lemma ClosedIgnoresConfiguration(s: State, message: Incoming)
    requires Closes(s, message)
    ensures
      var out := Closed(s, message);
      Closed(Unconfigured(s), message) == Out(Unconfigured(out.state), out.events)
  {
    var asked := s.(ran := NobodyAsked);
    var bill := Spent(asked, message.usage);
    assert Spent(Unconfigured(asked), message.usage) == Bill(Unconfigured(bill.state), bill.usage);
    var verdict := Judged(Said(message.error, message.stop), bill.state.ran);
    FinishIgnoresConfiguration(bill.state, verdict.status, verdict.detail, Some(bill.usage));
  }

  lemma {:induction false} AnsweredIgnoresConfiguration(s: State, message: Incoming)
    ensures
      var out := Answered(s, message);
      Answered(Unconfigured(s), message) == Out(Unconfigured(out.state), out.events)
  {
    match message
    case SessionUpdate(_, update) => UpdatedIgnoresConfiguration(s, update);
    case Response(_, _, _, _, _) => if Closes(s, message) { ClosedIgnoresConfiguration(s, message); }
    case _ =>
  }

  /** Two readers that differ only in configuration go on saying the same things. */
  lemma {:induction false} StepIgnoresConfiguration(s: State, t: State, record: Record)
    requires Unconfigured(s) == Unconfigured(t)
    ensures Conversation(Step(s, record).events) == Conversation(Step(t, record).events)
    ensures Unconfigured(Step(s, record).state) == Unconfigured(Step(t, record).state)
  {
    match record
    case Received(message, replay) =>
      var s', t' := Noticed(s, message), Noticed(t, message);
      NoticedSaysNothing(s, message);
      NoticedSaysNothing(t, message);
      if !(replay || OnlyConfigures(s, message)) {
        AnsweredIgnoresConfiguration(s'.state, message);
        AnsweredIgnoresConfiguration(t'.state, message);
        ConversationConcat(s'.events, Answered(s'.state, message).events);
        ConversationConcat(t'.events, Answered(t'.state, message).events);
      }
    case Started(_) =>
      FinishIgnoresConfiguration(s, TurnInterrupted, Some(RESTARTED), None);
      FinishIgnoresConfiguration(t, TurnInterrupted, Some(RESTARTED), None);
    case Failed(detail) =>
      var s' := if s.active.None? then s.(active := Some(Active("null", Startup(s.epoch)))) else s;
      var t' := if t.active.None? then t.(active := Some(Active("null", Startup(t.epoch)))) else t;
      FinishIgnoresConfiguration(s', TurnFailed, Some(detail), None);
      FinishIgnoresConfiguration(t', TurnFailed, Some(detail), None);
    case _ =>
  }

  lemma {:induction false} LiveRunAgrees(s: State, t: State, journal: seq<Record>)
    requires Unconfigured(s) == Unconfigured(t)
    ensures Conversation(Run(s, journal).events) == Conversation(Run(t, Live(journal)).events)
    ensures Unconfigured(Run(s, journal).state) == Unconfigured(Run(t, Live(journal)).state)
    decreases |journal|
  {
    if journal != [] {
      var record, rest := journal[0], journal[1..];
      var first := Step(s, record);
      ConversationConcat(first.events, Run(first.state, rest).events);
      if IsReplay(record) {
        NoticedSaysNothing(s, record.message);
        LiveRunAgrees(first.state, t, rest);
      } else {
        var live := Step(t, record);
        StepIgnoresConfiguration(s, t, record);
        LiveRunAgrees(first.state, live.state, rest);
        assert Live(journal)[1..] == Live(rest);
        ConversationConcat(live.events, Run(live.state, Live(rest)).events);
      }
    }
  }

  /**
   Deleting every replayed record from any journal changes no event of the
   conversation, and no state but the configuration and the requests for it.
   */
  lemma ReplaySaysNothing(s: State, journal: seq<Record>)
    ensures Conversation(Run(s, journal).events) == Conversation(Run(s, Live(journal)).events)
    ensures
      var whole, live := Run(s, journal).state, Run(s, Live(journal)).state;
      whole == live.(configuration := whole.configuration, configRequests := whole.configRequests)
  {
    LiveRunAgrees(s, s, journal);
  }
}
