/**
 The ACP reader itself: fields updated in place, events pushed one at a time,
 and every method proved to do what `Acp.Step` says.
 */
module AcpReader {
  import opened Common
  import opened OrderedSets
  import opened Acp

  class AcpNormaliser {
    var epoch: string
    var active: Option<Active>
    var session: Option<string>
    var items: seq<Item>
    var reaching: map<Item, string>
    var requests: seq<Request>
    var configRequests: set<string>
    var configuration: seq<Setting>
    var tasks: seq<string>
    var outcomes: map<string, Option<ItemStatus>>
    var context: Option<Gauge>
    var billed: Totals
    var metered: Option<Pair>
    var charged: Pair
    var ran: Ran

    function View(): State
      reads this
    {
      State(epoch, active, session, items, reaching, requests, configRequests, configuration,
            tasks, outcomes, context, billed, metered, charged, ran)
    }

    constructor ()
      ensures View() == INITIAL
    {
      epoch, active, session, items, reaching := "", None, None, [], map[];
      requests, configRequests, configuration := [], {}, [];
      tasks, outcomes, context := [], map[], None;
      billed, metered, charged, ran := Totals(0, 0, None, None, None), None, Pair(0, 0), NobodyAsked;
    }

    /** Every delegated call still open is resolved by how its own call ended. */
    method FinishTasks() returns (events: seq<Event>)
      modifies `tasks, `outcomes
      ensures tasks == [] && outcomes == map[]
      ensures events == CloseTasks(old(tasks), old(outcomes))
    {
      events := [];
      var calls, ended := tasks, outcomes;
      tasks, outcomes := [], map[];
      while calls != []
        invariant events + CloseTasks(calls, ended) == CloseTasks(old(tasks), old(outcomes))
        decreases |calls|
      {
        var outcome := if calls[0] in ended then ended[calls[0]] else None;
        var event := TaskCompleted(calls[0], outcome.GetOr(ItemFailed), None);
        assert events + CloseTasks(calls, ended) == (events + [event]) + CloseTasks(calls[1..], ended);
        events := events + [event];
        calls := calls[1..];
      }
    }

    method FinishRequests() returns (events: seq<Event>)
      modifies `requests
      ensures requests == []
      ensures events == CloseRequests(old(requests))
    {
      events := [];
      var asked := requests;
      requests := [];
      while asked != []
        invariant events + CloseRequests(asked) == CloseRequests(old(requests))
        decreases |asked|
      {
        assert events + CloseRequests(asked) == (events + [RequestResolved(asked[0])]) + CloseRequests(asked[1..]);
        events := events + [RequestResolved(asked[0])];
        asked := asked[1..];
      }
    }

    method FinishItems(status: ItemStatus) returns (events: seq<Event>)
      modifies `items
      ensures items == []
      ensures events == CloseItems(old(items), status)
    {
      events := [];
      var shown := items;
      items := [];
      while shown != []
        invariant events + CloseItems(shown, status) == CloseItems(old(items), status)
        decreases |shown|
      {
        assert events + CloseItems(shown, status) ==
            (events + [ItemCompleted(shown[0], status)]) + CloseItems(shown[1..], status);
        events := events + [ItemCompleted(shown[0], status)];
        shown := shown[1..];
      }
    }

    /** Everything still open is closed, then the turn. */
    method Finish(status: TurnStatus, detail: Option<string>, spent: Option<Usage>)
      returns (events: seq<Event>)
      modifies this
      ensures View() == Acp.Finish(old(View()), status, detail, spent).state
      ensures events == Acp.Finish(old(View()), status, detail, spent).events
    {
      var calls := FinishTasks();
      var asked := FinishRequests();
      var shown := FinishItems(EndOfItem(status));
      events := calls + asked + shown;
      if active.Some? {
        events := events + [TurnCompleted(active.value.turn, status, spent, detail)];
        active := None;
      }
    }

    /** The reply's usage over what was billed, or else what the meter climbed, charged once. */
    method Spent(raw: RawUsage) returns (usage: Usage)
      modifies this
      ensures View() == Acp.Spent(old(View()), raw).state
      ensures usage == Acp.Spent(old(View()), raw).usage
    {
      var used, size := None, None;
      if context.Some? {
        used, size := Some(context.value.used), Some(context.value.size);
      }
      var total := ParseUsage(raw);
      if total.None? {
        if metered.Some? {
          var reading := metered.value;
          metered := None;
          ran := if reading.input > charged.input then ModelCalled else NoModelCalled;
          usage := Usage(SaturatingSub(reading.input, charged.input), SaturatingSub(reading.output, charged.output),
                         None, None, None, used, size);
          charged := reading;
          return;
        }
        usage := Usage(0, 0, None, None, None, used, size);
        return;
      }
      var now := total.value;
      usage := Usage(SaturatingSub(now.input, billed.input), SaturatingSub(now.output, billed.output),
                     PairOf(now.cacheRead, billed.cacheRead), PairOf(now.cacheWrite, billed.cacheWrite),
                     PairOf(now.thinking, billed.thinking), used, size);
      billed := now;
    }

    method Configured(options: Option<seq<Setting>>) returns (events: seq<Event>)
      modifies this
      ensures View() == Acp.Configured(old(View()), options).state
      ensures events == Acp.Configured(old(View()), options).events
    {
      events := [];
      if options.Some? {
        configuration := options.value;
        events := events
            + [SessionConfigured(CurrentOf(configuration, ModelSetting), CurrentOf(configuration, ModeSetting))];
      }
    }

    /** One delta for every block that prints something. */
    method PushDeltas(item: Item, stream: Stream, blocks: seq<Option<string>>)
      returns (events: seq<Event>)
      ensures events == Deltas(item, stream, blocks)
    {
      events := [];
      var rest := blocks;
      while rest != []
        invariant events + Deltas(item, stream, rest) == Deltas(item, stream, blocks)
        decreases |rest|
      {
        if rest[0].Some? {
          var event := ContentDelta(item, stream, rest[0].value);
          assert events + Deltas(item, stream, rest) == (events + [event]) + Deltas(item, stream, rest[1..]);
          events := events + [event];
        } else {
          assert Deltas(item, stream, rest) == Deltas(item, stream, rest[1..]);
        }
        rest := rest[1..];
      }
    }

    /** The item of a call not seen before, or not open any more, and its task if it is delegated. */
    method OpenTool(item: Item, call: string, update: Update, reached: Option<string>) returns (events: seq<Event>)
      requires update.ToolUpdate?
      modifies `tasks, `outcomes
      ensures tasks == if Delegated(update) then Insert(old(tasks), call, TaskName) else old(tasks)
      ensures outcomes == if Delegated(update) then old(outcomes)[call := None] else old(outcomes)
      ensures events == ToolOpening(item, call, update, reached)
    {
      events := [ItemStarted(item, ToolKind(update, reached), reached.Or(update.title))];
      if Delegated(update) {
        tasks := Insert(tasks, call, TaskName);
        outcomes := outcomes[call := None];
        events := events + [TaskStarted(call, item, update.title.value)];
      }
    }

    /** The update itself; and if the call says it ended, what it printed and its completion. */
    method CloseTool(item: Item, update: Update, reached: Option<string>) returns (events: seq<Event>)
      requires update.ToolUpdate?
      modifies `items
      ensures items == if Ends(update) then Without(old(items), item) else old(items)
      ensures events == ToolClosing(item, update, reached)
    {
      var rest := [];
      if Ends(update) {
        if update.contents.Some? {
          rest := PushDeltas(item, ToolOutput, update.contents.value);
        }
        items := Without(items, item);
        rest := rest + [ItemCompleted(item, EndOf(update))];
      }
      events := [ItemUpdated(item, update, reached)] + rest;
    }

    method UpdateTool(turn: Turn, call: string, update: Update) returns (events: seq<Event>)
      requires update.ToolUpdate?
      modifies `reaching, `items, `tasks, `outcomes
      ensures
        var item := ToolItem(turn, call);
        var announced := item !in old(items) && Delegated(update);
        && reaching == Learned(old(View()), item, update)
        && items == ToolItems(old(items), item, update)
        && tasks == (if announced then Insert(old(tasks), call, TaskName) else old(tasks))
        && outcomes == ToolOutcomes(old(outcomes), call, announced, update)
      ensures events == Tooled(old(View()), turn, call, update).events
    {
      var item := ToolItem(turn, call);
      if update.skill.Some? {
        reaching := reaching[item := update.skill.value];
      }
      var reached := Reached(reaching, item);
      var unseen := item !in items;
      items := Insert(items, item, ItemName);
      var opening := [];
      if unseen {
        opening := OpenTool(item, call, update, reached);
      }
      if Ends(update) && call in outcomes {
        outcomes := outcomes[call := Some(EndOf(update))];
      }
      var closing := CloseTool(item, update, reached);
      events := opening + closing;
    }

    method Update(update: Update) returns (events: seq<Event>)
      modifies this
      ensures View() == Updated(old(View()), update).state
      ensures events == Updated(old(View()), update).events
    {
      events := [];
      if update.UsageUpdate? {
        if update.used.Some? && update.size.Some? {
          context := Some(Gauge(update.used.value, update.size.value));
        }
        return;
      }
      if active.None? {
        return;
      }
      var turn := active.value.turn;
      match update
      case Chunk(thought, text) =>
        var item := ChunkItem(turn, thought);
        var unseen := item !in items;
        items := Insert(items, item, ItemName);
        if unseen {
          events := events + [ItemStarted(item, if thought then Reasoning else AssistantMessage, None)];
        }
        if text.Some? {
          events := events + [ContentDelta(item, if thought then ReasoningText else AssistantText, text.value)];
        } else {
          events := events + [RawUpdate(update)];
        }
      case ToolUpdate(call, _, _, _, _, _) =>
        if call.Some? {
          events := UpdateTool(turn, call.value, update);
        }
      case _ =>
        events := events + [RawUpdate(update)];
    }

    method Send(call: Outgoing) returns (events: seq<Event>)
      modifies this
      ensures View() == StepSent(old(View()), call).state
      ensures events == StepSent(old(View()), call).events
    {
      events := [];
      match call
      case ConfigCall(id) => configRequests := configRequests + {id};
      case PromptCall(id, blocks) =>
        var turn := Prompted(epoch, id);
        active := Some(Active(id, turn));
        var item := UserItem(turn);
        events := [TurnStarted(turn), ItemStarted(item, UserMessage, None)];
        var typed := PushDeltas(item, UserText, blocks);
        events := events + typed + [ItemCompleted(item, ItemDone)];
      case Reply(id) =>
        var request := Request(epoch, id);
        if request in requests {
          requests := Without(requests, request);
          events := events + [RequestResolved(request)];
        }
      case OtherOutgoing =>
    }

    /** The reply that ends the active turn: billed, judged, and everything closed. */
    method Close(message: Incoming) returns (events: seq<Event>)
      requires Closes(View(), message)
      modifies this
      ensures View() == Closed(old(View()), message).state
      ensures events == Closed(old(View()), message).events
    {
      var verdict := Said(message.error, message.stop);
      ran := NobodyAsked;
      var spent := Spent(message.usage);
      if verdict.status == TurnDone && ran == NoModelCalled {
        verdict := Verdict(TurnFailed, Some(NO_MODEL));
      }
      events := Finish(verdict.status, verdict.detail, Some(spent));
    }

    method Answer(message: Incoming) returns (events: seq<Event>)
      modifies this
      ensures View() == Answered(old(View()), message).state
      ensures events == Answered(old(View()), message).events
    {
      events := [];
      match message
      case PermissionCall(id, asking, title) =>
        var request := Request(epoch, id);
        if asking == session && request !in requests {
          requests := Insert(requests, request, RequestName);
          events := events + [RequestOpened(request, title.GetOr("Agent tool permission"))];
        }
      case CursorTask(named, agent, description) =>
        if named.Some? {
          var call := named.value;
          if call in outcomes {
            var outcome := outcomes[call];
            tasks, outcomes := Without(tasks, call), outcomes - {call};
            if agent.Some? {
              events := events + [TaskProgress(call, "Cursor subagent " + agent.value)];
            }
            events := events + [TaskCompleted(call, outcome.GetOr(ItemDone), description)];
          } else {
            events := events + [RawMessage(message)];
          }
        }
      case SessionUpdate(about, update) =>
        if about == session {
          events := Update(update);
        }
      case Response(id, _, _, _, _) =>
        if active.Some? && active.value.id == id {
          events := Close(message);
        } else {
          events := events + [RawMessage(message)];
        }
      case OtherIncoming =>
        events := events + [RawMessage(message)];
    }

    method Receive(message: Incoming, replay: bool) returns (events: seq<Event>)
      modifies this
      ensures View() == StepReceived(old(View()), message, replay).state
      ensures events == StepReceived(old(View()), message, replay).events
    {
      events := [];
      if message.Response? {
        var waiting := message.id in configRequests;
        configRequests := configRequests - {message.id};
        if waiting && message.error.None? {
          events := Configured(message.options);
        }
      }
      if message.SessionUpdate? && message.session == session && message.update.ConfigUpdate? {
        events := Configured(message.update.options);
        return;
      }
      if replay {
        return;
      }
      var answered := Answer(message);
      events := events + answered;
    }

    /** A new process: what the old one left open is closed under it. */
    method Restart(started: string) returns (events: seq<Event>)
      modifies this
      ensures View() == Step(old(View()), Started(started)).state
      ensures events == Step(old(View()), Started(started)).events
    {
      events := Finish(TurnInterrupted, Some(RESTARTED), None);
      epoch := started;
      session := None;
      configuration := [];
      configRequests := {};
      tasks, outcomes := [], map[];
    }

    /** A connection that failed ends the active turn, or one standing for the start-up. */
    method Fail(detail: string) returns (events: seq<Event>)
      modifies this
      ensures View() == Step(old(View()), Failed(detail)).state
      ensures events == Step(old(View()), Failed(detail)).events
    {
      if active.None? {
        active := Some(Active("null", Startup(epoch)));
      }
      events := Finish(TurnFailed, Some(detail), None);
    }

    /** Read one record and report everything it means. */
    method Push(record: Record) returns (events: seq<Event>)
      modifies this
      ensures View() == Step(old(View()), record).state
      ensures events == Step(old(View()), record).events
    {
      events := [];
      match record
      case ConfigurationRejected =>
      case Metered(input, output) => metered := Some(Pair(input, output));
      case Started(started) => events := Restart(started);
      case Ready(ready) => session := Some(ready);
      case Failed(detail) => events := Fail(detail);
      case Sent(call) => events := Send(call);
      case Received(message, replay) => events := Receive(message, replay);
    }
  }
}
