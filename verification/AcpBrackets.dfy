/**
 What a conversation's events open and close, read from the events alone, and
 the proof that the ACP reader's sets are exactly what its events left open.
 */
module AcpBrackets {
  import opened Common
  import opened OrderedSets
  import opened Acp

  /** What has been started and not ended. */
  datatype Open = Open(turn: Option<Turn>, items: set<Item>, requests: set<Request>, tasks: set<string>)

  /** Whether an event may follow, with `o` open. */
  predicate Allowed(o: Open, event: Event) {
    match event
    case ItemStarted(item, _, _) => item !in o.items
    case ItemUpdated(item, _, _) => item in o.items
    case ContentDelta(item, _, _) => item in o.items
    case ItemCompleted(item, _) => item in o.items
    case RequestOpened(request, _) => request !in o.requests
    case RequestResolved(request) => request in o.requests
    case TaskStarted(_, item, _) => item in o.items
    case TaskProgress(task, _) => task in o.tasks
    case TaskCompleted(task, _, _) => task in o.tasks
    case TurnCompleted(turn, _, _, _) =>
      && o.items == {} && o.requests == {} && o.tasks == {}
      && (o.turn == Some(turn) || (o.turn == None && turn.Startup?))
    case _ => true
  }

  function After(o: Open, event: Event): Open {
    match event
    case TurnStarted(turn) => o.(turn := Some(turn))
    case TurnCompleted(_, _, _, _) => o.(turn := None)
    case ItemStarted(item, _, _) => o.(items := o.items + {item})
    case ItemCompleted(item, _) => o.(items := o.items - {item})
    case RequestOpened(request, _) => o.(requests := o.requests + {request})
    case RequestResolved(request) => o.(requests := o.requests - {request})
    case TaskStarted(task, _, _) => o.(tasks := o.tasks + {task})
    case TaskCompleted(task, _, _) => o.(tasks := o.tasks - {task})
    case _ => o
  }

  /** What is open after the events, if each was allowed where it came. */
  function Follow(o: Open, events: seq<Event>): Option<Open>
    decreases |events|
  {
    if events == [] then Some(o)
    else if Allowed(o, events[0]) then Follow(After(o, events[0]), events[1..])
    else None
  }

  lemma {:induction false} FollowConcat(o: Open, first: seq<Event>, second: seq<Event>)
    ensures Follow(o, first + second) ==
            (match Follow(o, first) case Some(p) => Follow(p, second) case None => None)
    decreases |first|
  {
    if first == [] {
      assert first + second == second;
    } else {
      assert (first + second)[1..] == first[1..] + second;
      if Allowed(o, first[0]) {
        FollowConcat(After(o, first[0]), first[1..], second);
      }
    }
  }

  lemma FollowOne(o: Open, event: Event)
    ensures Follow(o, [event]) == if Allowed(o, event) then Some(After(o, event)) else None
  {
    assert Follow(After(o, event), []) == Some(After(o, event));
  }

  /** What the reader's state says is open. */
  function OpenIn(s: State): Open {
    Open(if s.active.Some? then Some(s.active.value.turn) else None,
         Elements(s.items), Elements(s.requests), Elements(s.tasks))
  }

  /** What the reader's fields keep true between records. */
  ghost predicate Sound(s: State) {
    && Distinct(s.items) && Distinct(s.requests) && Distinct(s.tasks)
    && s.outcomes.Keys == Elements(s.tasks)
    && (forall item :: item in s.items ==> !item.UserItem?)
    && (s.active.None? ==> s.items == [] && s.tasks == [])
  }

  /** The three sets are iterated in the order of their names. */
  ghost predicate InOrder(s: State) {
    Ordered(s.items, ItemName) && Ordered(s.requests, RequestName) && Ordered(s.tasks, TaskName)
  }

  ghost predicate Valid(s: State) {
    Sound(s) && InOrder(s)
  }

  // ---- one helper at a time ----------------------------------------------

  lemma {:induction false} TasksClose(o: Open, tasks: seq<string>, outcomes: map<string, Option<ItemStatus>>)
    requires Distinct(tasks) && o.tasks == Elements(tasks)
    ensures Follow(o, CloseTasks(tasks, outcomes)) == Some(o.(tasks := {}))
    decreases |tasks|
  {
    if tasks == [] {
      assert o == o.(tasks := {});
    } else {
      assert tasks == [tasks[0]] + tasks[1..];
      ConsElements(tasks[0], tasks[1..]);
      var closed := o.(tasks := o.tasks - {tasks[0]});
      assert tasks[0] !in Elements(tasks[1..]);
      assert closed.tasks == Elements(tasks[1..]);
      TasksClose(closed, tasks[1..], outcomes);
      FollowOne(o, CloseTasks(tasks, outcomes)[0]);
      FollowConcat(o, [CloseTasks(tasks, outcomes)[0]], CloseTasks(tasks[1..], outcomes));
    }
  }

  lemma {:induction false} RequestsClose(o: Open, requests: seq<Request>)
    requires Distinct(requests) && o.requests == Elements(requests)
    ensures Follow(o, CloseRequests(requests)) == Some(o.(requests := {}))
    decreases |requests|
  {
    if requests == [] {
      assert o == o.(requests := {});
    } else {
      assert requests == [requests[0]] + requests[1..];
      ConsElements(requests[0], requests[1..]);
      var closed := o.(requests := o.requests - {requests[0]});
      assert requests[0] !in Elements(requests[1..]);
      assert closed.requests == Elements(requests[1..]);
      RequestsClose(closed, requests[1..]);
      FollowOne(o, CloseRequests(requests)[0]);
      FollowConcat(o, [CloseRequests(requests)[0]], CloseRequests(requests[1..]));
    }
  }

  lemma {:induction false} ItemsClose(o: Open, items: seq<Item>, status: ItemStatus)
    requires Distinct(items) && o.items == Elements(items)
    ensures Follow(o, CloseItems(items, status)) == Some(o.(items := {}))
    decreases |items|
  {
    if items == [] {
      assert o == o.(items := {});
    } else {
      assert items == [items[0]] + items[1..];
      ConsElements(items[0], items[1..]);
      var closed := o.(items := o.items - {items[0]});
      assert items[0] !in Elements(items[1..]);
      assert closed.items == Elements(items[1..]);
      ItemsClose(closed, items[1..], status);
      FollowOne(o, CloseItems(items, status)[0]);
      FollowConcat(o, [CloseItems(items, status)[0]], CloseItems(items[1..], status));
    }
  }

  lemma {:induction false} DeltasKeep(o: Open, item: Item, stream: Stream, blocks: seq<Option<string>>)
    requires item in o.items
    ensures Follow(o, Deltas(item, stream, blocks)) == Some(o)
  {
    if blocks != [] {
      DeltasKeep(o, item, stream, blocks[1..]);
      if blocks[0].Some? {
        FollowOne(o, ContentDelta(item, stream, blocks[0].value));
        FollowConcat(o, [ContentDelta(item, stream, blocks[0].value)], Deltas(item, stream, blocks[1..]));
      } else {
        assert [] + Deltas(item, stream, blocks[1..]) == Deltas(item, stream, blocks[1..]);
      }
    }
  }

  /** Finishing closes everything, and the turn last of all. */
  lemma FinishBrackets(s: State, start: Open, status: TurnStatus, detail: Option<string>, spent: Option<Usage>)
    requires Sound(s)
    requires start.(turn := OpenIn(s).turn) == OpenIn(s)
    requires start.turn == OpenIn(s).turn || (start.turn == None && s.active.Some? && s.active.value.turn.Startup?)
    ensures
      var out := Finish(s, status, detail, spent);
      Sound(out.state) && Follow(start, out.events) == Some(OpenIn(out.state))
  {
    var tasks, requests := CloseTasks(s.tasks, s.outcomes), CloseRequests(s.requests);
    var items, turn := CloseItems(s.items, EndOfItem(status)), CloseTurn(s.active, status, detail, spent);
    TasksClose(start, s.tasks, s.outcomes);
    var o1 := start.(tasks := {});
    RequestsClose(o1, s.requests);
    var o2 := o1.(requests := {});
    ItemsClose(o2, s.items, EndOfItem(status));
    var o3 := o2.(items := {});
    FollowConcat(start, tasks, requests);
    FollowConcat(start, tasks + requests, items);
    FollowConcat(start, tasks + requests + items, turn);
    assert Follow(o3, turn) == Some(OpenIn(Finish(s, status, detail, spent).state)) by {
      assert Elements<Item>([]) == {} && Elements<Request>([]) == {} && Elements<string>([]) == {};
      if s.active.Some? {
        FollowOne(o3, turn[0]);
      }
    }
  }

  lemma PromptBrackets(s: State, id: string, blocks: seq<Option<string>>)
    requires Sound(s)
    ensures
      var out := StepSent(s, PromptCall(id, blocks));
      Sound(out.state) && Follow(OpenIn(s), out.events) == Some(OpenIn(out.state))
  {
    var turn := Prompted(s.epoch, id);
    var item := UserItem(turn);
    var o := OpenIn(s);
    assert item !in o.items;
    var opening := [TurnStarted(turn), ItemStarted(item, UserMessage, None)];
    var p := o.(turn := Some(turn), items := o.items + {item});
    assert Follow(o, opening) == Some(p) by {
      assert opening[1..] == [ItemStarted(item, UserMessage, None)];
      FollowOne(o.(turn := Some(turn)), opening[1]);
    }
    DeltasKeep(p, item, UserText, blocks);
    FollowOne(p, ItemCompleted(item, ItemDone));
    FollowConcat(o, opening, Deltas(item, UserText, blocks));
    FollowConcat(o, opening + Deltas(item, UserText, blocks), [ItemCompleted(item, ItemDone)]);
    assert p.items - {item} == o.items;
  }

  lemma ChunkKeepsSound(s: State, turn: Turn, update: Update)
    requires Sound(s) && s.active.Some? && update.Chunk?
    ensures Sound(Chunked(s, turn, update).state)
  {
    InsertAdds(s.items, ChunkItem(turn, update.thought), ItemName);
    StillNoUserItems(s.items, ChunkItem(turn, update.thought));
  }

  lemma ChunkBrackets(s: State, turn: Turn, update: Update)
    requires Sound(s) && s.active.Some? && update.Chunk?
    ensures
      var out := Chunked(s, turn, update);
      Follow(OpenIn(s), out.events) == Some(OpenIn(out.state))
  {
    var item := ChunkItem(turn, update.thought);
    var out := Chunked(s, turn, update);
    var o := OpenIn(s);
    var p := o.(items := o.items + {item});
    InsertAdds(s.items, item, ItemName);
    assert OpenIn(out.state) == p;
    var said := out.events[|out.events| - 1];
    FollowOne(p, said);
    if item in s.items {
      assert p == o && out.events == [said];
    } else {
      FollowOne(o, out.events[0]);
      OpenedThenSaid(o, p, out.events[0], said);
      assert out.events == [out.events[0]] + [said];
    }
  }

  lemma OpenedThenSaid(o: Open, p: Open, opening: Event, said: Event)
    requires Follow(o, [opening]) == Some(p) && Follow(p, [said]) == Some(p)
    ensures Follow(o, [opening] + [said]) == Some(p)
  {
    FollowConcat(o, [opening], [said]);
  }

  lemma StillNoUserItems(items: seq<Item>, item: Item)
    requires !item.UserItem? && forall i :: i in items ==> !i.UserItem?
    ensures forall i :: i in Insert(items, item, ItemName) ==> !i.UserItem?
    ensures forall i :: i in Without(Insert(items, item, ItemName), item) ==> !i.UserItem?
  {
    var more := Insert(items, item, ItemName);
    InsertAdds(items, item, ItemName);
    WithoutRemoves(more, item);
    forall i | i in more ensures !i.UserItem? { assert i in Elements(more); }
    var less := Without(more, item);
    forall i | i in less ensures !i.UserItem? { assert i in Elements(less); assert i in Elements(more); }
  }

  lemma ToolOpeningBrackets(o: Open, item: Item, call: string, update: Update, reached: Option<string>)
    requires update.ToolUpdate? && item !in o.items
    ensures Follow(o, ToolOpening(item, call, update, reached)) ==
            Some(o.(items := o.items + {item}, tasks := if Delegated(update) then o.tasks + {call} else o.tasks))
  {
    var opening := ToolOpening(item, call, update, reached);
    FollowOne(o, opening[0]);
    if Delegated(update) {
      FollowOne(o.(items := o.items + {item}), opening[1]);
      FollowConcat(o, [opening[0]], [opening[1]]);
      assert opening == [opening[0]] + [opening[1]];
    } else {
      assert opening == [opening[0]];
    }
  }

  lemma ToolClosingBrackets(o: Open, item: Item, update: Update, reached: Option<string>)
    requires update.ToolUpdate? && item in o.items
    ensures Follow(o, ToolClosing(item, update, reached)) ==
            Some(if Ends(update) then o.(items := o.items - {item}) else o)
  {
    var outputs := ToolOutputs(item, update);
    var ending := if Ends(update) then [ItemCompleted(item, EndOf(update))] else [];
    FollowOne(o, ItemUpdated(item, update, reached));
    if Ends(update) && update.contents.Some? {
      DeltasKeep(o, item, ToolOutput, update.contents.value);
    }
    FollowConcat(o, outputs, ending);
    FollowConcat(o, [ItemUpdated(item, update, reached)], outputs + ending);
    if Ends(update) {
      FollowOne(o, ending[0]);
    }
  }

  lemma ToolItemsHold(items: seq<Item>, item: Item, update: Update)
    requires update.ToolUpdate? && Distinct(items)
    ensures
      var after := ToolItems(items, item, update);
      Distinct(after)
          && Elements(after) == if Ends(update) then Elements(items) + {item} - {item} else Elements(items) + {item}
  {
    InsertAdds(items, item, ItemName);
    WithoutRemoves(Insert(items, item, ItemName), item);
  }

  lemma ToolKeepsSound(s: State, turn: Turn, call: string, update: Update)
    requires Sound(s) && s.active.Some? && update.ToolUpdate?
    ensures Sound(Tooled(s, turn, call, update).state)
  {
    StillNoUserItems(s.items, ToolItem(turn, call));
    ToolItemsHold(s.items, ToolItem(turn, call), update);
    InsertAdds(s.tasks, call, TaskName);
  }

  lemma ToolBrackets(s: State, turn: Turn, call: string, update: Update)
    requires Sound(s) && s.active.Some? && update.ToolUpdate?
    ensures
      var out := Tooled(s, turn, call, update);
      Follow(OpenIn(s), out.events) == Some(OpenIn(out.state))
  {
    var item := ToolItem(turn, call);
    var reached := Reached(Learned(s, item, update), item);
    var unseen := item !in s.items;
    var o := OpenIn(s);
    var opening := if unseen then ToolOpening(item, call, update, reached) else [];
    var p := o.(items := o.items + {item}, tasks := if unseen && Delegated(update) then o.tasks + {call} else o.tasks);
    if unseen {
      ToolOpeningBrackets(o, item, call, update, reached);
    } else {
      assert o.items + {item} == o.items;
    }
    assert Follow(o, opening) == Some(p);
    ToolClosingBrackets(p, item, update, reached);
    FollowConcat(o, opening, ToolClosing(item, update, reached));
    ToolItemsHold(s.items, item, update);
    InsertAdds(s.tasks, call, TaskName);
  }

  lemma UpdatedBrackets(s: State, update: Update)
    requires Sound(s)
    ensures
      var out := Updated(s, update);
      Sound(out.state) && Follow(OpenIn(s), out.events) == Some(OpenIn(out.state))
  {
    if !update.UsageUpdate? && s.active.Some? {
      var turn := s.active.value.turn;
      match update
      case Chunk(_, _) =>
        ChunkKeepsSound(s, turn, update);
        ChunkBrackets(s, turn, update);
      case ToolUpdate(Some(call), _, _, _, _, _) =>
        ToolKeepsSound(s, turn, call, update);
        ToolBrackets(s, turn, call, update);
      case ToolUpdate(None, _, _, _, _, _) =>
      case _ => FollowOne(OpenIn(s), RawUpdate(update));
    }
  }

  lemma TaskReportedBrackets(s: State, message: Incoming)
    requires Sound(s) && message.CursorTask?
    ensures
      var out := TaskReported(s, message);
      Sound(out.state) && Follow(OpenIn(s), out.events) == Some(OpenIn(out.state))
  {
    var out := TaskReported(s, message);
    var o := OpenIn(s);
    if message.call.Some? {
      var call := message.call.value;
      if call in s.outcomes {
        var progress :=
          if message.agent.Some? then [TaskProgress(call, "Cursor subagent " + message.agent.value)] else [];
        var ending := [TaskCompleted(call, s.outcomes[call].GetOr(ItemDone), message.description)];
        assert call in o.tasks;
        WithoutRemoves(s.tasks, call);
        if message.agent.Some? { FollowOne(o, progress[0]); }
        FollowOne(o, ending[0]);
        FollowConcat(o, progress, ending);
      } else {
        FollowOne(o, RawMessage(message));
      }
    }
  }

  lemma ClosedBrackets(s: State, message: Incoming)
    requires Sound(s) && Closes(s, message)
    ensures
      var out := Closed(s, message);
      Sound(out.state) && Follow(OpenIn(s), out.events) == Some(OpenIn(out.state))
  {
    var bill := Spent(s.(ran := NobodyAsked), message.usage);
    var verdict := Judged(Said(message.error, message.stop), bill.state.ran);
    FinishBrackets(bill.state, OpenIn(s), verdict.status, verdict.detail, Some(bill.usage));
  }

  lemma AnsweredBrackets(s: State, message: Incoming)
    requires Sound(s)
    ensures
      var out := Answered(s, message);
      Sound(out.state) && Follow(OpenIn(s), out.events) == Some(OpenIn(out.state))
  {
    match message
    case PermissionCall(id, session, title) =>
      if session == s.session && Request(s.epoch, id) !in s.requests {
        InsertAdds(s.requests, Request(s.epoch, id), RequestName);
        FollowOne(OpenIn(s), RequestOpened(Request(s.epoch, id), title.GetOr("Agent tool permission")));
      }
    case CursorTask(_, _, _) => TaskReportedBrackets(s, message);
    case SessionUpdate(session, update) => if session == s.session { UpdatedBrackets(s, update); }
    case Response(_, _, _, _, _) =>
      if Closes(s, message) {
        ClosedBrackets(s, message);
      } else {
        FollowOne(OpenIn(s), RawMessage(message));
      }
    case OtherIncoming => FollowOne(OpenIn(s), RawMessage(message));
  }

  lemma ReceivedBrackets(s: State, message: Incoming, replay: bool)
    requires Sound(s)
    ensures
      var out := StepReceived(s, message, replay);
      Sound(out.state) && Follow(OpenIn(s), out.events) == Some(OpenIn(out.state))
  {
    var noticed := Noticed(s, message);
    assert Sound(noticed.state) && OpenIn(noticed.state) == OpenIn(s);
    if noticed.events != [] {
      FollowOne(OpenIn(s), noticed.events[0]);
      assert noticed.events == [noticed.events[0]];
    }
    if !(replay || OnlyConfigures(s, message)) {
      AnsweredBrackets(noticed.state, message);
      FollowConcat(OpenIn(s), noticed.events, Answered(noticed.state, message).events);
    }
  }

  // ---- the order of the sets ---------------------------------------------

  lemma UpdatedKeepsOrder(s: State, update: Update)
    requires InOrder(s)
    ensures InOrder(Updated(s, update).state)
  {
    if !update.UsageUpdate? && s.active.Some? {
      var turn := s.active.value.turn;
      match update
      case Chunk(thought, _) => InsertKeepsOrder(s.items, ChunkItem(turn, thought), ItemName);
      case ToolUpdate(Some(call), _, _, _, _, _) =>
        var item := ToolItem(turn, call);
        InsertKeepsOrder(s.items, item, ItemName);
        WithoutKeepsOrder(Insert(s.items, item, ItemName), item, ItemName);
        InsertKeepsOrder(s.tasks, call, TaskName);
      case _ =>
    }
  }

  lemma AnsweredKeepsOrder(s: State, message: Incoming)
    requires InOrder(s)
    ensures InOrder(Answered(s, message).state)
  {
    match message
    case PermissionCall(id, _, _) => InsertKeepsOrder(s.requests, Request(s.epoch, id), RequestName);
    case CursorTask(Some(call), _, _) => WithoutKeepsOrder(s.tasks, call, TaskName);
    case SessionUpdate(_, update) => UpdatedKeepsOrder(s, update);
    case _ =>
  }

  lemma StepKeepsOrder(s: State, record: Record)
    requires InOrder(s)
    ensures InOrder(Step(s, record).state)
  {
    match record
    case Sent(Reply(id)) => WithoutKeepsOrder(s.requests, Request(s.epoch, id), RequestName);
    case Received(message, replay) =>
      var noticed := Noticed(s, message);
      assert InOrder(noticed.state);
      if !(replay || OnlyConfigures(s, message)) {
        AnsweredKeepsOrder(noticed.state, message);
      }
    case _ =>
  }

  /** Every record keeps the reader valid, and its events account for what it holds open. */
  lemma StepBrackets(s: State, record: Record)
    requires Valid(s)
    ensures
      var out := Step(s, record);
      Valid(out.state) && Follow(OpenIn(s), out.events) == Some(OpenIn(out.state))
  {
    StepKeepsOrder(s, record);
    match record
    case Started(_) => FinishBrackets(s, OpenIn(s), TurnInterrupted, Some(RESTARTED), None);
    case Failed(detail) =>
      var t := if s.active.None? then s.(active := Some(Active("null", Startup(s.epoch)))) else s;
      FinishBrackets(t, OpenIn(s), TurnFailed, Some(detail), None);
    case Sent(PromptCall(id, blocks)) => PromptBrackets(s, id, blocks);
    case Sent(Reply(id)) =>
      if Request(s.epoch, id) in s.requests {
        WithoutRemoves(s.requests, Request(s.epoch, id));
        FollowOne(OpenIn(s), RequestResolved(Request(s.epoch, id)));
      }
    case Received(message, replay) => ReceivedBrackets(s, message, replay);
    case _ =>
  }

  /**
   Over any journal, the events are well bracketed - nothing is updated,
   streamed to or closed outside its own start and end, and a turn ends with
   nothing else open - and what they leave open is exactly what the reader holds.
   */
  lemma {:induction false} JournalBrackets(s: State, journal: seq<Record>)
    requires Valid(s)
    ensures
      var out := Run(s, journal);
      Valid(out.state) && Follow(OpenIn(s), out.events) == Some(OpenIn(out.state))
    decreases |journal|
  {
    if journal != [] {
      StepBrackets(s, journal[0]);
      var first := Step(s, journal[0]);
      JournalBrackets(first.state, journal[1..]);
      FollowConcat(OpenIn(s), first.events, Run(first.state, journal[1..]).events);
    }
  }

  /** The same from a new reader: nothing was open before the first record. */
  lemma EveryJournalBrackets(journal: seq<Record>)
    ensures
      var out := Run(INITIAL, journal);
      Follow(Open(None, {}, {}, {}), out.events) == Some(OpenIn(out.state))
  {
    assert OpenIn(INITIAL) == Open(None, {}, {}, {});
    JournalBrackets(INITIAL, journal);
  }

  /**
   After any journal, the end of a turn closes delegated calls, requests and items,
   each kind in the order of its names.
   */
  lemma EveryEndIsInOrder(journal: seq<Record>, status: TurnStatus, detail: Option<string>, spent: Option<Usage>)
    ensures
      var s := Run(INITIAL, journal).state;
      var calls, requests := CloseTasks(s.tasks, s.outcomes), CloseRequests(s.requests);
      var items := CloseItems(s.items, EndOfItem(status));
      && calls + requests + items <= Finish(s, status, detail, spent).events
      && Ordered(calls, ClosedName) && Ordered(requests, ClosedName) && Ordered(items, ClosedName)
  {
    JournalBrackets(INITIAL, journal);
    EndIsInOrder(Run(INITIAL, journal).state, status, detail, spent);
  }

  lemma EndIsInOrder(s: State, status: TurnStatus, detail: Option<string>, spent: Option<Usage>)
    requires InOrder(s)
    ensures
      var calls, requests := CloseTasks(s.tasks, s.outcomes), CloseRequests(s.requests);
      var items := CloseItems(s.items, EndOfItem(status));
      && calls + requests + items <= Finish(s, status, detail, spent).events
      && Ordered(calls, ClosedName) && Ordered(requests, ClosedName) && Ordered(items, ClosedName)
  {
    CallsCloseEach(s.tasks, s.outcomes);
    SameNamesSameOrder(s.tasks, TaskName, CloseTasks(s.tasks, s.outcomes), ClosedName);
    RequestsCloseEach(s.requests);
    SameNamesSameOrder(s.requests, RequestName, CloseRequests(s.requests), ClosedName);
    ItemsCloseEach(s.items, EndOfItem(status));
    SameNamesSameOrder(s.items, ItemName, CloseItems(s.items, EndOfItem(status)), ClosedName);
  }

  /** The name of what an event closes. */
  function ClosedName(event: Event): string {
    match event
    case TaskCompleted(task, _, _) => TaskName(task)
    case RequestResolved(request) => RequestName(request)
    case ItemCompleted(item, _) => ItemName(item)
    case _ => ""
  }

  lemma {:induction false} CallsCloseEach(tasks: seq<string>, outcomes: map<string, Option<ItemStatus>>)
    ensures |CloseTasks(tasks, outcomes)| == |tasks|
    ensures forall i :: 0 <= i < |tasks| ==> ClosedName(CloseTasks(tasks, outcomes)[i]) == TaskName(tasks[i])
    decreases |tasks|
  {
    if tasks != [] {
      CallsCloseEach(tasks[1..], outcomes);
    }
  }

  lemma {:induction false} RequestsCloseEach(requests: seq<Request>)
    ensures |CloseRequests(requests)| == |requests|
    ensures forall i :: 0 <= i < |requests| ==> CloseRequests(requests)[i] == RequestResolved(requests[i])
    decreases |requests|
  {
    if requests != [] {
      RequestsCloseEach(requests[1..]);
    }
  }

  lemma {:induction false} ItemsCloseEach(items: seq<Item>, status: ItemStatus)
    ensures |CloseItems(items, status)| == |items|
    ensures forall i :: 0 <= i < |items| ==> CloseItems(items, status)[i] == ItemCompleted(items[i], status)
    decreases |items|
  {
    if items != [] {
      ItemsCloseEach(items[1..], status);
    }
  }

  // ---- a task that is started twice ---------------------------------------

  /**
   Whether a record is a delegated call coming in live: its update under a `Task:`
   title, with no open item for the call in the active turn.
   */
  predicate Comes(s: State, record: Record, task: string) {
    record.Received? && !record.replay && MessageComes(s, record.message, task)
  }

  predicate MessageComes(s: State, message: Incoming, task: string) {
    && message.SessionUpdate? && message.session == s.session
    && message.update.ToolUpdate? && message.update.call == Some(task)
    && Delegated(message.update)
    && s.active.Some? && ToolItem(s.active.value.turn, task) !in s.items
  }

  /** How often the events announce a task. */
  function TimesAnnounced(events: seq<Event>, task: string): nat {
    if events == [] then 0
    else (if events[0].TaskStarted? && events[0].task == task then 1 else 0) + TimesAnnounced(events[1..], task)
  }

  /** How many records of a journal are the call coming in. */
  function Comings(s: State, journal: seq<Record>, task: string): nat
    decreases |journal|
  {
    if journal == [] then 0
    else (if Comes(s, journal[0], task) then 1 else 0) + Comings(Step(s, journal[0]).state, journal[1..], task)
  }

  lemma {:induction false} AnnouncedInTwo(a: seq<Event>, b: seq<Event>, task: string)
    ensures TimesAnnounced(a + b, task) == TimesAnnounced(a, task) + TimesAnnounced(b, task)
    decreases |a|
  {
    if a == [] {
      assert a + b == b;
    } else {
      assert (a + b)[1..] == a[1..] + b;
      AnnouncedInTwo(a[1..], b, task);
    }
  }

  lemma {:induction false} NoneAnnounced(events: seq<Event>, task: string)
    requires forall i :: 0 <= i < |events| ==> !events[i].TaskStarted?
    ensures TimesAnnounced(events, task) == 0
    decreases |events|
  {
    if events != [] {
      NoneAnnounced(events[1..], task);
    }
  }

  lemma FinishAnnouncesNothing(s: State, status: TurnStatus, detail: Option<string>, spent: Option<Usage>, task: string)
    ensures TimesAnnounced(Finish(s, status, detail, spent).events, task) == 0
  {
    ClosingShape(s, EndOfItem(status));
    NoneAnnounced(Finish(s, status, detail, spent).events, task);
  }

  lemma OpeningAnnounces(item: Item, call: string, update: Update, reached: Option<string>, task: string)
    requires update.ToolUpdate?
    ensures TimesAnnounced(ToolOpening(item, call, update, reached), task) ==
            if Delegated(update) && task == call then 1 else 0
  {
    var opening := ToolOpening(item, call, update, reached);
    NoneAnnounced([opening[0]], task);
    if Delegated(update) {
      assert opening == [opening[0]] + [TaskStarted(call, item, update.title.value)];
      AnnouncedInTwo([opening[0]], [TaskStarted(call, item, update.title.value)], task);
    }
  }

  lemma ToolAnnounces(s: State, turn: Turn, call: string, update: Update, task: string)
    requires update.ToolUpdate?
    ensures TimesAnnounced(Tooled(s, turn, call, update).events, task) ==
            if ToolItem(turn, call) !in s.items && Delegated(update) && task == call then 1 else 0
  {
    var item := ToolItem(turn, call);
    var reached := Reached(Learned(s, item, update), item);
    var opening := if item in s.items then [] else ToolOpening(item, call, update, reached);
    var closing := ToolClosing(item, update, reached);
    ToolClosingShape(item, update, reached);
    NoneAnnounced(closing, task);
    OpeningAnnounces(item, call, update, reached, task);
    AnnouncedInTwo(opening, closing, task);
    assert Tooled(s, turn, call, update).events == opening + closing;
  }

  /** Among the answers only a delegated call's update announces a task. */
  lemma AnsweredAnnounces(s: State, message: Incoming, task: string)
    ensures TimesAnnounced(Answered(s, message).events, task) == if MessageComes(s, message, task) then 1 else 0
  {
    match message
    case SessionUpdate(session, update) =>
      if session == s.session && s.active.Some? && update.ToolUpdate? && update.call.Some? {
        ToolAnnounces(s, s.active.value.turn, update.call.value, update, task);
      } else {
        NoneAnnounced(Answered(s, message).events, task);
      }
    case Response(_, _, _, _, _) =>
      if Closes(s, message) {
        var bill := Spent(s.(ran := NobodyAsked), message.usage);
        var verdict := Judged(Said(message.error, message.stop), bill.state.ran);
        FinishAnnouncesNothing(bill.state, verdict.status, verdict.detail, Some(bill.usage), task);
      } else {
        NoneAnnounced(Answered(s, message).events, task);
      }
    case _ => NoneAnnounced(Answered(s, message).events, task);
  }

  /** In any state, a record announces a task exactly when it is the call coming in, and then once. */
  lemma {:induction false} StepAnnounces(s: State, record: Record, task: string)
    ensures TimesAnnounced(Step(s, record).events, task) == if Comes(s, record, task) then 1 else 0
  {
    match record
    case Started(_) => FinishAnnouncesNothing(s, TurnInterrupted, Some(RESTARTED), None, task);
    case Failed(detail) =>
      var t := if s.active.None? then s.(active := Some(Active("null", Startup(s.epoch)))) else s;
      FinishAnnouncesNothing(t, TurnFailed, Some(detail), None, task);
    case Sent(call) =>
      SentShape(s, call);
      NoneAnnounced(Step(s, record).events, task);
    case Received(message, replay) =>
      var noticed := Noticed(s, message);
      NoneAnnounced(noticed.events, task);
      if !(replay || OnlyConfigures(s, message)) {
        AnnouncedInTwo(noticed.events, Answered(noticed.state, message).events, task);
        AnsweredAnnounces(noticed.state, message, task);
      }
    case _ => NoneAnnounced(Step(s, record).events, task);
  }

  /** Over any journal from any state, a task is announced as often as its call comes in. */
  lemma {:induction false} AnnouncedAsOftenAsItComes(s: State, journal: seq<Record>, task: string)
    ensures TimesAnnounced(Run(s, journal).events, task) == Comings(s, journal, task)
    decreases |journal|
  {
    if journal != [] {
      var first := Step(s, journal[0]);
      StepAnnounces(s, journal[0], task);
      AnnouncedAsOftenAsItComes(first.state, journal[1..], task);
      AnnouncedInTwo(first.events, Run(first.state, journal[1..]).events, task);
    }
  }

  /** So from a new reader a task is announced at most once exactly when its call comes in at most once. */
  lemma AnnouncedOnceIff(journal: seq<Record>, task: string)
    ensures TimesAnnounced(Run(INITIAL, journal).events, task) <= 1 <==> Comings(INITIAL, journal, task) <= 1
  {
    AnnouncedAsOftenAsItComes(INITIAL, journal, task);
  }

  predicate Announces(events: seq<Event>, task: string) {
    exists i :: 0 <= i < |events| && events[i].TaskStarted? && events[i].task == task
  }

  lemma {:induction false} AnnouncesIff(events: seq<Event>, task: string)
    ensures Announces(events, task) <==> TimesAnnounced(events, task) > 0
    decreases |events|
  {
    if events != [] {
      AnnouncesIff(events[1..], task);
      if Announces(events[1..], task) {
        var i :| 0 <= i < |events| - 1 && events[1..][i].TaskStarted? && events[1..][i].task == task;
        assert events[i + 1] == events[1..][i];
      }
      if Announces(events, task) && !(events[0].TaskStarted? && events[0].task == task) {
        var i :| 0 <= i < |events| && events[i].TaskStarted? && events[i].task == task;
        assert events[1..][i - 1] == events[i];
      }
    }
  }

  /**
   In any state, with the task open, closed or never heard of, a record announces it
   exactly when its call comes back under its `Task:` title with no open item in the
   active turn: there was none, it completed, or a later prompt took the turn over.
   */
  lemma {:induction false} StartedTwiceIff(s: State, record: Record, task: string)
    ensures Announces(Step(s, record).events, task) <==> Comes(s, record, task)
  {
    StepAnnounces(s, record, task);
    AnnouncesIff(Step(s, record).events, task);
  }

  const COMPLETED_CALL: Update := ToolUpdate(Some("t"), Some("Task: look"), OtherCall, None, CallCompleted, None)
  const DELEGATED: Record := Received(SessionUpdate(None, COMPLETED_CALL), false)
  const REPORTED: Record := Received(CursorTask(Some("t"), None, None), false)

  /** The reader after a prompt and one completed delegated call: the task is open, its item is not. */
  lemma OneCallCompleted(s: State)
    requires s == Step(Step(INITIAL, Sent(PromptCall("1", []))).state, DELEGATED).state
    ensures s.active == Some(Active("1", Prompted("", "1"))) && s.session == None
    ensures s.items == [] && s.tasks == ["t"] && "t" in s.outcomes
  {
    var prompted := Step(INITIAL, Sent(PromptCall("1", []))).state;
    var item := ToolItem(Prompted("", "1"), "t");
    assert Insert([], item, ItemName) == [item] && Insert([], "t", TaskName) == ["t"];
    assert Without([item], item) == [];
    assert Tooled(prompted, Prompted("", "1"), "t", COMPLETED_CALL).state.tasks == ["t"];
  }

  /** A journal on which an open task is announced again. */
  lemma ATaskIsStartedTwice()
    ensures
      var journal := [Sent(PromptCall("1", [])), DELEGATED];
      && "t" in Run(INITIAL, journal).state.tasks
      && Announces(Step(Run(INITIAL, journal).state, DELEGATED).events, "t")
  {
    var journal := [Sent(PromptCall("1", [])), DELEGATED];
    var prompted := Step(INITIAL, journal[0]).state;
    var s := Step(prompted, DELEGATED).state;
    assert journal[1..] == [DELEGATED] && [DELEGATED][1..] == [];
    assert Run(prompted, [DELEGATED]).state == s;
    OneCallCompleted(s);
    StartedTwiceIff(s, DELEGATED, "t");
  }

  /** And one on which a task that `cursor/task` has closed is. */
  lemma AClosedTaskIsStartedAgain()
    ensures
      var closed := [Sent(PromptCall("1", [])), DELEGATED, REPORTED];
      && "t" !in Run(INITIAL, closed).state.tasks
      && Announces(Step(Run(INITIAL, closed).state, DELEGATED).events, "t")
  {
    var closed := [Sent(PromptCall("1", [])), DELEGATED, REPORTED];
    var prompted := Step(INITIAL, closed[0]).state;
    var s := Step(prompted, DELEGATED).state;
    var t := Step(s, REPORTED).state;
    assert closed[1..] == [DELEGATED, REPORTED] && [DELEGATED, REPORTED][1..] == [REPORTED] && [REPORTED][1..] == [];
    assert Run(s, [REPORTED]).state == t;
    assert Run(prompted, [DELEGATED, REPORTED]).state == t;
    OneCallCompleted(s);
    assert t.tasks == Without(["t"], "t") && Without(["t"], "t") == [];
    StartedTwiceIff(t, DELEGATED, "t");
  }
}
