/**
 What the Codex reader answers to each line, in terms of the transcript before it:
 the specification the incremental reader refines.
 */
module CodexSays {
  import opened Common
  import opened Codex
  import opened CodexTasks
  import opened CodexTurns

  // ---- what the transcript leaves open ---------------------------------------------

  /** The items that get a card: anything but a subagent's lifecycle and the calls that start none. */
  predicate HasCard(body: Body) {
    body.Plain? || (body.Collab? && body.spawns)
  }

  function KindOf(item: Item): ItemKind {
    if item.skill.SkillFound? then SkillUse else if item.body.Plain? then item.body.itemKind else SubagentCall
  }

  /** The kind an item was begun with, if it is still open. */
  function BegunAs(lines: seq<Line>, id: string): Option<ItemKind>
    decreases |lines|
  {
    if lines == [] then None
    else
      var front, last := lines[..|lines| - 1], lines[|lines| - 1];
      match last
      case ItemBegins(Some(item), _) =>
        if item.id != Some(id) then BegunAs(front, id) else if HasCard(item.body) then Some(KindOf(item)) else None
      case ItemEnds(Some(item)) => if item.id == Some(id) then None else BegunAs(front, id)
      case TurnEnds(Some(_), _, _, _) => None
      case _ => BegunAs(front, id)
  }

  /** The turn last begun and not ended. */
  function TurnOf(lines: seq<Line>): Option<string>
    decreases |lines|
  {
    if lines == [] then None
    else
      match lines[|lines| - 1]
      case TurnBegins(Some(turn)) => Some(turn)
      case TurnEnds(Some(_), _, _, _) => None
      case _ => TurnOf(lines[..|lines| - 1])
  }

  // ---- delegation --------------------------------------------------------------------

  /** The threads named that were not known, each where it is first named. */
  function Newly(threads: seq<string>, known: set<string>): seq<string> {
    if threads == [] then []
    else
      var front, last := threads[..|threads| - 1], threads[|threads| - 1];
      Newly(front, known) + if last in known || last in front then [] else [last]
  }

  function Begun(threads: seq<string>, item: string, description: string, agent: Option<string>): seq<Event> {
    seq(|threads|, i requires 0 <= i < |threads| => TaskStarted(threads[i], item, description, agent))
  }

  /** An agent's own word: progress while it runs, and its end if that was not said before. */
  function EntrySays(entry: AgentEntry, started: set<string>, ended: set<string>): seq<Event> {
    if entry.thread !in started || entry.status.AgentUnknown? then []
    else if entry.status.AgentRunning? then
      if entry.message.Some? then [TaskProgress(entry.thread, entry.message.value)] else []
    else if entry.thread in ended then []
    else [TaskCompleted(entry.thread, if entry.status.AgentCompleted? then ItemDone else ItemFailed, entry.message)]
  }

  function StatesSay(entries: seq<AgentEntry>, started: set<string>, ended: set<string>): seq<Event> {
    if entries == [] then []
    else
      var front, last := entries[..|entries| - 1], entries[|entries| - 1];
      StatesSay(front, started, ended) + EntrySays(last, started, ended + EntriesEnd(front))
  }

  function ActivitySays(started: set<string>, ended: set<string>, id: string, thread: string, path: Option<string>,
                        kind: ActivityKind): seq<Event>
  {
    match kind
    case Begun => if thread in started then [] else [TaskStarted(thread, id, path.GetOr(""), path)]
    case Interacted => if thread in started then [TaskProgress(thread, path.GetOr(""))] else []
    case Done => if thread in started && thread !in ended then [TaskCompleted(thread, ItemDone, None)] else []
    case Interrupted => if thread in started && thread !in ended then [TaskCompleted(thread, ItemFailed, None)] else []
    case OtherActivity => []
  }

  /** What an item says of subagents. */
  function TasksSay(lines: seq<Line>, id: string, body: Body): seq<Event> {
    var started, ended := StartedBy(lines), EndedBy(lines);
    match body
    case Plain(_, _) => []
    case Activity(thread, path, kind) =>
      if thread.None? then [] else ActivitySays(started, ended, id, thread.value, path, kind)
    case Collab(spawns, prompt, model, receivers, states) =>
      if spawns then
        Begun(Newly(receivers, started), id, if prompt.Some? then prompt.value else "", model)
        + StatesSay(states, started + (set thread | thread in receivers), ended)
      else StatesSay(states, started, ended)
  }

  // ---- items -------------------------------------------------------------------------

  /** Whose an item is: its thread's, if a task was ever started for that, and else the main agent's. */
  function OwnerOf(lines: seq<Line>, thread: Option<string>): Option<string> {
    if thread.Some? && thread.value in StartedBy(lines) then thread else None
  }

  function BeginSays(lines: seq<Line>, line: Line, id: string, item: Item, thread: Option<string>): seq<Event> {
    TasksSay(lines, id, item.body)
    + if !HasCard(item.body) then []
      else
        (if item.skill.SkillFound? && item.skill.name.Some? then [ItemUpdated(id, item.skill.name)] else [])
        + [ItemStarted(id, KindOf(item), OwnerOf(lines + [line], thread))]
        + if KindOf(item).UserMessage? && item.body.Plain? && item.body.text.Some?
          then [ContentDelta(id, item.body.text.value)] else []
  }

  function EndSays(lines: seq<Line>, id: string, item: Item): seq<Event> {
    var kind := BegunAs(lines, id).GetOr(if item.body.Plain? then item.body.itemKind else SubagentCall);
    TasksSay(lines, id, item.body)
    + if !HasCard(item.body) then []
      else
        [ItemUpdated(id, None)]
        + (if kind.Reasoning? && item.body.Plain? && item.body.text.Some?
           then [ContentDelta(id, item.body.text.value)] else [])
        + [ItemCompleted(id, if item.status.Some? then item.status.value else ItemDone)]
        + if AskedAbout(lines, id).Some? then [UserInputResolved(AskedAbout(lines, id).value)] else []
  }

  // ---- lines -------------------------------------------------------------------------

  function Says(lines: seq<Line>, line: Line): seq<Event> {
    match line
    case TurnBegins(turn) => if turn.Some? then [TurnStarted(turn.value)] else []
    case TurnEnds(turn, status, message, quota) =>
      (if turn.Some?
       then [TurnCompleted(turn.value, status, UsageSince(lines), message.Or(FailureSince(lines)))] else [])
      + if quota then [AccountBlocked] else []
    case ErrorFrame(_, quota) => if quota then [AccountBlocked] else []
    case ItemBegins(Some(item), thread) =>
      if item.id.Some? then BeginSays(lines, line, item.id.value, item, thread) else []
    case ItemBegins(None, _) => []
    case ItemEnds(Some(item)) => if item.id.Some? then EndSays(lines, item.id.value, item) else []
    case ItemEnds(None) => []
    case TokenUsage(_) => []
    case Question(request, _) => [UserInputRequested(request)]
    case Approval(request) => [RequestOpened(request)]
    case Resolved(answered) => if answered.Some? then [RequestResolved(answered.value)] else []
    case OutputDelta(of, delta) => if of.Some? && delta.Some? then [ContentDelta(of.value, delta.value)] else []
    case OtherLine => [Raw]
  }

  // ---- the reader holds and says it ----------------------------------------------------

  function OpenAs(open: map<string, ItemKind>, id: string): Option<ItemKind> {
    if id in open then Some(open[id]) else None
  }

  lemma StepOpens(s: State, lines: seq<Line>, line: Line, id: string)
    requires OpenAs(s.open, id) == BegunAs(lines, id) && s.activeTurn == TurnOf(lines)
    ensures OpenAs(Step(s, line).state.open, id) == BegunAs(lines + [line], id)
    ensures Step(s, line).state.activeTurn == TurnOf(lines + [line])
  {
    var more := lines + [line];
    assert more[..|more| - 1] == lines && more[|more| - 1] == line;
  }

  /** The items open and the turn under way are those of the transcript. */
  lemma {:induction false} EveryTranscriptReads(lines: seq<Line>, id: string)
    ensures OpenAs(Run(INITIAL, lines).state.open, id) == BegunAs(lines, id)
    ensures Run(INITIAL, lines).state.activeTurn == TurnOf(lines)
    decreases |lines|
  {
    if lines != [] {
      var front, last := lines[..|lines| - 1], lines[|lines| - 1];
      EveryTranscriptReads(front, id);
      assert lines == front + [last];
      LastLine(INITIAL, front, last);
      StepOpens(Run(INITIAL, front).state, front, last, id);
    }
  }

  lemma {:induction false} SpawnInTwo(agents: map<string, bool>, a: seq<string>, last: string, item: string,
                                      description: string, agent: Option<string>)
    ensures var first := Spawn(agents, a, item, description, agent);
            Spawn(agents, a + [last], item, description, agent).events ==
            first.events + Begin(first.agents, last, item, description, agent).events
    decreases |a|
  {
    var all := a + [last];
    if a == [] {
      assert all == [last] && all[1..] == [];
      var begun := Begin(agents, last, item, description, agent).events;
      assert begun + [] == begun;
    } else {
      assert all[0] == a[0] && all[1..] == a[1..] + [last];
      var begun := Begin(agents, a[0], item, description, agent);
      SpawnInTwo(begun.agents, a[1..], last, item, description, agent);
      var more := Spawn(begun.agents, a[1..], item, description, agent);
      Regroup(begun.events, more.events, Begin(more.agents, last, item, description, agent).events);
    }
  }

  lemma {:induction false} SpawnSays(agents: map<string, bool>, threads: seq<string>, item: string,
                                     description: string, agent: Option<string>)
    ensures Spawn(agents, threads, item, description, agent).events ==
            Begun(Newly(threads, agents.Keys), item, description, agent)
    decreases |threads|
  {
    if threads != [] {
      var front, last := threads[..|threads| - 1], threads[|threads| - 1];
      assert threads == front + [last];
      SpawnSays(agents, front, item, description, agent);
      SpawnInTwo(agents, front, last, item, description, agent);
      SpawnKnows(agents, front, item, description, agent);
    }
  }

  lemma {:induction false} StatesInTwo(agents: map<string, bool>, a: seq<AgentEntry>, last: AgentEntry)
    ensures var first := AgentStates(agents, a);
            AgentStates(agents, a + [last]).events == first.events + AgentState(first.agents, last).events
    decreases |a|
  {
    var all := a + [last];
    if a == [] {
      assert all == [last] && all[1..] == [];
      assert AgentState(agents, last).events + [] == AgentState(agents, last).events;
    } else {
      assert all[0] == a[0] && all[1..] == a[1..] + [last];
      var said := AgentState(agents, a[0]);
      StatesInTwo(said.agents, a[1..], last);
      var more := AgentStates(said.agents, a[1..]);
      Regroup(said.events, more.events, AgentState(more.agents, last).events);
    }
  }

  lemma {:induction false} StatesAreSaid(agents: map<string, bool>, entries: seq<AgentEntry>)
    ensures AgentStates(agents, entries).events == StatesSay(entries, agents.Keys, Ended(agents))
    decreases |entries|
  {
    if entries != [] {
      var front, last := entries[..|entries| - 1], entries[|entries| - 1];
      assert entries == front + [last];
      StatesAreSaid(agents, front);
      StatesInTwo(agents, front, last);
      StatesEnd(agents, front);
      EntryIsSaid(AgentStates(agents, front).agents, last, Ended(agents) + EntriesEnd(front));
    }
  }

  lemma EntryIsSaid(agents: map<string, bool>, entry: AgentEntry, ended: set<string>)
    requires Ended(agents) == ended * agents.Keys
    ensures AgentState(agents, entry).events == EntrySays(entry, agents.Keys, ended)
  {
    assert entry.thread in agents ==> (entry.thread in Ended(agents) <==> agents[entry.thread]);
  }

  lemma CollabIsSaid(lines: seq<Line>, agents: map<string, bool>, id: string, body: Body)
    requires body.Collab? && agents.Keys == StartedBy(lines) && Ended(agents) == EndedBy(lines)
    ensures CollabTold(agents, id, body).events == TasksSay(lines, id, body)
  {
    if body.spawns {
      var spawned := Spawn(agents, body.receivers, id, body.prompt.GetOr(""), body.model);
      SpawnSays(agents, body.receivers, id, body.prompt.GetOr(""), body.model);
      SpawnKnows(agents, body.receivers, id, body.prompt.GetOr(""), body.model);
      StatesAreSaid(spawned.agents, body.states);
    } else {
      StatesAreSaid(agents, body.states);
      assert [] + AgentStates(agents, body.states).events == AgentStates(agents, body.states).events;
    }
  }

  lemma TasksAreSaid(lines: seq<Line>, agents: map<string, bool>, id: string, body: Body)
    requires agents.Keys == StartedBy(lines) && Ended(agents) == EndedBy(lines)
    ensures Delegation(agents, id, body).events == TasksSay(lines, id, body)
  {
    match body
    case Collab(_, _, _, _, _) => CollabIsSaid(lines, agents, id, body);
    case Activity(Some(thread), _, _) => assert thread in agents ==> (thread in Ended(agents) <==> agents[thread]);
    case _ =>
  }

  lemma OwnersAreStarted(lines: seq<Line>, agents: map<string, bool>, line: Line, id: string, body: Body)
    requires agents.Keys == StartedBy(lines) && Concerns(line) == Some(About(id, body))
    ensures Delegation(agents, id, body).agents.Keys == StartedBy(lines + [line])
  {
    BodyMarks(agents, id, body);
    var more := lines + [line];
    assert more[..|more| - 1] == lines && more[|more| - 1] == line;
  }

  lemma BeginIsSaid(lines: seq<Line>, s: State, id: string, item: Item, thread: Option<string>)
    requires s.agents.Keys == StartedBy(lines) && Ended(s.agents) == EndedBy(lines) && item.id == Some(id)
    ensures ItemBegun(s, item, thread).events == BeginSays(lines, ItemBegins(Some(item), thread), id, item, thread)
  {
    var line := ItemBegins(Some(item), thread);
    TasksAreSaid(lines, s.agents, id, item.body);
    OwnersAreStarted(lines, s.agents, line, id, item.body);
    var told := Delegation(s.agents, id, item.body);
    assert told.events + [] == told.events;
    assert Owner(told.agents, thread) == OwnerOf(lines + [line], thread);
  }

  lemma EndIsSaid(lines: seq<Line>, s: State, id: string, item: Item)
    requires s.agents.Keys == StartedBy(lines) && Ended(s.agents) == EndedBy(lines) && item.id == Some(id)
    requires OpenAs(s.open, id) == BegunAs(lines, id)
    requires (if id in s.asked then Some(s.asked[id]) else None) == AskedAbout(lines, id)
    ensures ItemEnded(s, item).events == EndSays(lines, id, item)
  {
    TasksAreSaid(lines, s.agents, id, item.body);
    var told := Delegation(s.agents, id, item.body);
    assert told.events + [] == told.events;
    var kind := BegunAs(lines, id).GetOr(if item.body.Plain? then item.body.itemKind else SubagentCall);
    assert kind == if id in s.open then s.open[id] else Classify(item.body);
    ShownIsSaid(id, item, kind, AskedAbout(lines, id), s.asked);
  }

  lemma ShownIsSaid(id: string, item: Item, kind: ItemKind, request: Option<string>, asked: map<string, string>)
    requires (if id in asked then Some(asked[id]) else None) == request
    ensures Shown(id, item, kind) + Answering(asked, id) ==
            [ItemUpdated(id, None)]
            + (if kind.Reasoning? && item.body.Plain? && item.body.text.Some?
               then [ContentDelta(id, item.body.text.value)] else [])
            + [ItemCompleted(id, if item.status.Some? then item.status.value else ItemDone)]
            + if request.Some? then [UserInputResolved(request.value)] else []
  {
  }

  /** After any transcript, a line says exactly what the lines before it make of it. */
  lemma EveryLineSays(lines: seq<Line>, line: Line)
    ensures Step(Run(INITIAL, lines).state, line).events == Says(lines, line)
  {
    var s := Run(INITIAL, lines).state;
    ReadingMarks(lines);
    match line
    case ItemBegins(Some(item), thread) =>
      if item.id.Some? {
        BeginIsSaid(lines, s, item.id.value, item, thread);
      }
    case ItemEnds(Some(item)) =>
      if item.id.Some? {
        EveryTranscriptReads(lines, item.id.value);
        FieldsReadTheTranscript(lines, item.id.value);
        EndIsSaid(lines, s, item.id.value, item);
      }
    case _ => FieldsReadTheTranscript(lines, "");
  }

  // ---- whose an item is --------------------------------------------------------------------

  /**
   After any transcript, the line that begins a drawn item starts its card once, for
   the task of its thread exactly when a task was started for that thread by then,
   and for the main agent otherwise.
   */
  lemma AnItemIsItsThreads(lines: seq<Line>, id: string, body: Body, skill: Skill, status: Option<ItemStatus>,
                           thread: Option<string>) returns (k: nat)
    requires body.Plain? || (body.Collab? && body.spawns)
    ensures var line := ItemBegins(Some(Item(Some(id), body, skill, status)), thread);
            var events := Step(Run(INITIAL, lines).state, line).events;
            && k < |events| && events[k].ItemStarted? && events[k].item == id
            && events[k].owner == (if thread.Some? && thread.value in StartedBy(lines + [line]) then thread else None)
            && forall i :: 0 <= i < |events| && events[i].ItemStarted? ==> i == k
  {
    var item := Item(Some(id), body, skill, status);
    var line := ItemBegins(Some(item), thread);
    EveryLineSays(lines, line);
    TasksStartNoItem(lines, id, body);
    var tasks := TasksSay(lines, id, body);
    var naming := if skill.SkillFound? && skill.name.Some? then [ItemUpdated(id, skill.name)] else [];
    var text := if KindOf(item).UserMessage? && body.Plain? && body.text.Some?
      then [ContentDelta(id, body.text.value)] else [];
    var begun := ItemStarted(id, KindOf(item), OwnerOf(lines + [line], thread));
    OneItemStarts(tasks, naming, begun, text);
    k := |tasks| + |naming|;
  }

  lemma OneItemStarts(tasks: seq<Event>, naming: seq<Event>, begun: Event, text: seq<Event>)
    requires forall i :: 0 <= i < |tasks| ==> !tasks[i].ItemStarted?
    requires forall i :: 0 <= i < |naming| ==> !naming[i].ItemStarted?
    requires forall i :: 0 <= i < |text| ==> !text[i].ItemStarted?
    ensures var events := tasks + (naming + [begun] + text);
            && events[|tasks| + |naming|] == begun
            && forall i :: 0 <= i < |events| && events[i].ItemStarted? ==> i == |tasks| + |naming|
  {
  }

  lemma TasksStartNoItem(lines: seq<Line>, id: string, body: Body)
    ensures forall i :: 0 <= i < |TasksSay(lines, id, body)| ==> !TasksSay(lines, id, body)[i].ItemStarted?
  {
    if body.Collab? {
      StatesStartNoItem(body.states, StartedBy(lines), EndedBy(lines));
      StatesStartNoItem(body.states, StartedBy(lines) + (set thread | thread in body.receivers), EndedBy(lines));
    }
  }

  lemma {:induction false} StatesStartNoItem(entries: seq<AgentEntry>, started: set<string>, ended: set<string>)
    ensures forall i :: 0 <= i < |StatesSay(entries, started, ended)| ==>
              !StatesSay(entries, started, ended)[i].ItemStarted?
    decreases |entries|
  {
    if entries != [] {
      StatesStartNoItem(entries[..|entries| - 1], started, ended);
    }
  }
}
