/**
 What the Codex reader makes of one line, as a function of the state it held
 before. Lines are already parsed; the answers that only fill the pickers
 (`thread/start`, `model/list`) are not part of this model.
 */
module Codex {
  import opened Common

  datatype ItemKind =
    | AssistantMessage | UserMessage | Reasoning | CommandExecution | FileChange
    | McpToolCall | SkillUse | WebSearch | SubagentCall | UnknownKind

  datatype ItemStatus = ItemDone | ItemFailed | ItemDeclined

  datatype TurnStatus = TurnDone | TurnInterrupted | TurnFailed

  datatype Usage = Usage(
    input: nat, output: nat, cacheRead: Option<nat>, cacheWrite: Option<nat>, thinking: Option<nat>,
    contextUsed: Option<nat>, contextWindow: Option<nat>)

  // ---- lines -----------------------------------------------------------

  datatype AgentStatus = AgentRunning | AgentCompleted | AgentGone | AgentUnknown

  datatype AgentEntry = AgentEntry(thread: string, status: AgentStatus, message: Option<string>)

  datatype ActivityKind = Begun | Interacted | Done | Interrupted | OtherActivity

  datatype Body =
    | Collab(spawns: bool, prompt: Option<string>, model: Option<string>, receivers: seq<string>,
        states: seq<AgentEntry>)
    | Activity(thread: Option<string>, path: Option<string>, kind: ActivityKind)
    | Plain(itemKind: ItemKind, text: Option<string>)

  /** Whether the item turned out to be a skill being opened, and which one. */
  datatype Skill = NoSkill | SkillFound(name: Option<string>)

  datatype Item = Item(id: Option<string>, body: Body, skill: Skill, status: Option<ItemStatus>)

  datatype Line =
    | TurnBegins(turn: Option<string>)
    | TurnEnds(turn: Option<string>, turnStatus: TurnStatus, message: Option<string>, quota: bool)
    | ErrorFrame(message: Option<string>, quota: bool)
    | ItemBegins(item: Option<Item>, thread: Option<string>)
    | ItemEnds(item: Option<Item>)
    | TokenUsage(usage: Option<Usage>)
    | Question(request: string, about: Option<string>)
    | Approval(request: string)
    | Resolved(answered: Option<string>)
    | OutputDelta(of: Option<string>, delta: Option<string>)
    | OtherLine

  // ---- events ----------------------------------------------------------

  datatype Event =
    | TurnStarted(turn: string)
    | TurnCompleted(turn: string, turnStatus: TurnStatus, usage: Option<Usage>, detail: Option<string>)
    | ItemStarted(item: string, kind: ItemKind, owner: Option<string>)
    | ItemUpdated(item: string, skill: Option<string>)
    | ItemCompleted(item: string, status: ItemStatus)
    | ContentDelta(item: string, delta: string)
    | RequestOpened(request: string)
    | RequestResolved(request: string)
    | UserInputRequested(request: string)
    | UserInputResolved(request: string)
    | TaskStarted(task: string, item: string, description: string, agent: Option<string>)
    | TaskProgress(task: string, note: string)
    | TaskCompleted(task: string, status: ItemStatus, summary: Option<string>)
    | AccountBlocked
    | Raw

  // ---- state -----------------------------------------------------------

  datatype State = State(
    open: map<string, ItemKind>,
    usage: Option<Usage>,
    failure: Option<string>,
    activeTurn: Option<string>,
    asked: map<string, string>,
    agents: map<string, bool>)

  const INITIAL: State := State(map[], None, None, None, map[], map[])

  datatype Out = Out(state: State, events: seq<Event>)

  /** The subagent threads after something was said about them, and what was reported. */
  datatype Told = Told(agents: map<string, bool>, events: seq<Event>)

  // ---- delegation ------------------------------------------------------

  /** A thread is started the first time it is named, and only then. */
  function Begin(agents: map<string, bool>, thread: string, item: string, description: string,
                 agent: Option<string>): Told {
    if thread in agents then Told(agents, [])
    else Told(agents[thread := false], [TaskStarted(thread, item, description, agent)])
  }

  /** Report an ending, once. */
  function Finish(agents: map<string, bool>, thread: string, status: ItemStatus, summary: Option<string>): Told {
    if thread in agents && !agents[thread]
    then Told(agents[thread := true], [TaskCompleted(thread, status, summary)])
    else Told(agents, [])
  }

  function Spawn(agents: map<string, bool>, receivers: seq<string>, item: string, description: string,
                 agent: Option<string>): Told
    decreases |receivers|
  {
    if receivers == [] then Told(agents, [])
    else
      var first := Begin(agents, receivers[0], item, description, agent);
      var rest := Spawn(first.agents, receivers[1..], item, description, agent);
      Told(rest.agents, first.events + rest.events)
  }

  function AgentState(agents: map<string, bool>, entry: AgentEntry): Told {
    if entry.thread !in agents then Told(agents, [])
    else
      match entry.status
      case AgentRunning =>
        Told(agents, if entry.message.Some? then [TaskProgress(entry.thread, entry.message.value)] else [])
      case AgentCompleted => Finish(agents, entry.thread, ItemDone, entry.message)
      case AgentGone => Finish(agents, entry.thread, ItemFailed, entry.message)
      case AgentUnknown => Told(agents, [])
  }

  function AgentStates(agents: map<string, bool>, entries: seq<AgentEntry>): Told
    decreases |entries|
  {
    if entries == [] then Told(agents, [])
    else
      var first := AgentState(agents, entries[0]);
      var rest := AgentStates(first.agents, entries[1..]);
      Told(rest.agents, first.events + rest.events)
  }

  function CollabTold(agents: map<string, bool>, id: string, body: Body): Told
    requires body.Collab?
  {
    var spawned :=
      if body.spawns then Spawn(agents, body.receivers, id, body.prompt.GetOr(""), body.model) else Told(agents, []);
    var stated := AgentStates(spawned.agents, body.states);
    Told(stated.agents, spawned.events + stated.events)
  }

  function ActivityTold(agents: map<string, bool>, id: string, body: Body): Told
    requires body.Activity?
  {
    match body.thread
    case None => Told(agents, [])
    case Some(thread) =>
      match body.kind
      case Begun => Begin(agents, thread, id, body.path.GetOr(""), body.path)
      case Interacted =>
        Told(agents, if thread in agents then [TaskProgress(thread, body.path.GetOr(""))] else [])
      case Done => Finish(agents, thread, ItemDone, None)
      case Interrupted => Finish(agents, thread, ItemFailed, None)
      case OtherActivity => Told(agents, [])
  }

  /** The agents and the events an item of the thread leads to; any but the two delegating kinds leads to none. */
  function Delegation(agents: map<string, bool>, id: string, body: Body): Told {
    match body
    case Collab(_, _, _, _, _) => CollabTold(agents, id, body)
    case Activity(_, _, _) => ActivityTold(agents, id, body)
    case Plain(_, _) => Told(agents, [])
  }

  // ---- items -----------------------------------------------------------

  function Classify(body: Body): ItemKind {
    if body.Plain? then body.itemKind else SubagentCall
  }

  /** The items that are shown: not an activity, nor a collaboration that spawns nobody. */
  predicate Drawn(body: Body) {
    match body
    case Activity(_, _, _) => false
    case Collab(spawns, _, _, _, _) => spawns
    case Plain(_, _) => true
  }

  function Owner(agents: map<string, bool>, thread: Option<string>): Option<string> {
    if thread.Some? && thread.value in agents then thread else None
  }

  function Opened(id: string, item: Item, owner: Option<string>): seq<Event> {
    var kind := if item.skill.SkillFound? then SkillUse else Classify(item.body);
    (if item.skill.SkillFound? && item.skill.name.Some? then [ItemUpdated(id, item.skill.name)] else [])
    + [ItemStarted(id, kind, owner)]
    + if kind == UserMessage && item.body.Plain? && item.body.text.Some?
      then [ContentDelta(id, item.body.text.value)] else []
  }

  function ItemBegun(s: State, item: Item, thread: Option<string>): Out {
    match item.id
    case None => Out(s, [])
    case Some(id) =>
      var told := Delegation(s.agents, id, item.body);
      var kind := if item.skill.SkillFound? then SkillUse else Classify(item.body);
      if Drawn(item.body)
      then
        Out(s.(agents := told.agents, open := s.open[id := kind]),
            told.events + Opened(id, item, Owner(told.agents, thread)))
      else Out(s.(agents := told.agents, open := s.open - {id}), told.events)
  }

  function Shown(id: string, item: Item, kind: ItemKind): seq<Event> {
    [ItemUpdated(id, None)]
    + (if kind == Reasoning && item.body.Plain? && item.body.text.Some?
       then [ContentDelta(id, item.body.text.value)] else [])
    + [ItemCompleted(id, item.status.GetOr(ItemDone))]
  }

  function Answering(asked: map<string, string>, id: string): seq<Event> {
    if id in asked then [UserInputResolved(asked[id])] else []
  }

  function ItemEnded(s: State, item: Item): Out {
    match item.id
    case None => Out(s, [])
    case Some(id) =>
      var kind := if id in s.open then s.open[id] else Classify(item.body);
      var told := Delegation(s.agents, id, item.body);
      var t := s.(open := s.open - {id}, agents := told.agents);
      if Drawn(item.body)
      then Out(t.(asked := s.asked - {id}), told.events + (Shown(id, item, kind) + Answering(s.asked, id)))
      else Out(t, told.events)
  }

  // ---- turns and lines -------------------------------------------------

  function Quota(quota: bool): seq<Event> {
    if quota then [AccountBlocked] else []
  }

  function TurnEnded(s: State, turn: Option<string>, status: TurnStatus, message: Option<string>): Out {
    match turn
    case None => Out(s, [])
    case Some(id) =>
      Out(s.(open := map[], activeTurn := None, failure := None, usage := None),
          [TurnCompleted(id, status, s.usage, message.Or(s.failure))])
  }

  function Step(s: State, line: Line): Out {
    match line
    case TurnBegins(turn) =>
      if turn.None? then Out(s, []) else Out(s.(activeTurn := turn), [TurnStarted(turn.value)])
    case TurnEnds(turn, status, message, quota) =>
      var ended := TurnEnded(s, turn, status, message);
      Out(ended.state, ended.events + Quota(quota))
    case ErrorFrame(message, quota) => Out(s.(failure := message), Quota(quota))
    case ItemBegins(item, thread) => if item.None? then Out(s, []) else ItemBegun(s, item.value, thread)
    case ItemEnds(item) => if item.None? then Out(s, []) else ItemEnded(s, item.value)
    case TokenUsage(usage) => Out(s.(usage := usage), [])
    case Question(request, about) =>
      Out(if about.Some? then s.(asked := s.asked[about.value := request]) else s, [UserInputRequested(request)])
    case Approval(request) => Out(s, [RequestOpened(request)])
    case Resolved(answered) => Out(s, if answered.Some? then [RequestResolved(answered.value)] else [])
    case OutputDelta(of, delta) =>
      Out(s, if of.Some? && delta.Some? then [ContentDelta(of.value, delta.value)] else [])
    case OtherLine => Out(s, [Raw])
  }

  /** The item a line is about, and so the only thing in it that can speak of a subagent. */
  datatype About = About(id: string, body: Body)

  function Concerns(line: Line): Option<About> {
    match line
    case ItemBegins(Some(Item(Some(id), body, _, _)), _) => Some(About(id, body))
    case ItemEnds(Some(Item(Some(id), body, _, _))) => Some(About(id, body))
    case _ => None
  }

  /** An event that neither reports on a task nor attributes an item to an unknown one. */
  predicate Plainly(agents: map<string, bool>, event: Event) {
    && !event.TaskStarted? && !event.TaskProgress? && !event.TaskCompleted?
    && (event.ItemStarted? && event.owner.Some? ==> event.owner.value in agents)
  }

  /** An item's line says first what the item says of subagents, and then nothing more of them. */
  lemma ItemLineDelegates(s: State, line: Line)
    requires Concerns(line).Some?
    ensures
      var told := Delegation(s.agents, Concerns(line).value.id, Concerns(line).value.body);
      var out := Step(s, line);
      && out.state.agents == told.agents
      && |told.events| <= |out.events|
      && out.events == told.events + out.events[|told.events|..]
      && forall i :: |told.events| <= i < |out.events| ==> Plainly(told.agents, out.events[i])
  {
    var about := Concerns(line).value;
    var told := Delegation(s.agents, about.id, about.body);
    if Drawn(about.body) {
      if line.ItemBegins? {
        var rest := Opened(about.id, line.item.value, Owner(told.agents, line.thread));
        assert forall i :: 0 <= i < |rest| ==> Plainly(told.agents, rest[i]);
      } else {
        var kind := if about.id in s.open then s.open[about.id] else Classify(about.body);
        var rest := Shown(about.id, line.item.value, kind) + Answering(s.asked, about.id);
        assert forall i :: 0 <= i < |rest| ==> Plainly(told.agents, rest[i]);
      }
    }
  }

  lemma OtherLineDelegatesNothing(s: State, line: Line)
    requires Concerns(line).None?
    ensures Step(s, line).state.agents == s.agents
    ensures forall i :: 0 <= i < |Step(s, line).events| ==> Plainly(s.agents, Step(s, line).events[i])
  {
  }

  /** A whole transcript, read in order. */
  function Run(s: State, lines: seq<Line>): Out
    decreases |lines|
  {
    if lines == [] then Out(s, [])
    else
      var first := Step(s, lines[0]);
      var rest := Run(first.state, lines[1..]);
      Out(rest.state, first.events + rest.events)
  }

  lemma RunHead(s: State, first: Out, line: Line, rest: seq<Line>)
    requires first == Step(s, line)
    ensures Run(s, [line] + rest) == Out(Run(first.state, rest).state, first.events + Run(first.state, rest).events)
  {
    assert ([line] + rest)[1..] == rest;
  }

  lemma Regroup(a: seq<Event>, b: seq<Event>, c: seq<Event>)
    ensures a + (b + c) == a + b + c
  {
  }

  lemma {:induction false} RunConcat(s: State, a: seq<Line>, b: seq<Line>)
    ensures
      var first := Run(s, a);
      var second := Run(first.state, b);
      Run(s, a + b) == Out(second.state, first.events + second.events)
    decreases |a|
  {
    if a == [] {
      assert a + b == b;
    } else {
      var first := Step(s, a[0]);
      RunConcat(first.state, a[1..], b);
      RunHead(s, first, a[0], a[1..]);
      RunHead(s, first, a[0], a[1..] + b);
      assert a == [a[0]] + a[1..] && a + b == [a[0]] + (a[1..] + b);
      Regroup(first.events, Run(first.state, a[1..]).events, Run(Run(s, a).state, b).events);
    }
  }
}
