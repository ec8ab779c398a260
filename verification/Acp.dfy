/**
 What the ACP reader makes of one journal record, as a function of the state it
 held before. `AcpReader.AcpNormaliser` computes this step by step; the lemmas
 about whole journals are stated on `Run`.

 Records are already parsed: a request id is its JSON text (`null` when it is
 missing), a tool's content blocks are the texts they print.
 */
module Acp {
  import opened Common
  import opened OrderedSets

  // ---- identities ------------------------------------------------------

  datatype Turn = Prompted(epoch: string, id: string) | Startup(epoch: string)

  datatype Item =
    | UserItem(turn: Turn)
    | ChunkItem(turn: Turn, thought: bool)
    | ToolItem(turn: Turn, call: string)

  datatype Request = Request(epoch: string, id: string)

  function TurnName(turn: Turn): string {
    match turn
    case Prompted(epoch, id) => epoch + ":" + id
    case Startup(epoch) => epoch + ":startup"
  }

  function ItemName(item: Item): string {
    match item
    case UserItem(turn) => TurnName(turn) + ":user"
    case ChunkItem(turn, thought) => TurnName(turn)
        + (if thought then ":agent_thought_chunk" else ":agent_message_chunk")
    case ToolItem(turn, call) => TurnName(turn) + ":tool:" + call
  }

  function RequestName(request: Request): string {
    request.epoch + ":" + request.id
  }

  function TaskName(task: string): string {
    task
  }

  // ---- records ---------------------------------------------------------

  datatype SettingKind = ModelSetting | EffortSetting | ModeSetting

  datatype Setting = Setting(id: string, kind: SettingKind, current: Option<string>)

  /** The usage block of a reply, field by field as it was present. */
  datatype RawUsage = RawUsage(
    input: Option<nat>, output: Option<nat>,
    cacheRead: Option<nat>, cacheWrite: Option<nat>, thinking: Option<nat>)

  datatype CallKind = ReadCall | EditCall | DeleteCall | MoveCall | ExecuteCall | SearchCall | FetchCall | OtherCall

  /** A call's own status: still going (or unsaid), or ended one way or the other. */
  datatype CallStatus = Going | CallCompleted | CallFailed

  datatype StopReason = Cancelled | EndTurn | StoppedFor(reason: string)

  datatype Update =
    | UsageUpdate(used: Option<nat>, size: Option<nat>)
    | ConfigUpdate(options: Option<seq<Setting>>)
    | Chunk(thought: bool, text: Option<string>)
    | ToolUpdate(
        call: Option<string>, title: Option<string>, kind: CallKind, skill: Option<string>,
        status: CallStatus, contents: Option<seq<Option<string>>>)
    | OtherUpdate

  datatype Outgoing =
    | ConfigCall(id: string)
    | PromptCall(id: string, blocks: seq<Option<string>>)
    | Reply(id: string)
    | OtherOutgoing

  datatype Incoming =
    | Response(id: string, error: Option<string>, options: Option<seq<Setting>>, stop: Option<StopReason>,
        usage: RawUsage)
    | SessionUpdate(session: Option<string>, update: Update)
    | PermissionCall(id: string, session: Option<string>, title: Option<string>)
    | CursorTask(call: Option<string>, agent: Option<string>, description: Option<string>)
    | OtherIncoming

  datatype Record =
    | ConfigurationRejected
    | Metered(input: nat, output: nat)
    | Started(epoch: string)
    | Ready(session: string)
    | Failed(detail: string)
    | Sent(call: Outgoing)
    | Received(message: Incoming, replay: bool)

  // ---- events ----------------------------------------------------------

  datatype TurnStatus = TurnDone | TurnFailed | TurnInterrupted

  datatype ItemStatus = ItemDone | ItemFailed

  datatype ItemKind =
    | UserMessage | Reasoning | AssistantMessage | SubagentCall | SkillUse
    | FileRead | FileChange | CommandExecution | WebSearch | UnknownKind

  datatype Stream = UserText | AssistantText | ReasoningText | ToolOutput

  datatype Usage = Usage(
    input: nat, output: nat,
    cacheRead: Option<nat>, cacheWrite: Option<nat>, thinking: Option<nat>,
    contextUsed: Option<nat>, contextWindow: Option<nat>)

  datatype Event =
    | SessionConfigured(model: string, mode: string)
    | TurnStarted(turn: Turn)
    | TurnCompleted(turn: Turn, turnStatus: TurnStatus, usage: Option<Usage>, detail: Option<string>)
    | ItemStarted(item: Item, kind: ItemKind, title: Option<string>)
    | ItemUpdated(item: Item, update: Update, skill: Option<string>)
    | ItemCompleted(item: Item, status: ItemStatus)
    | ContentDelta(item: Item, stream: Stream, delta: string)
    | RequestOpened(request: Request, asks: string)
    | RequestResolved(request: Request)
    | TaskStarted(task: string, item: Item, description: string)
    | TaskProgress(task: string, note: string)
    | TaskCompleted(task: string, status: ItemStatus, summary: Option<string>)
    | RawMessage(message: Incoming)
    | RawUpdate(update: Update)

  // ---- state -----------------------------------------------------------

  /** Since the prompt: the meter's input grew, was read and did not, or was not read. */
  datatype Ran = NobodyAsked | ModelCalled | NoModelCalled

  datatype Active = Active(id: string, turn: Turn)

  /** Running totals as a reply reports them. */
  datatype Totals = Totals(
    input: nat, output: nat,
    cacheRead: Option<nat>, cacheWrite: Option<nat>, thinking: Option<nat>)

  datatype Pair = Pair(input: nat, output: nat)

  datatype Gauge = Gauge(used: nat, size: nat)

  datatype State = State(
    epoch: string,
    active: Option<Active>,
    session: Option<string>,
    items: seq<Item>,
    reaching: map<Item, string>,
    requests: seq<Request>,
    configRequests: set<string>,
    configuration: seq<Setting>,
    tasks: seq<string>,
    outcomes: map<string, Option<ItemStatus>>,
    context: Option<Gauge>,
    billed: Totals,
    metered: Option<Pair>,
    charged: Pair,
    ran: Ran)

  const INITIAL: State := State(
    "", None, None, [], map[], [], {}, [], [], map[], None,
    Totals(0, 0, None, None, None), None, Pair(0, 0), NobodyAsked)

  datatype Out = Out(state: State, events: seq<Event>)

  // ---- closing what is open ----------------------------------------------

  function CloseTasks(tasks: seq<string>, outcomes: map<string, Option<ItemStatus>>): seq<Event> {
    if tasks == [] then []
    else
      var outcome := if tasks[0] in outcomes then outcomes[tasks[0]] else None;
      [TaskCompleted(tasks[0], outcome.GetOr(ItemFailed), None)] + CloseTasks(tasks[1..], outcomes)
  }

  function CloseRequests(requests: seq<Request>): seq<Event> {
    if requests == [] then [] else [RequestResolved(requests[0])] + CloseRequests(requests[1..])
  }

  function CloseItems(items: seq<Item>, status: ItemStatus): seq<Event> {
    if items == [] then [] else [ItemCompleted(items[0], status)] + CloseItems(items[1..], status)
  }

  function CloseTurn(active: Option<Active>, status: TurnStatus, detail: Option<string>,
                     spent: Option<Usage>): seq<Event> {
    match active
    case None => []
    case Some(a) => [TurnCompleted(a.turn, status, spent, detail)]
  }

  function EndOfItem(status: TurnStatus): ItemStatus {
    if status == TurnFailed then ItemFailed else ItemDone
  }

  /** The ends of everything that is open under the turn. */
  function Closing(s: State, status: ItemStatus): seq<Event> {
    CloseTasks(s.tasks, s.outcomes) + CloseRequests(s.requests) + CloseItems(s.items, status)
  }

  function Finish(s: State, status: TurnStatus, detail: Option<string>, spent: Option<Usage>): Out {
    Out(s.(tasks := [], outcomes := map[], requests := [], items := [], active := None),
        Closing(s, EndOfItem(status)) + CloseTurn(s.active, status, detail, spent))
  }

  // ---- what a turn cost --------------------------------------------------

  function SaturatingSub(now: nat, before: nat): nat {
    if now >= before then now - before else 0
  }

  /** Two required fields; without both there is no usage block. */
  function ParseUsage(raw: RawUsage): Option<Totals> {
    if raw.input.Some? && raw.output.Some?
    then Some(Totals(raw.input.value, raw.output.value, raw.cacheRead, raw.cacheWrite, raw.thinking))
    else None
  }

  /** The difference of two totals either of which may be unreported. */
  function PairOf(now: Option<nat>, before: Option<nat>): Option<nat> {
    match now
    case None => None
    case Some(n) => Some(SaturatingSub(n, before.GetOr(0)))
  }

  datatype Bill = Bill(state: State, usage: Usage)

  function Spent(s: State, raw: RawUsage): Bill {
    var used := if s.context.Some? then Some(s.context.value.used) else None;
    var size := if s.context.Some? then Some(s.context.value.size) else None;
    match ParseUsage(raw)
    case Some(total) =>
      Bill(s.(billed := total),
           Usage(SaturatingSub(total.input, s.billed.input), SaturatingSub(total.output, s.billed.output),
                 PairOf(total.cacheRead, s.billed.cacheRead), PairOf(total.cacheWrite, s.billed.cacheWrite),
                 PairOf(total.thinking, s.billed.thinking), used, size))
    case None =>
      match s.metered
      case Some(reading) =>
        Bill(s.(metered := None, charged := reading,
                ran := if reading.input > s.charged.input then ModelCalled else NoModelCalled),
             Usage(SaturatingSub(reading.input, s.charged.input), SaturatingSub(reading.output, s.charged.output),
                   None, None, None, used, size))
      case None =>
        Bill(s, Usage(0, 0, None, None, None, used, size))
  }

  datatype Verdict = Verdict(status: TurnStatus, detail: Option<string>)

  const NO_STOP_REASON: string := "ACP prompt response has no stopReason"

  const NO_MODEL: string :=
    "The agent ended this turn without calling a model. "
    + "Its sign-in or its quota is the usual reason \U{2014} reconnect the account and try again."

  /** How the agent says the prompt ended. */
  function Said(error: Option<string>, stop: Option<StopReason>): Verdict {
    if error.Some? then Verdict(TurnFailed, error)
    else
      match stop
      case None => Verdict(TurnFailed, Some(NO_STOP_REASON))
      case Some(Cancelled) => Verdict(TurnInterrupted, None)
      case Some(EndTurn) => Verdict(TurnDone, None)
      case Some(StoppedFor(reason)) => Verdict(TurnDone, Some("Agent stopped: " + reason))
  }

  /** A turn called successful that reached no model is a failed one. */
  function Judged(said: Verdict, ran: Ran): Verdict {
    if said.status == TurnDone && ran == NoModelCalled then Verdict(TurnFailed, Some(NO_MODEL)) else said
  }

  // ---- configuration -----------------------------------------------------

  function CurrentOf(configuration: seq<Setting>, kind: SettingKind): string {
    if configuration == [] then ""
    else if configuration[0].kind == kind then configuration[0].current.GetOr("")
    else CurrentOf(configuration[1..], kind)
  }

  function Configured(s: State, options: Option<seq<Setting>>): Out {
    match options
    case None => Out(s, [])
    case Some(settings) =>
      Out(s.(configuration := settings),
          [SessionConfigured(CurrentOf(settings, ModelSetting), CurrentOf(settings, ModeSetting))])
  }

  // ---- session updates ---------------------------------------------------

  /** One delta for every block that prints something. */
  function Deltas(item: Item, stream: Stream, blocks: seq<Option<string>>): seq<Event> {
    if blocks == [] then []
    else (if blocks[0].Some? then [ContentDelta(item, stream, blocks[0].value)] else [])
         + Deltas(item, stream, blocks[1..])
  }

  function Chunked(s: State, turn: Turn, update: Update): Out
    requires update.Chunk?
  {
    var item := ChunkItem(turn, update.thought);
    var opening :=
      if item in s.items then []
      else [ItemStarted(item, if update.thought then Reasoning else AssistantMessage, None)];
    var said :=
      match update.text
      case Some(text) => [ContentDelta(item, if update.thought then ReasoningText else AssistantText, text)]
      case None => [RawUpdate(update)];
    Out(s.(items := Insert(s.items, item, ItemName)), opening + said)
  }

  predicate Delegated(update: Update)
    requires update.ToolUpdate?
  {
    update.title.Some? && "Task:" <= update.title.value
  }

  /** The updates that are drawn as a skill's card. */
  predicate IsASkill(update: Update)
    requires update.ToolUpdate?
  {
    update.skill.Some?
    || (update.title.Some? && (update.title.value == "Skill" || "Invoke skill" <= update.title.value))
  }

  function ToolKind(update: Update, reached: Option<string>): ItemKind
    requires update.ToolUpdate?
  {
    if Delegated(update) then SubagentCall
    else if reached.Some? || IsASkill(update) then SkillUse
    else
      match update.kind
      case ReadCall => FileRead
      case EditCall | DeleteCall | MoveCall => FileChange
      case ExecuteCall => CommandExecution
      case SearchCall | FetchCall => WebSearch
      case OtherCall => UnknownKind
  }

  predicate Ends(update: Update)
    requires update.ToolUpdate?
  {
    update.status != Going
  }

  function EndOf(update: Update): ItemStatus
    requires update.ToolUpdate?
  {
    if update.status == CallFailed then ItemFailed else ItemDone
  }

  function Learned(s: State, item: Item, update: Update): map<Item, string>
    requires update.ToolUpdate?
  {
    match update.skill
    case Some(found) => s.reaching[item := found]
    case None => s.reaching
  }

  function Reached(reaching: map<Item, string>, item: Item): Option<string> {
    if item in reaching then Some(reaching[item]) else None
  }

  /** The events of a call not seen before, or not open any more. */
  function ToolOpening(item: Item, call: string, update: Update, reached: Option<string>): seq<Event>
    requires update.ToolUpdate?
  {
    [ItemStarted(item, ToolKind(update, reached), reached.Or(update.title))]
    + if Delegated(update) then [TaskStarted(call, item, update.title.value)] else []
  }

  function ToolOutputs(item: Item, update: Update): seq<Event>
    requires update.ToolUpdate?
  {
    if Ends(update) && update.contents.Some? then Deltas(item, ToolOutput, update.contents.value) else []
  }

  function ToolItems(items: seq<Item>, item: Item, update: Update): seq<Item>
    requires update.ToolUpdate?
  {
    var shown := Insert(items, item, ItemName);
    if Ends(update) then Without(shown, item) else shown
  }

  /** How a delegated call ended, kept for its task until `cursor/task` or the turn closes it. */
  function ToolOutcomes(outcomes: map<string, Option<ItemStatus>>, call: string, announced: bool, update: Update)
    : map<string, Option<ItemStatus>>
    requires update.ToolUpdate?
  {
    var known := if announced then outcomes[call := None] else outcomes;
    if Ends(update) && call in known then known[call := Some(EndOf(update))] else known
  }

  /** The update itself, what it printed, and its completion if it says so. */
  function ToolClosing(item: Item, update: Update, reached: Option<string>): seq<Event>
    requires update.ToolUpdate?
  {
    [ItemUpdated(item, update, reached)]
    + (ToolOutputs(item, update) + if Ends(update) then [ItemCompleted(item, EndOf(update))] else [])
  }

  function Tooled(s: State, turn: Turn, call: string, update: Update): Out
    requires update.ToolUpdate?
  {
    var item := ToolItem(turn, call);
    var reaching := Learned(s, item, update);
    var reached := Reached(reaching, item);
    var unseen := item !in s.items;
    var announced := unseen && Delegated(update);
    Out(s.(reaching := reaching,
           tasks := if announced then Insert(s.tasks, call, TaskName) else s.tasks,
           outcomes := ToolOutcomes(s.outcomes, call, announced, update),
           items := ToolItems(s.items, item, update)),
        (if unseen then ToolOpening(item, call, update, reached) else []) + ToolClosing(item, update, reached))
  }

  function Updated(s: State, update: Update): Out {
    if update.UsageUpdate? then
      if update.used.Some? && update.size.Some?
      then Out(s.(context := Some(Gauge(update.used.value, update.size.value))), [])
      else Out(s, [])
    else if s.active.None? then Out(s, [])
    else
      match update
      case Chunk(_, _) => Chunked(s, s.active.value.turn, update)
      case ToolUpdate(Some(call), _, _, _, _, _) => Tooled(s, s.active.value.turn, call, update)
      case ToolUpdate(None, _, _, _, _, _) => Out(s, [])
      case _ => Out(s, [RawUpdate(update)])
  }

  // ---- records -----------------------------------------------------------

  function StepSent(s: State, call: Outgoing): Out {
    match call
    case ConfigCall(id) => Out(s.(configRequests := s.configRequests + {id}), [])
    case PromptCall(id, blocks) =>
      var turn := Prompted(s.epoch, id);
      var item := UserItem(turn);
      Out(s.(active := Some(Active(id, turn))),
          [TurnStarted(turn), ItemStarted(item, UserMessage, None)]
          + Deltas(item, UserText, blocks)
          + [ItemCompleted(item, ItemDone)])
    case Reply(id) =>
      var request := Request(s.epoch, id);
      if request in s.requests
      then Out(s.(requests := Without(s.requests, request)), [RequestResolved(request)])
      else Out(s, [])
    case OtherOutgoing => Out(s, [])
  }

  /** The current session's configuration, which a replay does not suppress. */
  function Noticed(s: State, message: Incoming): Out {
    match message
    case Response(id, error, options, _, _) =>
      var t := s.(configRequests := s.configRequests - {id});
      if id in s.configRequests && error.None? then Configured(t, options) else Out(t, [])
    case SessionUpdate(session, ConfigUpdate(options)) =>
      if session == s.session then Configured(s, options) else Out(s, [])
    case _ => Out(s, [])
  }

  predicate OnlyConfigures(s: State, message: Incoming) {
    message.SessionUpdate? && message.update.ConfigUpdate? && message.session == s.session
  }

  predicate Closes(s: State, message: Incoming) {
    message.Response? && s.active.Some? && s.active.value.id == message.id
  }

  /** The reply that ends the active turn. */
  function Closed(s: State, message: Incoming): Out
    requires Closes(s, message)
  {
    var bill := Spent(s.(ran := NobodyAsked), message.usage);
    var verdict := Judged(Said(message.error, message.stop), bill.state.ran);
    Finish(bill.state, verdict.status, verdict.detail, Some(bill.usage))
  }

  function TaskReported(s: State, message: Incoming): Out
    requires message.CursorTask?
  {
    match message.call
    case None => Out(s, [])
    case Some(call) =>
      if call !in s.outcomes then Out(s, [RawMessage(message)])
      else
        Out(s.(tasks := Without(s.tasks, call), outcomes := s.outcomes - {call}),
            (if message.agent.Some? then [TaskProgress(call, "Cursor subagent " + message.agent.value)] else [])
            + [TaskCompleted(call, s.outcomes[call].GetOr(ItemDone), message.description)])
  }

  /** What a message means to the conversation, when it is not a replay. */
  function Answered(s: State, message: Incoming): Out {
    match message
    case PermissionCall(id, session, title) =>
      var request := Request(s.epoch, id);
      if session != s.session || request in s.requests then Out(s, [])
      else Out(s.(requests := Insert(s.requests, request, RequestName)),
               [RequestOpened(request, title.GetOr("Agent tool permission"))])
    case CursorTask(_, _, _) => TaskReported(s, message)
    case SessionUpdate(session, update) =>
      if session == s.session then Updated(s, update) else Out(s, [])
    case Response(_, _, _, _, _) =>
      if Closes(s, message) then Closed(s, message) else Out(s, [RawMessage(message)])
    case OtherIncoming => Out(s, [RawMessage(message)])
  }

  function StepReceived(s: State, message: Incoming, replay: bool): Out {
    var noticed := Noticed(s, message);
    if replay || OnlyConfigures(s, message) then noticed
    else
      var answered := Answered(noticed.state, message);
      Out(answered.state, noticed.events + answered.events)
  }

  const RESTARTED: string := "Agent connection restarted; previous work was not replayed."

  function Step(s: State, record: Record): Out {
    match record
    case ConfigurationRejected => Out(s, [])
    case Metered(input, output) => Out(s.(metered := Some(Pair(input, output))), [])
    case Started(epoch) =>
      var finished := Finish(s, TurnInterrupted, Some(RESTARTED), None);
      Out(finished.state.(epoch := epoch, session := None, configuration := [], configRequests := {}),
          finished.events)
    case Ready(session) => Out(s.(session := Some(session)), [])
    case Failed(detail) =>
      var t := if s.active.None? then s.(active := Some(Active("null", Startup(s.epoch)))) else s;
      Finish(t, TurnFailed, Some(detail), None)
    case Sent(call) => StepSent(s, call)
    case Received(message, replay) => StepReceived(s, message, replay)
  }

  /** A whole journal, read in order. */
  function Run(s: State, journal: seq<Record>): Out
    decreases |journal|
  {
    if journal == [] then Out(s, [])
    else
      var first := Step(s, journal[0]);
      var rest := Run(first.state, journal[1..]);
      Out(rest.state, first.events + rest.events)
  }

  // ---- which events a helper can emit --------------------------------------

  lemma {:induction false} CloseTasksShape(tasks: seq<string>, outcomes: map<string, Option<ItemStatus>>)
    ensures forall i :: 0 <= i < |CloseTasks(tasks, outcomes)| ==> CloseTasks(tasks, outcomes)[i].TaskCompleted?
  {
    if tasks != [] { CloseTasksShape(tasks[1..], outcomes); }
  }

  lemma {:induction false} CloseRequestsShape(requests: seq<Request>)
    ensures forall i :: 0 <= i < |CloseRequests(requests)| ==> CloseRequests(requests)[i].RequestResolved?
  {
    if requests != [] { CloseRequestsShape(requests[1..]); }
  }

  lemma {:induction false} CloseItemsShape(items: seq<Item>, status: ItemStatus)
    ensures forall i :: 0 <= i < |CloseItems(items, status)| ==> CloseItems(items, status)[i].ItemCompleted?
  {
    if items != [] { CloseItemsShape(items[1..], status); }
  }

  lemma {:induction false} DeltasShape(item: Item, stream: Stream, blocks: seq<Option<string>>)
    ensures forall i :: 0 <= i < |Deltas(item, stream, blocks)| ==> Deltas(item, stream, blocks)[i].ContentDelta?
  {
    if blocks != [] { DeltasShape(item, stream, blocks[1..]); }
  }

  /** Closing only ends things, and never the turn. */
  lemma ClosingShape(s: State, status: ItemStatus)
    ensures forall i :: 0 <= i < |Closing(s, status)| ==>
      Closing(s, status)[i].TaskCompleted? || Closing(s, status)[i].RequestResolved?
          || Closing(s, status)[i].ItemCompleted?
  {
    CloseTasksShape(s.tasks, s.outcomes);
    CloseRequestsShape(s.requests);
    CloseItemsShape(s.items, status);
  }

  /** A call is updated, prints and ends; nothing else happens to it. */
  lemma ToolClosingShape(item: Item, update: Update, reached: Option<string>)
    requires update.ToolUpdate?
    ensures
      var events := ToolClosing(item, update, reached);
      && events[0] == ItemUpdated(item, update, reached)
      && forall i :: 0 < i < |events| ==> events[i].ContentDelta? || events[i].ItemCompleted?
  {
    if update.contents.Some? {
      DeltasShape(item, ToolOutput, update.contents.value);
    }
  }

  /** A session update starts and ends no turn. */
  lemma UpdatedShape(s: State, update: Update)
    ensures forall i :: 0 <= i < |Updated(s, update).events| ==>
      !Updated(s, update).events[i].TurnCompleted? && !Updated(s, update).events[i].TurnStarted?
  {
    if s.active.Some? && update.ToolUpdate? && update.call.Some? {
      var item := ToolItem(s.active.value.turn, update.call.value);
      ToolClosingShape(item, update, Reached(Learned(s, item, update), item));
    }
  }

  /** Nothing but the reply to the active prompt ends a turn while it is answered. */
  lemma AnsweredShape(s: State, message: Incoming)
    requires !Closes(s, message)
    ensures forall i :: 0 <= i < |Answered(s, message).events| ==> !Answered(s, message).events[i].TurnCompleted?
  {
    if message.SessionUpdate? {
      UpdatedShape(s, message.update);
    }
  }

  lemma SentShape(s: State, call: Outgoing)
    ensures forall i :: 0 <= i < |StepSent(s, call).events| ==>
      !StepSent(s, call).events[i].TurnCompleted? && !StepSent(s, call).events[i].TaskStarted?
  {
    if call.PromptCall? {
      DeltasShape(UserItem(Prompted(s.epoch, call.id)), UserText, call.blocks);
    }
  }
}
