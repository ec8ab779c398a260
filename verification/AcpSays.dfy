/**
 What the ACP reader answers to each record, in terms of the journal before it:
 the specification the incremental reader refines.
 */
module AcpSays {
  import opened Common
  import opened OrderedSets
  import opened Acp
  import opened AcpBrackets
  import opened AcpHistory

  // ---- printed text ---------------------------------------------------------------

  /** The texts of the blocks that have one. */
  function Texts(blocks: seq<Option<string>>): seq<string> {
    if blocks == [] then []
    else
      var last := blocks[|blocks| - 1];
      Texts(blocks[..|blocks| - 1]) + if last.Some? then [last.value] else []
  }

  function Printed(item: Item, stream: Stream, texts: seq<string>): seq<Event> {
    seq(|texts|, i requires 0 <= i < |texts| => ContentDelta(item, stream, texts[i]))
  }

  // ---- the end of a turn -------------------------------------------------------------

  /** The names of the identifiers, by which what is open is closed in order. */
  function Spelling(turn: Turn): string {
    match turn
    case Prompted(epoch, id) => epoch + [':'] + id
    case Startup(epoch) => epoch + ":startup"
  }

  function CardSpelling(item: Item): string {
    match item
    case UserItem(turn) => Spelling(turn) + ":user"
    case ChunkItem(turn, true) => Spelling(turn) + ":agent_thought_chunk"
    case ChunkItem(turn, false) => Spelling(turn) + ":agent_message_chunk"
    case ToolItem(turn, call) => Spelling(turn) + ":tool:" + call
  }

  function RequestSpelling(request: Request): string {
    request.epoch + [':'] + request.id
  }

  /** Everything the journal leaves open, each kind once and in the order of its names. */
  datatype Left = Left(calls: seq<string>, requests: seq<Request>, items: seq<Item>)

  ghost predicate Lists(journal: seq<Record>, left: Left) {
    && (forall call :: call in left.calls <==> OutcomeOf(journal, call).Some?)
    && (forall request :: request in left.requests <==> WaitsOn(journal, request))
    && (forall item :: item in left.items <==> OpenOn(journal, item))
    && Distinct(left.calls) && Distinct(left.requests) && Distinct(left.items)
    && Ordered(left.calls, (call: string) => call) && Ordered(left.requests, RequestSpelling)
    && Ordered(left.items, CardSpelling)
  }

  /** Calls end as they said they had, or else fail; items fail with the turn. */
  function EndSays(journal: seq<Record>, left: Left, turn: Option<Turn>, verdict: Verdict, usage: Option<Usage>)
    : seq<Event>
  {
    seq(|left.calls|, i requires 0 <= i < |left.calls| =>
      TaskCompleted(left.calls[i], OutcomeOf(journal, left.calls[i]).GetOr(None).GetOr(ItemFailed), None))
    + seq(|left.requests|, i requires 0 <= i < |left.requests| => RequestResolved(left.requests[i]))
    + seq(|left.items|, i requires 0 <= i < |left.items| =>
        ItemCompleted(left.items[i], if verdict.status.TurnFailed? then ItemFailed else ItemDone))
    + if turn.Some? then [TurnCompleted(turn.value, verdict.status, usage, verdict.detail)] else []
  }

  // ---- the reply to a prompt ----------------------------------------------------------

  function LessOf(now: nat, before: nat): nat {
    if now <= before then 0 else now - before
  }

  function LessOfBoth(now: Option<nat>, before: Option<nat>): Option<nat> {
    if now.Some? then Some(LessOf(now.value, before.GetOr(0))) else None
  }

  /** What a reply costs: the climb of its own totals, or of the meter, or nothing known. */
  function CostOf(journal: seq<Record>, usage: RawUsage): Usage {
    var used := if GaugeOf(journal).Some? then Some(GaugeOf(journal).value.used) else None;
    var size := if GaugeOf(journal).Some? then Some(GaugeOf(journal).value.size) else None;
    if Itemised(usage) then
      var billed := TotalsOf(journal);
      Usage(LessOf(usage.input.value, billed.input), LessOf(usage.output.value, billed.output),
            LessOfBoth(usage.cacheRead, billed.cacheRead), LessOfBoth(usage.cacheWrite, billed.cacheWrite),
            LessOfBoth(usage.thinking, billed.thinking), used, size)
    else if MeterOf(journal).Some? then
      var reading, charged := MeterOf(journal).value, ChargedOf(journal);
      Usage(LessOf(reading.input, charged.input), LessOf(reading.output, charged.output), None, None, None, used, size)
    else Usage(0, 0, None, None, None, used, size)
  }

  const NOTHING_RAN: string :=
    "The agent ended this turn without calling a model. "
    + "Its sign-in or its quota is the usual reason \U{2014} reconnect the account and try again."

  /** The meter was read for this reply and its input had not climbed. */
  predicate NothingRan(journal: seq<Record>, usage: RawUsage) {
    !Itemised(usage) && MeterOf(journal).Some? && MeterOf(journal).value.input <= ChargedOf(journal).input
  }

  function VerdictOf(journal: seq<Record>, error: Option<string>, stop: Option<StopReason>, usage: RawUsage): Verdict {
    if error.Some? then Verdict(TurnFailed, error)
    else if stop.None? then Verdict(TurnFailed, Some("ACP prompt response has no stopReason"))
    else if stop.value.Cancelled? then Verdict(TurnInterrupted, None)
    else if NothingRan(journal, usage) then Verdict(TurnFailed, Some(NOTHING_RAN))
    else if stop.value.EndTurn? then Verdict(TurnDone, None)
    else Verdict(TurnDone, Some("Agent stopped: " + stop.value.reason))
  }

  // ---- session updates ----------------------------------------------------------------

  function ChunkSays(journal: seq<Record>, card: Item, thought: bool, text: Option<string>): seq<Event> {
    (if OpenOn(journal, card) then [] else [ItemStarted(card, if thought then Reasoning else AssistantMessage, None)])
    + if text.Some? then [ContentDelta(card, if thought then ReasoningText else AssistantText, text.value)]
      else [RawUpdate(Chunk(thought, text))]
  }

  /** What a call is drawn as: a delegation before a skill, and a skill before its kind. */
  function DrawnAs(update: Update, skill: Option<string>): ItemKind
    requires update.ToolUpdate?
  {
    if TitledTask(update) then SubagentCall
    else if skill.Some? || update.title == Some("Skill")
      || (update.title.Some? && "Invoke skill" <= update.title.value) then SkillUse
    else if update.kind.ReadCall? then FileRead
    else if update.kind.EditCall? || update.kind.DeleteCall? || update.kind.MoveCall? then FileChange
    else if update.kind.ExecuteCall? then CommandExecution
    else if update.kind.SearchCall? || update.kind.FetchCall? then WebSearch
    else UnknownKind
  }

  function ToolSays(journal: seq<Record>, card: Item, update: Update): seq<Event>
    requires update.ToolUpdate? && update.call.Some?
  {
    var skill := update.skill.Or(SkillOf(journal, card));
    (if OpenOn(journal, card) then []
     else
       [ItemStarted(card, DrawnAs(update, skill), skill.Or(update.title))]
       + if TitledTask(update) then [TaskStarted(update.call.value, card, update.title.value)] else [])
    + [ItemUpdated(card, update, skill)]
    + if Ending(update).None? then []
      else Printed(card, ToolOutput, Texts(update.contents.GetOr([]))) + [ItemCompleted(card, Ending(update).value)]
  }

  function UpdateSays(journal: seq<Record>, update: Update): seq<Event> {
    if update.UsageUpdate? || ActiveOf(journal).None? then []
    else
      var turn := ActiveOf(journal).value.turn;
      match update
      case Chunk(thought, text) => ChunkSays(journal, ChunkItem(turn, thought), thought, text)
      case ToolUpdate(Some(call), _, _, _, _, _) => ToolSays(journal, ToolItem(turn, call), update)
      case ToolUpdate(None, _, _, _, _, _) => []
      case _ => [RawUpdate(update)]
  }

  // ---- messages -----------------------------------------------------------------------

  /** The current value of the first setting of a kind. */
  function Picked(settings: seq<Setting>, kind: SettingKind): string {
    if exists i :: 0 <= i < |settings| && settings[i].kind == kind
    then settings[First(settings, kind)].current.GetOr("")
    else ""
  }

  function First(settings: seq<Setting>, kind: SettingKind): (i: nat)
    requires exists i :: 0 <= i < |settings| && settings[i].kind == kind
    ensures i < |settings| && settings[i].kind == kind
    ensures forall j :: 0 <= j < i ==> settings[j].kind != kind
  {
    if settings[0].kind == kind then 0
    else
      assert exists j :: 0 <= j < |settings| - 1 && settings[1..][j].kind == kind by {
        var i :| 0 <= i < |settings| && settings[i].kind == kind;
        assert settings[1..][i - 1] == settings[i];
      }
      1 + First(settings[1..], kind)
  }

  function SettingsSay(options: Option<seq<Setting>>): seq<Event> {
    if options.None? then []
    else [SessionConfigured(Picked(options.value, ModelSetting), Picked(options.value, ModeSetting))]
  }

  predicate IsConfiguration(journal: seq<Record>, message: Incoming) {
    message.SessionUpdate? && message.session == SessionOf(journal) && message.update.ConfigUpdate?
  }

  /** What a message says of the configuration, replayed or not. */
  function ConfigurationSays(journal: seq<Record>, message: Incoming): seq<Event> {
    if message.Response? && ConfigAsked(journal, message.id) && message.error.None? then SettingsSay(message.options)
    else if IsConfiguration(journal, message) then SettingsSay(message.update.options)
    else []
  }

  function ReportSays(journal: seq<Record>, message: Incoming): seq<Event>
    requires message.CursorTask? && message.call.Some?
  {
    var call := message.call.value;
    match OutcomeOf(journal, call)
    case None => [RawMessage(message)]
    case Some(outcome) =>
      (if message.agent.Some? then [TaskProgress(call, "Cursor subagent " + message.agent.value)] else [])
      + [TaskCompleted(call, outcome.GetOr(ItemDone), message.description)]
  }

  function MessageSays(journal: seq<Record>, left: Left, message: Incoming): seq<Event> {
    match message
    case PermissionCall(id, session, title) =>
      var request := Request(EpochOf(journal), id);
      if session != SessionOf(journal) || WaitsOn(journal, request) then []
      else [RequestOpened(request, if title.Some? then title.value else "Agent tool permission")]
    case CursorTask(call, _, _) => if call.None? then [] else ReportSays(journal, message)
    case SessionUpdate(session, update) => if session == SessionOf(journal) then UpdateSays(journal, update) else []
    case Response(id, error, _, stop, usage) =>
      if ActiveOf(journal).Some? && ActiveOf(journal).value.id == id then
        EndSays(journal, left, Some(ActiveOf(journal).value.turn), VerdictOf(journal, error, stop, usage),
                Some(CostOf(journal, usage)))
      else [RawMessage(message)]
    case OtherIncoming => [RawMessage(message)]
  }

  // ---- records ------------------------------------------------------------------------

  function SentSays(journal: seq<Record>, call: Outgoing): seq<Event> {
    match call
    case PromptCall(id, blocks) =>
      var turn := Prompted(EpochOf(journal), id);
      [TurnStarted(turn), ItemStarted(UserItem(turn), UserMessage, None)]
      + Printed(UserItem(turn), UserText, Texts(blocks))
      + [ItemCompleted(UserItem(turn), ItemDone)]
    case Reply(id) =>
      if WaitsOn(journal, Request(EpochOf(journal), id)) then [RequestResolved(Request(EpochOf(journal), id))] else []
    case _ => []
  }

  /** What a record says after a journal, with `left` what that journal leaves open. */
  function Says(journal: seq<Record>, left: Left, record: Record): seq<Event> {
    match record
    case Started(_) =>
      var turn := if ActiveOf(journal).Some? then Some(ActiveOf(journal).value.turn) else None;
      EndSays(journal, left, turn,
              Verdict(TurnInterrupted, Some("Agent connection restarted; previous work was not replayed.")), None)
    case Failed(detail) =>
      var turn := if ActiveOf(journal).Some? then ActiveOf(journal).value.turn else Startup(EpochOf(journal));
      EndSays(journal, left, Some(turn), Verdict(TurnFailed, Some(detail)), None)
    case Sent(call) => SentSays(journal, call)
    case Received(message, replay) =>
      ConfigurationSays(journal, message)
      + if replay || IsConfiguration(journal, message) then [] else MessageSays(journal, left, message)
    case _ => []
  }

  // ---- the reader says it ---------------------------------------------------------------

  lemma {:induction false} DeltasArePrinted(item: Item, stream: Stream, a: seq<Option<string>>)
    ensures Deltas(item, stream, a) == Printed(item, stream, Texts(a))
    decreases |a|
  {
    if a != [] {
      var front, last := a[..|a| - 1], a[|a| - 1];
      DeltasArePrinted(item, stream, front);
      assert a == front + [last];
      DeltasInTwo(item, stream, front, last);
    }
  }

  lemma {:induction false} DeltasInTwo(item: Item, stream: Stream, blocks: seq<Option<string>>, last: Option<string>)
    ensures Deltas(item, stream, blocks + [last]) ==
            Deltas(item, stream, blocks) + if last.Some? then [ContentDelta(item, stream, last.value)] else []
    decreases |blocks|
  {
    var all := blocks + [last];
    if blocks == [] {
      assert all == [last] && all[1..] == [];
    } else {
      assert all[0] == blocks[0] && all[1..] == blocks[1..] + [last];
      DeltasInTwo(item, stream, blocks[1..], last);
    }
  }

  lemma {:induction false} SameSpelling(item: Item)
    ensures ItemName(item) == CardSpelling(item)
  {
  }

  /** What the reader holds open is what the journal leaves open. */
  lemma HeldIsLeft(journal: seq<Record>) returns (left: Left)
    ensures var s := Run(INITIAL, journal).state;
            left == Left(s.tasks, s.requests, s.items) && Lists(journal, left)
  {
    var s := Run(INITIAL, journal).state;
    EveryJournalReads(journal);
    JournalBrackets(INITIAL, journal);
    left := Left(s.tasks, s.requests, s.items);
    forall call ensures call in s.tasks <==> OutcomeOf(journal, call).Some? {
      assert call in Elements(s.tasks) <==> call in s.outcomes;
      assert OutcomeIn(s.outcomes, call) == OutcomeOf(journal, call);
    }
    forall i, j | 0 <= i < j < |s.items|
      ensures !OrderedSets.Before(CardSpelling(s.items[j]), CardSpelling(s.items[i]))
    {
      SameSpelling(s.items[i]);
      SameSpelling(s.items[j]);
      assert !OrderedSets.Before(ItemName(s.items[j]), ItemName(s.items[i]));
    }
  }

  // ---- ends ---------------------------------------------------------------------------

  lemma {:induction false} TasksEnd(tasks: seq<string>, outcomes: map<string, Option<ItemStatus>>)
    ensures CloseTasks(tasks, outcomes) ==
            seq(|tasks|, i requires 0 <= i < |tasks| =>
              TaskCompleted(tasks[i], OutcomeIn(outcomes, tasks[i]).GetOr(None).GetOr(ItemFailed), None))
    decreases |tasks|
  {
    if tasks != [] {
      TasksEnd(tasks[1..], outcomes);
    }
  }

  lemma {:induction false} RequestsEnd(requests: seq<Request>)
    ensures CloseRequests(requests) ==
            seq(|requests|, i requires 0 <= i < |requests| => RequestResolved(requests[i]))
    decreases |requests|
  {
    if requests != [] {
      RequestsEnd(requests[1..]);
    }
  }

  lemma {:induction false} ItemsEnd(items: seq<Item>, status: ItemStatus)
    ensures CloseItems(items, status) ==
            seq(|items|, i requires 0 <= i < |items| => ItemCompleted(items[i], status))
    decreases |items|
  {
    if items != [] {
      ItemsEnd(items[1..], status);
    }
  }

  lemma FinishSays(journal: seq<Record>, left: Left, s: State, verdict: Verdict, usage: Option<Usage>)
    requires left == Left(s.tasks, s.requests, s.items)
    requires forall task :: OutcomeIn(s.outcomes, task) == OutcomeOf(journal, task)
    ensures Finish(s, verdict.status, verdict.detail, usage).events ==
            EndSays(journal, left, if s.active.Some? then Some(s.active.value.turn) else None, verdict, usage)
  {
    TasksEnd(s.tasks, s.outcomes);
    RequestsEnd(s.requests);
    ItemsEnd(s.items, EndOfItem(verdict.status));
    var calls := seq(|left.calls|, i requires 0 <= i < |left.calls| =>
      TaskCompleted(left.calls[i], OutcomeOf(journal, left.calls[i]).GetOr(None).GetOr(ItemFailed), None));
    assert CloseTasks(s.tasks, s.outcomes) == calls;
  }

  // ---- updates ------------------------------------------------------------------------

  lemma ChunkIsSaid(journal: seq<Record>, s: State, update: Update)
    requires ReadsItems(s, journal) && update.Chunk? && s.active.Some?
    ensures var turn := s.active.value.turn;
            Chunked(s, turn, update).events ==
            ChunkSays(journal, ChunkItem(turn, update.thought), update.thought, update.text)
  {
  }

  lemma ToolIsSaid(journal: seq<Record>, s: State, turn: Turn, call: string, update: Update)
    requires ReadsItems(s, journal) && update.ToolUpdate? && update.call == Some(call)
    ensures Tooled(s, turn, call, update).events == ToolSays(journal, ToolItem(turn, call), update)
  {
    var card := ToolItem(turn, call);
    var skill := Reached(Learned(s, card, update), card);
    SkillIsReached(journal, s, card, update);
    OpeningIsSaid(card, call, update, skill);
    ClosingIsSaid(card, update, skill);
    var opening := if card in s.items then [] else ToolOpening(card, call, update, skill);
    assert Tooled(s, turn, call, update).events == opening + ToolClosing(card, update, skill);
    ToolSaysInTwo(journal, card, update, skill);
  }

  lemma SkillIsReached(journal: seq<Record>, s: State, card: Item, update: Update)
    requires ReadsItems(s, journal) && update.ToolUpdate?
    ensures Reached(Learned(s, card, update), card) == update.skill.Or(SkillOf(journal, card))
  {
    assert Reached(s.reaching, card) == SkillOf(journal, card);
  }

  lemma ToolSaysInTwo(journal: seq<Record>, card: Item, update: Update, skill: Option<string>)
    requires update.ToolUpdate? && update.call.Some? && skill == update.skill.Or(SkillOf(journal, card))
    ensures ToolSays(journal, card, update) ==
            (if OpenOn(journal, card) then [] else ToolOpening(card, update.call.value, update, skill))
            + ToolClosing(card, update, skill)
  {
    OpeningIsSaid(card, update.call.value, update, skill);
    ClosingIsSaid(card, update, skill);
    var opening := if OpenOn(journal, card) then [] else ToolOpening(card, update.call.value, update, skill);
    var ending := if Ending(update).None? then []
      else Printed(card, ToolOutput, Texts(update.contents.GetOr([]))) + [ItemCompleted(card, Ending(update).value)];
    assert opening + [ItemUpdated(card, update, skill)] + ending
        == opening + ([ItemUpdated(card, update, skill)] + ending);
  }

  lemma OpeningIsSaid(card: Item, call: string, update: Update, skill: Option<string>)
    requires update.ToolUpdate? && update.call == Some(call) && (update.skill.Some? ==> skill.Some?)
    ensures ToolOpening(card, call, update, skill) ==
            [ItemStarted(card, DrawnAs(update, skill), skill.Or(update.title))]
            + if TitledTask(update) then [TaskStarted(update.call.value, card, update.title.value)] else []
  {
  }

  lemma ClosingIsSaid(card: Item, update: Update, skill: Option<string>)
    requires update.ToolUpdate?
    ensures ToolClosing(card, update, skill) ==
            [ItemUpdated(card, update, skill)]
            + if Ending(update).None? then []
              else Printed(card, ToolOutput, Texts(update.contents.GetOr([])))
                   + [ItemCompleted(card, Ending(update).value)]
  {
    DeltasArePrinted(card, ToolOutput, update.contents.GetOr([]));
    assert Printed(card, ToolOutput, Texts([])) == [];
  }

  lemma UpdateIsSaid(journal: seq<Record>, s: State, update: Update)
    requires ReadsTurn(s, journal) && ReadsItems(s, journal)
    ensures Updated(s, update).events == UpdateSays(journal, update)
  {
    if !update.UsageUpdate? && s.active.Some? {
      var turn := s.active.value.turn;
      if update.Chunk? {
        ChunkIsSaid(journal, s, update);
      } else if update.ToolUpdate? && update.call.Some? {
        ToolIsSaid(journal, s, turn, update.call.value, update);
      }
    }
  }

  // ---- messages and records --------------------------------------------------------------

  lemma {:induction false} FirstIsCurrent(settings: seq<Setting>, kind: SettingKind)
    ensures CurrentOf(settings, kind) == Picked(settings, kind)
    decreases |settings|
  {
    if settings != [] && settings[0].kind != kind {
      var rest := settings[1..];
      FirstIsCurrent(rest, kind);
      assert forall i :: 0 <= i < |rest| ==> rest[i] == settings[i + 1];
      if exists i :: 0 <= i < |settings| && settings[i].kind == kind {
        var i :| 0 <= i < |settings| && settings[i].kind == kind;
        assert rest[i - 1].kind == kind;
        assert First(settings, kind) == 1 + First(rest, kind);
      }
    }
  }

  lemma ConfigurationIsSaid(journal: seq<Record>, s: State, message: Incoming)
    requires ReadsTurn(s, journal)
    requires message.Response? ==> (message.id in s.configRequests <==> ConfigAsked(journal, message.id))
    ensures Noticed(s, message).events == ConfigurationSays(journal, message)
  {
    if message.Response? && message.options.Some? {
      FirstIsCurrent(message.options.value, ModelSetting);
      FirstIsCurrent(message.options.value, ModeSetting);
    } else if IsConfiguration(journal, message) && message.update.options.Some? {
      FirstIsCurrent(message.update.options.value, ModelSetting);
      FirstIsCurrent(message.update.options.value, ModeSetting);
    }
  }

  lemma CostIsSaid(journal: seq<Record>, s: State, usage: RawUsage)
    requires ReadsBills(s, journal)
    ensures Spent(s, usage).usage == CostOf(journal, usage)
  {
  }

  lemma VerdictIsSaid(journal: seq<Record>, s: State, message: Incoming)
    requires ReadsBills(s, journal) && message.Response?
    ensures Judged(Said(message.error, message.stop), Spent(s.(ran := NobodyAsked), message.usage).state.ran)
         == VerdictOf(journal, message.error, message.stop, message.usage)
  {
  }

  lemma ReplyIsSaid(journal: seq<Record>, left: Left, s: State, message: Incoming)
    requires ReadsTurn(s, journal) && ReadsTasks(s, journal) && ReadsBills(s, journal)
    requires left == Left(s.tasks, s.requests, s.items) && Closes(s, message)
    ensures Closed(s, message).events ==
            EndSays(journal, left, Some(ActiveOf(journal).value.turn),
                    VerdictOf(journal, message.error, message.stop, message.usage),
                    Some(CostOf(journal, message.usage)))
  {
    var asked := s.(ran := NobodyAsked);
    var bill := Spent(asked, message.usage);
    SpentChanges(asked, message.usage);
    CostIsSaid(journal, asked, message.usage);
    VerdictIsSaid(journal, s, message);
    FinishSays(journal, left, bill.state, VerdictOf(journal, message.error, message.stop, message.usage),
               Some(bill.usage));
  }

  lemma ReportIsSaid(journal: seq<Record>, s: State, message: Incoming)
    requires ReadsTasks(s, journal) && message.CursorTask? && message.call.Some?
    ensures TaskReported(s, message).events == ReportSays(journal, message)
  {
    assert OutcomeIn(s.outcomes, message.call.value) == OutcomeOf(journal, message.call.value);
  }

  lemma MessageIsSaid(journal: seq<Record>, left: Left, s: State, message: Incoming)
    requires ReadsTurn(s, journal) && ReadsItems(s, journal) && ReadsTasks(s, journal) && ReadsBills(s, journal)
    requires left == Left(s.tasks, s.requests, s.items)
    ensures Answered(s, message).events == MessageSays(journal, left, message)
  {
    match message
    case PermissionCall(id, _, _) =>
      assert Request(s.epoch, id) in s.requests <==> WaitsOn(journal, Request(EpochOf(journal), id));
    case CursorTask(call, _, _) => if call.Some? { ReportIsSaid(journal, s, message); }
    case SessionUpdate(_, update) => UpdateIsSaid(journal, s, update);
    case Response(_, _, _, _, _) => if Closes(s, message) { ReplyIsSaid(journal, left, s, message); }
    case OtherIncoming =>
  }

  lemma ReceivedIsSaid(journal: seq<Record>, left: Left, s: State, message: Incoming, replay: bool)
    requires Reads(s, journal) && left == Left(s.tasks, s.requests, s.items)
    ensures StepReceived(s, message, replay).events == Says(journal, left, Received(message, replay))
  {
    var noticed := Noticed(s, message);
    NoticedChanges(s, message);
    ConfigurationIsSaid(journal, s, message);
    MessageIsSaid(journal, left, noticed.state, message);
    assert noticed.events + [] == noticed.events;
  }

  lemma SentIsSaid(journal: seq<Record>, s: State, call: Outgoing)
    requires ReadsTurn(s, journal) && ReadsTasks(s, journal)
    ensures StepSent(s, call).events == SentSays(journal, call)
  {
    match call
    case PromptCall(id, blocks) => DeltasArePrinted(UserItem(Prompted(s.epoch, id)), UserText, blocks);
    case Reply(id) => assert Request(s.epoch, id) in s.requests <==> WaitsOn(journal, Request(EpochOf(journal), id));
    case _ =>
  }

  lemma RecordIsSaid(journal: seq<Record>, left: Left, s: State, record: Record)
    requires Reads(s, journal) && left == Left(s.tasks, s.requests, s.items)
    ensures Step(s, record).events == Says(journal, left, record)
  {
    match record
    case Started(_) =>
      FinishSays(journal, left, s, Verdict(TurnInterrupted, Some(RESTARTED)), None);
    case Failed(detail) =>
      var t := if s.active.None? then s.(active := Some(Active("null", Startup(s.epoch)))) else s;
      FinishSays(journal, left, t, Verdict(TurnFailed, Some(detail)), None);
    case Sent(call) => SentIsSaid(journal, s, call);
    case Received(message, replay) => ReceivedIsSaid(journal, left, s, message, replay);
    case _ =>
  }

  /**
   After any journal, a record says exactly what the records before it make of it:
   `left` is what they leave open, each once and in the order of its names.
   */
  lemma EveryRecordSays(journal: seq<Record>, record: Record) returns (left: Left)
    ensures Lists(journal, left)
    ensures Step(Run(INITIAL, journal).state, record).events == Says(journal, left, record)
  {
    left := HeldIsLeft(journal);
    EveryJournalReads(journal);
    RecordIsSaid(journal, left, Run(INITIAL, journal).state, record);
  }
}
