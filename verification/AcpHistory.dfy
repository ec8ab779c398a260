/**
 What the ACP reader holds, read back from the journal alone. Each reading looks
 for the last record that settles it; none mentions the reader or its fields.
 */
module AcpHistory {
  import opened Common
  import opened OrderedSets
  import opened Acp
  import opened AcpBrackets

  // ---- the turn under way --------------------------------------------------------

  function Front(journal: seq<Record>): seq<Record>
    requires journal != []
  {
    journal[..|journal| - 1]
  }

  function Last(journal: seq<Record>): Record
    requires journal != []
  {
    journal[|journal| - 1]
  }

  function EpochOf(journal: seq<Record>): string
    decreases |journal|
  {
    if journal == [] then ""
    else
      match Last(journal)
      case Started(epoch) => epoch
      case _ => EpochOf(Front(journal))
  }

  function SessionOf(journal: seq<Record>): Option<string>
    decreases |journal|
  {
    if journal == [] then None
    else
      match Last(journal)
      case Started(_) => None
      case Ready(session) => Some(session)
      case _ => SessionOf(Front(journal))
  }

  /** A live reply to the prompt. */
  predicate Answers(active: Option<Active>, record: Record) {
    && record.Received? && !record.replay && record.message.Response?
    && active.Some? && active.value.id == record.message.id
  }

  predicate IsOver(active: Option<Active>, record: Record) {
    record.Started? || record.Failed? || Answers(active, record)
  }

  /** The turn under way, and the id of its prompt. */
  function ActiveOf(journal: seq<Record>): Option<Active>
    decreases |journal|
  {
    if journal == [] then None
    else
      var before, latest := Front(journal), Last(journal);
      if IsOver(ActiveOf(before), latest) then None
      else if latest.Sent? && latest.call.PromptCall?
      then Some(Active(latest.call.id, Prompted(EpochOf(before), latest.call.id)))
      else ActiveOf(before)
  }

  predicate AnswersPrompt(journal: seq<Record>, record: Record) {
    Answers(ActiveOf(journal), record)
  }

  predicate EndsTurn(journal: seq<Record>, record: Record) {
    IsOver(ActiveOf(journal), record)
  }

  // ---- what is open ----------------------------------------------------------------

  /** The live update of the session a record is. */
  function Heard(journal: seq<Record>, record: Record): Option<Update> {
    match record
    case Received(SessionUpdate(session, update), false) => if session == SessionOf(journal) then Some(update) else None
    case _ => None
  }

  /** The card a record is about: that of a chunk or a call of the turn under way. */
  function Card(journal: seq<Record>, record: Record): Option<Item> {
    if ActiveOf(journal).None? then None
    else
      match Heard(journal, record)
      case Some(Chunk(thought, _)) => Some(ChunkItem(ActiveOf(journal).value.turn, thought))
      case Some(ToolUpdate(Some(call), _, _, _, _, _)) => Some(ToolItem(ActiveOf(journal).value.turn, call))
      case _ => None
  }

  /** How the call a card is about ended, if the record says that it did. */
  function Ending(update: Update): Option<ItemStatus> {
    match update
    case ToolUpdate(_, _, _, _, CallCompleted, _) => Some(ItemDone)
    case ToolUpdate(_, _, _, _, CallFailed, _) => Some(ItemFailed)
    case _ => None
  }

  /** A card is open when the last record about it in this turn did not end it. */
  predicate OpenOn(journal: seq<Record>, item: Item)
    decreases |journal|
  {
    && journal != []
    && var before, latest := Front(journal), Last(journal);
       && !EndsTurn(before, latest)
       && if Card(before, latest) == Some(item) then Ending(latest.message.update).None? else OpenOn(before, item)
  }

  /** The title of a call that delegates. */
  predicate TitledTask(update: Update) {
    update.ToolUpdate? && update.title.Some? && |update.title.value| >= 5 && update.title.value[..5] == "Task:"
  }

  predicate ReportsOn(record: Record, task: string) {
    record.Received? && !record.replay && record.message.CursorTask? && record.message.call == Some(task)
  }

  /** A delegated call that is not reported on yet, and how it ended if it has. */
  function OutcomeOf(journal: seq<Record>, task: string): Option<Option<ItemStatus>>
    decreases |journal|
  {
    if journal == [] then None
    else
      var before, latest := Front(journal), Last(journal);
      if EndsTurn(before, latest) || ReportsOn(latest, task) then None
      else if ActiveOf(before).Some? && Card(before, latest) == Some(ToolItem(ActiveOf(before).value.turn, task)) then
        var update := latest.message.update;
        var known :=
          if TitledTask(update) && !OpenOn(before, Card(before, latest).value) then Some(None)
          else OutcomeOf(before, task);
        if known.Some? && Ending(update).Some? then Some(Ending(update)) else known
      else OutcomeOf(before, task)
  }

  /** The agent still waits on its request. */
  predicate WaitsOn(journal: seq<Record>, request: Request)
    decreases |journal|
  {
    && journal != []
    && var before, latest := Front(journal), Last(journal);
       && !EndsTurn(before, latest)
       && match latest
          case Sent(Reply(id)) => request != Request(EpochOf(before), id) && WaitsOn(before, request)
          case Received(PermissionCall(id, session, _), false) =>
            (session == SessionOf(before) && request == Request(EpochOf(before), id)) || WaitsOn(before, request)
          case _ => WaitsOn(before, request)
  }

  /** The skill a call was last said to reach for. */
  function SkillOf(journal: seq<Record>, item: Item): Option<string>
    decreases |journal|
  {
    if journal == [] then None
    else
      var before, latest := Front(journal), Last(journal);
      if Card(before, latest) == Some(item) && item.ToolItem? && latest.message.update.skill.Some?
      then latest.message.update.skill
      else SkillOf(before, item)
  }

  // ---- gauge, meter, totals, configuration -------------------------------------------

  function GaugeOf(journal: seq<Record>): Option<Gauge>
    decreases |journal|
  {
    if journal == [] then None
    else
      match Heard(Front(journal), Last(journal))
      case Some(UsageUpdate(Some(used), Some(size))) => Some(Gauge(used, size))
      case _ => GaugeOf(Front(journal))
  }

  /** Whether a reply carries its own usage. */
  predicate Itemised(usage: RawUsage) {
    usage.input.Some? && usage.output.Some?
  }

  /** The running totals last billed from a reply. */
  function TotalsOf(journal: seq<Record>): Totals
    decreases |journal|
  {
    if journal == [] then Totals(0, 0, None, None, None)
    else
      var before, latest := Front(journal), Last(journal);
      if AnswersPrompt(before, latest) && Itemised(latest.message.usage) then
        var usage := latest.message.usage;
        Totals(usage.input.value, usage.output.value, usage.cacheRead, usage.cacheWrite, usage.thinking)
      else TotalsOf(before)
  }

  /** What the meter read, until a reply without its own usage takes it. */
  function MeterOf(journal: seq<Record>): Option<Pair>
    decreases |journal|
  {
    if journal == [] then None
    else
      var before, latest := Front(journal), Last(journal);
      if latest.Metered? then Some(Pair(latest.input, latest.output))
      else if AnswersPrompt(before, latest) && !Itemised(latest.message.usage) then None
      else MeterOf(before)
  }

  /** The reading last taken. */
  function ChargedOf(journal: seq<Record>): Pair
    decreases |journal|
  {
    if journal == [] then Pair(0, 0)
    else
      var before, latest := Front(journal), Last(journal);
      if AnswersPrompt(before, latest) && !Itemised(latest.message.usage) && MeterOf(before).Some?
      then MeterOf(before).value
      else ChargedOf(before)
  }

  /** A request for the configuration that has had no answer. */
  predicate ConfigAsked(journal: seq<Record>, id: string)
    decreases |journal|
  {
    && journal != []
    && match Last(journal)
       case Started(_) => false
       case Sent(ConfigCall(asked)) => asked == id || ConfigAsked(Front(journal), id)
       case Received(Response(answered, _, _, _, _), _) => answered != id && ConfigAsked(Front(journal), id)
       case _ => ConfigAsked(Front(journal), id)
  }

  // ---- the reader holds these readings ------------------------------------------------

  function OutcomeIn(outcomes: map<string, Option<ItemStatus>>, task: string): Option<Option<ItemStatus>> {
    if task in outcomes then Some(outcomes[task]) else None
  }

  ghost predicate ReadsTurn(s: State, journal: seq<Record>) {
    s.epoch == EpochOf(journal) && s.session == SessionOf(journal) && s.active == ActiveOf(journal)
  }

  ghost predicate ReadsItems(s: State, journal: seq<Record>) {
    && (forall item :: item in s.items <==> OpenOn(journal, item))
    && (forall item :: Reached(s.reaching, item) == SkillOf(journal, item))
  }

  ghost predicate ReadsTasks(s: State, journal: seq<Record>) {
    && (forall task :: OutcomeIn(s.outcomes, task) == OutcomeOf(journal, task))
    && (forall request :: request in s.requests <==> WaitsOn(journal, request))
  }

  predicate ReadsBills(s: State, journal: seq<Record>) {
    && s.context == GaugeOf(journal) && s.billed == TotalsOf(journal)
    && s.metered == MeterOf(journal) && s.charged == ChargedOf(journal)
  }

  ghost predicate ReadsNumbers(s: State, journal: seq<Record>) {
    ReadsBills(s, journal) && forall id :: id in s.configRequests <==> ConfigAsked(journal, id)
  }

  ghost predicate Reads(s: State, journal: seq<Record>) {
    ReadsTurn(s, journal) && ReadsItems(s, journal) && ReadsTasks(s, journal) && ReadsNumbers(s, journal)
  }

  // What one record changes, one helper of the reader at a time.

  predicate SameTurn(s: State, t: State) {
    s.epoch == t.epoch && s.session == t.session && s.active == t.active
  }

  predicate SameCards(s: State, t: State) {
    s.items == t.items && s.reaching == t.reaching
  }

  predicate SameTasks(s: State, t: State) {
    s.tasks == t.tasks && s.outcomes == t.outcomes
  }

  predicate SameBills(s: State, t: State) {
    s.billed == t.billed && s.metered == t.metered && s.charged == t.charged && s.configRequests == t.configRequests
  }

  /** Whether an update has a card to draw on. */
  predicate Draws(update: Update) {
    update.Chunk? || (update.ToolUpdate? && update.call.Some?)
  }

  lemma UpdatedChanges(s: State, update: Update)
    ensures var t := Updated(s, update).state;
            && SameTurn(s, t) && SameBills(s, t) && s.requests == t.requests
            && (s.active.None? || !Draws(update) ==> SameCards(s, t))
            && (s.active.None? || !update.ToolUpdate? || update.call.None? ==> SameTasks(s, t))
            && t.context == (if update.UsageUpdate? && update.used.Some? && update.size.Some?
                             then Some(Gauge(update.used.value, update.size.value)) else s.context)
  {
  }

  lemma SpentChanges(s: State, usage: RawUsage)
    ensures var t := Spent(s, usage).state;
            && SameTurn(s, t) && SameCards(s, t) && SameTasks(s, t) && s.requests == t.requests
            && t.context == s.context && t.configRequests == s.configRequests
            && t.billed == (if Itemised(usage)
                            then Totals(usage.input.value, usage.output.value, usage.cacheRead, usage.cacheWrite,
                                        usage.thinking)
                            else s.billed)
            && t.metered == (if Itemised(usage) then s.metered else None)
            && t.charged == (if Itemised(usage) then s.charged else s.metered.GetOr(s.charged))
  {
  }

  /** What the end of a turn leaves. */
  predicate Finished(s: State, t: State) {
    && t.active == None && t.items == [] && t.requests == [] && t.tasks == [] && t.outcomes == map[]
    && t.reaching == s.reaching && t.context == s.context
  }

  lemma ClosedChanges(s: State, message: Incoming)
    requires Closes(s, message)
    ensures var t := Closed(s, message).state;
            && Finished(s, t) && t.epoch == s.epoch && t.session == s.session
            && t.configRequests == s.configRequests
            && var billed := Spent(s, message.usage).state;
               t.billed == billed.billed && t.metered == billed.metered && t.charged == billed.charged
  {
  }

  lemma AnsweredChanges(s: State, message: Incoming)
    requires !Closes(s, message) && !message.SessionUpdate?
    ensures var t := Answered(s, message).state;
            && SameTurn(s, t) && SameCards(s, t) && SameBills(s, t) && s.context == t.context
            && (!message.CursorTask? ==> SameTasks(s, t))
            && (!message.PermissionCall? ==> s.requests == t.requests)
  {
  }

  /** What a message says of the configuration changes nothing else. */
  lemma NoticedChanges(s: State, message: Incoming)
    ensures var t := Noticed(s, message).state;
            && SameTurn(s, t) && SameCards(s, t) && SameTasks(s, t) && s.requests == t.requests
            && s.context == t.context && s.billed == t.billed && s.metered == t.metered && s.charged == t.charged
            && t.configRequests == (if message.Response? then s.configRequests - {message.id} else s.configRequests)
            && (Closes(s, message) <==> Closes(t, message))
  {
  }

  /** A message without a card, when it is live and not the reply to the prompt. */
  predicate Aside(s: State, message: Incoming, replay: bool) {
    replay || (!Closes(s, message) && !(message.SessionUpdate? && message.session == s.session
                                        && s.active.Some? && Draws(message.update)))
  }

  lemma AsideChanges(s: State, message: Incoming, replay: bool)
    requires Aside(s, message, replay)
    ensures var t := StepReceived(s, message, replay).state;
            && SameTurn(s, t) && SameCards(s, t)
            && s.billed == t.billed && s.metered == t.metered && s.charged == t.charged
            && (replay || !message.CursorTask? ==> SameTasks(s, t))
            && (replay || !message.PermissionCall? ==> s.requests == t.requests)
            && (replay || !message.SessionUpdate? ==> s.context == t.context)
            && t.configRequests == if message.Response? then s.configRequests - {message.id} else s.configRequests
  {
    NoticedChanges(s, message);
    var noticed := Noticed(s, message).state;
    if !(replay || OnlyConfigures(s, message)) {
      if message.SessionUpdate? {
        UpdatedChanges(noticed, message.update);
      } else {
        AnsweredChanges(noticed, message);
      }
    }
  }

  lemma ReplyChanges(s: State, message: Incoming)
    requires Closes(s, message)
    ensures var t := StepReceived(s, message, false).state;
            && Finished(s, t) && t.epoch == s.epoch && t.session == s.session
            && t.configRequests == s.configRequests - {message.id}
            && t.billed == (if Itemised(message.usage)
                            then Totals(message.usage.input.value, message.usage.output.value, message.usage.cacheRead,
                                        message.usage.cacheWrite, message.usage.thinking)
                            else s.billed)
            && t.metered == (if Itemised(message.usage) then s.metered else None)
            && t.charged == (if Itemised(message.usage) then s.charged else s.metered.GetOr(s.charged))
  {
    NoticedChanges(s, message);
    var noticed := Noticed(s, message).state;
    ClosedChanges(noticed, message);
    SpentChanges(noticed, message.usage);
  }

  lemma DrawnChanges(s: State, message: Incoming)
    requires message.SessionUpdate? && message.session == s.session && Draws(message.update)
    ensures StepReceived(s, message, false) == Updated(s, message.update)
  {
    var events := Updated(s, message.update).events;
    assert [] + events == events;
  }

  // ---- turns ---------------------------------------------------------------------------

  lemma TurnIsRead(s: State, journal: seq<Record>, record: Record)
    requires ReadsTurn(s, journal)
    ensures ReadsTurn(Step(s, record).state, journal + [record])
  {
    var more := journal + [record];
    assert Front(more) == journal && Last(more) == record;
    if record.Received? {
      assert EndsTurn(journal, record) <==> !record.replay && Closes(s, record.message);
      if Aside(s, record.message, record.replay) {
        AsideChanges(s, record.message, record.replay);
      } else if Closes(s, record.message) {
        ReplyChanges(s, record.message);
      } else {
        DrawnChanges(s, record.message);
        UpdatedChanges(s, record.message.update);
      }
    }
  }

  // ---- cards ---------------------------------------------------------------------------

  lemma CardIsDrawn(s: State, journal: seq<Record>, record: Record)
    requires ReadsTurn(s, journal) && Card(journal, record).Some?
    ensures record.Received? && !record.replay && record.message.SessionUpdate? && Draws(record.message.update)
    ensures s.active.Some? && Card(journal, record) == Some(CardOf(s.active.value.turn, record.message.update))
    ensures Step(s, record) == Updated(s, record.message.update) && !EndsTurn(journal, record)
  {
    DrawnChanges(s, record.message);
  }

  function CardOf(turn: Turn, update: Update): Item
    requires Draws(update)
  {
    if update.Chunk? then ChunkItem(turn, update.thought) else ToolItem(turn, update.call.value)
  }

  /** A record about no card leaves the cards as they were, but for the end of a turn. */
  lemma NoCardDrawn(s: State, journal: seq<Record>, record: Record)
    requires ReadsTurn(s, journal) && Card(journal, record).None?
    ensures Step(s, record).state.items == if EndsTurn(journal, record) then [] else s.items
    ensures Step(s, record).state.reaching == s.reaching
  {
    if record.Received? {
      if Aside(s, record.message, record.replay) {
        AsideChanges(s, record.message, record.replay);
      } else {
        ReplyChanges(s, record.message);
      }
    }
  }

  lemma CardsDrawn(s: State, update: Update)
    requires s.active.Some? && Draws(update)
    ensures var t, card := Updated(s, update).state, CardOf(s.active.value.turn, update);
            && (forall item :: item in t.items <==> if item == card then Ending(update).None? else item in s.items)
            && t.reaching == if update.ToolUpdate? && update.skill.Some? then s.reaching[card := update.skill.value]
                             else s.reaching
  {
    var t, card := Updated(s, update).state, CardOf(s.active.value.turn, update);
    var more := Insert(s.items, card, ItemName);
    InsertAdds(s.items, card, ItemName);
    WithoutRemoves(more, card);
    forall item ensures item in t.items <==> if item == card then Ending(update).None? else item in s.items {
      assert item in Elements(s.items) <==> item in s.items;
      assert item in Elements(more) <==> item in more;
      assert item in Elements(Without(more, card)) <==> item in Without(more, card);
    }
  }

  lemma ItemsAreRead(s: State, journal: seq<Record>, record: Record)
    requires ReadsTurn(s, journal) && ReadsItems(s, journal)
    ensures ReadsItems(Step(s, record).state, journal + [record])
  {
    var more := journal + [record];
    assert Front(more) == journal && Last(more) == record;
    if Card(journal, record).Some? {
      CardIsDrawn(s, journal, record);
      CardsDrawn(s, record.message.update);
    } else {
      NoCardDrawn(s, journal, record);
    }
  }

  // ---- delegated calls and requests ------------------------------------------------------

  lemma NoCallDrawn(s: State, journal: seq<Record>, record: Record)
    requires ReadsTurn(s, journal) && !(Card(journal, record).Some? && Card(journal, record).value.ToolItem?)
    ensures Step(s, record).state.outcomes ==
            if EndsTurn(journal, record) then map[]
            else if record.Received? && !record.replay && record.message.CursorTask? && record.message.call.Some?
            then s.outcomes - {record.message.call.value}
            else s.outcomes
  {
    if Card(journal, record).Some? {
      CardIsDrawn(s, journal, record);
      UpdatedChanges(s, record.message.update);
    } else if record.Received? {
      if Aside(s, record.message, record.replay) {
        AsideChanges(s, record.message, record.replay);
      } else {
        ReplyChanges(s, record.message);
      }
    }
  }

  lemma CallDrawn(s: State, journal: seq<Record>, update: Update, task: string)
    requires ReadsItems(s, journal) && s.active.Some? && update.ToolUpdate? && update.call.Some?
    requires OutcomeIn(s.outcomes, task) == OutcomeOf(journal, task)
    ensures var known :=
              if update.call.value == task && TitledTask(update)
                 && !OpenOn(journal, ToolItem(s.active.value.turn, task)) then Some(None)
              else OutcomeOf(journal, task);
            OutcomeIn(Updated(s, update).state.outcomes, task) ==
            if update.call.value == task && known.Some? && Ending(update).Some? then Some(Ending(update)) else known
  {
  }

  lemma TasksAreRead(s: State, journal: seq<Record>, record: Record, task: string)
    requires ReadsTurn(s, journal) && ReadsItems(s, journal)
    requires OutcomeIn(s.outcomes, task) == OutcomeOf(journal, task)
    ensures OutcomeIn(Step(s, record).state.outcomes, task) == OutcomeOf(journal + [record], task)
  {
    var more := journal + [record];
    assert Front(more) == journal && Last(more) == record;
    if Card(journal, record).Some? && Card(journal, record).value.ToolItem? {
      CardIsDrawn(s, journal, record);
      CallDrawn(s, journal, record.message.update, task);
    } else {
      NoCallDrawn(s, journal, record);
    }
  }

  lemma PermissionChanges(s: State, message: Incoming)
    requires message.PermissionCall?
    ensures StepReceived(s, message, false).state.requests ==
            if message.session == s.session then Insert(s.requests, Request(s.epoch, message.id), RequestName)
            else s.requests
  {
  }

  lemma RequestsAreRead(s: State, journal: seq<Record>, record: Record, request: Request)
    requires ReadsTurn(s, journal) && (request in s.requests <==> WaitsOn(journal, request))
    ensures request in Step(s, record).state.requests <==> WaitsOn(journal + [record], request)
  {
    var more := journal + [record];
    assert Front(more) == journal && Last(more) == record;
    if Card(journal, record).Some? {
      CardIsDrawn(s, journal, record);
      UpdatedChanges(s, record.message.update);
    } else if record.Received? {
      if Aside(s, record.message, record.replay) {
        AsideChanges(s, record.message, record.replay);
        if record.message.PermissionCall? && !record.replay {
          PermissionChanges(s, record.message);
          Membership(s.requests, Request(s.epoch, record.message.id), request);
        }
      } else {
        ReplyChanges(s, record.message);
      }
    } else if record.Sent? && record.call.Reply? {
      Membership(s.requests, Request(s.epoch, record.call.id), request);
    }
  }

  lemma Membership(requests: seq<Request>, one: Request, request: Request)
    ensures request in Insert(requests, one, RequestName) <==> request in requests || request == one
    ensures request in Without(requests, one) <==> request in requests && request != one
  {
    InsertAdds(requests, one, RequestName);
    WithoutRemoves(requests, one);
    assert request in Elements(requests) <==> request in requests;
    assert request in Elements(Insert(requests, one, RequestName)) <==> request in Insert(requests, one, RequestName);
    assert request in Elements(Without(requests, one)) <==> request in Without(requests, one);
  }

  // ---- numbers --------------------------------------------------------------------------

  lemma BillsAreRead(s: State, journal: seq<Record>, record: Record)
    requires ReadsTurn(s, journal) && ReadsBills(s, journal)
    ensures ReadsBills(Step(s, record).state, journal + [record])
  {
    var more := journal + [record];
    assert Front(more) == journal && Last(more) == record;
    if Card(journal, record).Some? {
      CardIsDrawn(s, journal, record);
      UpdatedChanges(s, record.message.update);
    } else if record.Received? {
      if Aside(s, record.message, record.replay) {
        AsideChanges(s, record.message, record.replay);
        GaugeIsRead(s, record.message, record.replay);
      } else {
        ReplyChanges(s, record.message);
      }
    }
  }

  lemma GaugeIsRead(s: State, message: Incoming, replay: bool)
    requires Aside(s, message, replay)
    ensures StepReceived(s, message, replay).state.context ==
            if !replay && message.SessionUpdate? && message.session == s.session && message.update.UsageUpdate?
               && message.update.used.Some? && message.update.size.Some?
            then Some(Gauge(message.update.used.value, message.update.size.value))
            else s.context
  {
    NoticedChanges(s, message);
    AsideChanges(s, message, replay);
    if message.SessionUpdate? {
      UpdatedChanges(Noticed(s, message).state, message.update);
    }
  }

  lemma AskedIsRead(s: State, journal: seq<Record>, record: Record, id: string)
    requires ReadsTurn(s, journal) && (id in s.configRequests <==> ConfigAsked(journal, id))
    ensures id in Step(s, record).state.configRequests <==> ConfigAsked(journal + [record], id)
  {
    var more := journal + [record];
    assert Front(more) == journal && Last(more) == record;
    if Card(journal, record).Some? {
      CardIsDrawn(s, journal, record);
      UpdatedChanges(s, record.message.update);
    } else if record.Received? {
      if Aside(s, record.message, record.replay) {
        AsideChanges(s, record.message, record.replay);
      } else {
        ReplyChanges(s, record.message);
      }
    }
  }

  // ---- the journal -----------------------------------------------------------------------

  lemma {:induction false} OneMoreRecord(s: State, journal: seq<Record>, record: Record)
    ensures var first := Run(s, journal);
            Run(s, journal + [record]) ==
            Out(Step(first.state, record).state, first.events + Step(first.state, record).events)
    decreases |journal|
  {
    var more := journal + [record];
    if journal == [] {
      assert more[1..] == [];
      var events := Step(s, record).events;
      assert events + [] == events && [] + events == events;
    } else {
      var first := Step(s, journal[0]);
      assert more[1..] == journal[1..] + [record];
      OneMoreRecord(first.state, journal[1..], record);
      var rest := Run(first.state, journal[1..]);
      var events := Step(rest.state, record).events;
      assert first.events + (rest.events + events) == first.events + rest.events + events;
    }
  }

  /**
   After any journal the reader holds exactly what the records say: the epoch, the
   session and the turn under way, what is open on it, how calls ended, and the numbers.
   */
  lemma {:induction false} EveryJournalReads(journal: seq<Record>)
    ensures Reads(Run(INITIAL, journal).state, journal)
    decreases |journal|
  {
    if journal != [] {
      var before, latest := Front(journal), Last(journal);
      assert journal == before + [latest];
      EveryJournalReads(before);
      OneMoreRecord(INITIAL, before, latest);
      var s := Run(INITIAL, before).state;
      TurnIsRead(s, before, latest);
      ItemsAreRead(s, before, latest);
      forall task ensures OutcomeIn(Step(s, latest).state.outcomes, task) == OutcomeOf(journal, task) {
        TasksAreRead(s, before, latest, task);
      }
      forall request ensures request in Step(s, latest).state.requests <==> WaitsOn(journal, request) {
        RequestsAreRead(s, before, latest, request);
      }
      BillsAreRead(s, before, latest);
      forall id ensures id in Step(s, latest).state.configRequests <==> ConfigAsked(journal, id) {
        AskedIsRead(s, before, latest, id);
      }
    }
  }
}
