/**
 What a conversation is told of one card and of one delegated call over a whole
 journal: all the text printed on the card, and how the card and the call ended.
 */
module AcpTexts {
  import opened Common
  import opened OrderedSets
  import opened Acp
  import opened AcpBrackets
  import opened AcpHistory
  import opened AcpSays

  // ---- text -----------------------------------------------------------------------

  datatype Text = Text(stream: Stream, text: string)

  function Streamed(stream: Stream, texts: seq<string>): seq<Text> {
    seq(|texts|, i requires 0 <= i < |texts| => Text(stream, texts[i]))
  }

  /** The text an update prints: a chunk's, or all that an ended call printed. */
  function UpdatePrints(update: Update): seq<Text> {
    match update
    case Chunk(thought, Some(text)) => [Text(if thought then ReasoningText else AssistantText, text)]
    case ToolUpdate(_, _, _, _, CallCompleted, Some(contents)) => Streamed(ToolOutput, Texts(contents))
    case ToolUpdate(_, _, _, _, CallFailed, Some(contents)) => Streamed(ToolOutput, Texts(contents))
    case _ => []
  }

  /** The text a record prints on a card: its update's, or a prompt's. */
  function PrintedBy(journal: seq<Record>, record: Record, item: Item): seq<Text> {
    if Card(journal, record) == Some(item) then UpdatePrints(record.message.update)
    else
      match record
      case Sent(PromptCall(id, blocks)) =>
        if item == UserItem(Prompted(EpochOf(journal), id)) then Streamed(UserText, Texts(blocks)) else []
      case _ => []
  }

  function TextOn(journal: seq<Record>, item: Item): seq<Text>
    decreases |journal|
  {
    if journal == [] then []
    else TextOn(Front(journal), item) + PrintedBy(Front(journal), Last(journal), item)
  }

  /** The text the events deliver to a card. */
  function Delivered(events: seq<Event>, item: Item): seq<Text> {
    if events == [] then []
    else
      (match events[0]
       case ContentDelta(to, stream, text) => if to == item then [Text(stream, text)] else []
       case _ => [])
      + Delivered(events[1..], item)
  }

  lemma {:induction false} DeliveredInTwo(a: seq<Event>, b: seq<Event>, item: Item)
    ensures Delivered(a + b, item) == Delivered(a, item) + Delivered(b, item)
    decreases |a|
  {
    if a == [] {
      assert a + b == b;
    } else {
      assert (a + b)[0] == a[0] && (a + b)[1..] == a[1..] + b;
      DeliveredInTwo(a[1..], b, item);
    }
  }

  lemma {:induction false} NothingDelivered(events: seq<Event>, item: Item)
    requires forall i :: 0 <= i < |events| ==> events[i].ContentDelta? ==> events[i].item != item
    ensures Delivered(events, item) == []
    decreases |events|
  {
    if events != [] {
      NothingDelivered(events[1..], item);
    }
  }

  lemma {:induction false} PrintedIsDelivered(item: Item, stream: Stream, texts: seq<string>)
    ensures Delivered(Printed(item, stream, texts), item) == Streamed(stream, texts)
    decreases |texts|
  {
    if texts != [] {
      PrintedIsDelivered(item, stream, texts[1..]);
      assert Printed(item, stream, texts)[1..] == Printed(item, stream, texts[1..]);
      assert Streamed(stream, texts) == [Text(stream, texts[0])] + Streamed(stream, texts[1..]);
    }
  }

  lemma EndDelivers(journal: seq<Record>, left: Left, turn: Option<Turn>, verdict: Verdict, usage: Option<Usage>,
                    item: Item)
    ensures Delivered(EndSays(journal, left, turn, verdict, usage), item) == []
  {
    NothingDelivered(EndSays(journal, left, turn, verdict, usage), item);
  }

  lemma PromptDelivers(journal: seq<Record>, id: string, blocks: seq<Option<string>>, item: Item)
    ensures Delivered(SentSays(journal, PromptCall(id, blocks)), item) ==
            if item == UserItem(Prompted(EpochOf(journal), id)) then Streamed(UserText, Texts(blocks)) else []
  {
    var user := UserItem(Prompted(EpochOf(journal), id));
    var opening := [TurnStarted(Prompted(EpochOf(journal), id)), ItemStarted(user, UserMessage, None)];
    var text, ending := Printed(user, UserText, Texts(blocks)), [ItemCompleted(user, ItemDone)];
    if item == user {
      PrintedIsDelivered(user, UserText, Texts(blocks));
      NothingDelivered(opening, item);
      NothingDelivered(ending, item);
      DeliveredInTwo(opening, text, item);
      DeliveredInTwo(opening + text, ending, item);
    } else {
      NothingDelivered(SentSays(journal, PromptCall(id, blocks)), item);
    }
  }

  lemma ToolDelivers(journal: seq<Record>, card: Item, update: Update, item: Item)
    requires update.ToolUpdate? && update.call.Some?
    ensures Delivered(ToolSays(journal, card, update), item) ==
            if item == card && Ending(update).Some? then Streamed(ToolOutput, Texts(update.contents.GetOr([]))) else []
  {
    var said := ToolSays(journal, card, update);
    if item == card && Ending(update).Some? {
      var texts := Texts(update.contents.GetOr([]));
      var text, ending := Printed(card, ToolOutput, texts), [ItemCompleted(card, Ending(update).value)];
      var before := said[..|said| - |text| - 1];
      assert said == before + (text + ending);
      NothingDelivered(before, item);
      NothingDelivered(ending, item);
      PrintedIsDelivered(card, ToolOutput, texts);
      DeliveredInTwo(text, ending, item);
      DeliveredInTwo(before, text + ending, item);
    } else {
      NothingDelivered(said, item);
    }
  }

  lemma ChunkDelivers(journal: seq<Record>, card: Item, thought: bool, text: Option<string>, item: Item)
    ensures Delivered(ChunkSays(journal, card, thought, text), item) ==
            if item == card && text.Some? then [Text(if thought then ReasoningText else AssistantText, text.value)]
            else []
  {
    var said := ChunkSays(journal, card, thought, text);
    var before, event := said[..|said| - 1], said[|said| - 1];
    assert said == before + [event];
    NothingDelivered(before, item);
    DeliveredInTwo(before, [event], item);
    assert [event][1..] == [];
    assert Delivered([event], item) == Delivered(said, item);
  }

  lemma UpdateDelivers(journal: seq<Record>, turn: Turn, update: Update, item: Item)
    requires ActiveOf(journal).Some? && ActiveOf(journal).value.turn == turn
    ensures Delivered(UpdateSays(journal, update), item) ==
            if Draws(update) && item == CardOf(turn, update) then UpdatePrints(update) else []
  {
    if update.ToolUpdate? && update.call.Some? {
      ToolDelivers(journal, ToolItem(turn, update.call.value), update, item);
      assert Streamed(ToolOutput, Texts([])) == [];
    } else if update.Chunk? {
      ChunkDelivers(journal, ChunkItem(turn, update.thought), update.thought, update.text, item);
    } else {
      NothingDelivered(UpdateSays(journal, update), item);
    }
  }

  lemma MessageDelivers(journal: seq<Record>, left: Left, message: Incoming, item: Item)
    requires !IsConfiguration(journal, message)
    ensures Delivered(MessageSays(journal, left, message), item) == PrintedBy(journal, Received(message, false), item)
  {
    if message.SessionUpdate? && message.session == SessionOf(journal) && ActiveOf(journal).Some? {
      UpdateDelivers(journal, ActiveOf(journal).value.turn, message.update, item);
    } else if AnswersPrompt(journal, Received(message, false)) {
      var verdict := VerdictOf(journal, message.error, message.stop, message.usage);
      var cost := CostOf(journal, message.usage);
      EndDelivers(journal, left, Some(ActiveOf(journal).value.turn), verdict, Some(cost), item);
    } else {
      NothingDelivered(MessageSays(journal, left, message), item);
    }
  }

  lemma SettingsDeliver(settings: seq<Event>, said: seq<Event>, item: Item)
    requires forall i :: 0 <= i < |settings| ==> settings[i].SessionConfigured?
    ensures Delivered(settings + said, item) == Delivered(said, item)
    ensures Delivered(settings, item) == []
  {
    NothingDelivered(settings, item);
    DeliveredInTwo(settings, said, item);
  }

  lemma ReceivedDelivers(journal: seq<Record>, left: Left, message: Incoming, replay: bool, item: Item)
    ensures Delivered(Says(journal, left, Received(message, replay)), item) ==
            PrintedBy(journal, Received(message, replay), item)
  {
    var settings := ConfigurationSays(journal, message);
    if replay || IsConfiguration(journal, message) {
      SettingsDeliver(settings, [], item);
      assert settings + [] == settings;
    } else {
      MessageDelivers(journal, left, message, item);
      SettingsDeliver(settings, MessageSays(journal, left, message), item);
    }
  }

  lemma OtherDelivers(journal: seq<Record>, left: Left, record: Record, item: Item)
    requires !record.Received? && !(record.Sent? && record.call.PromptCall?)
    ensures Delivered(Says(journal, left, record), item) == []
  {
    NothingDelivered(Says(journal, left, record), item);
  }

  lemma RecordDelivers(journal: seq<Record>, left: Left, record: Record, item: Item)
    ensures Delivered(Says(journal, left, record), item) == PrintedBy(journal, record, item)
  {
    match record
    case Received(message, replay) => ReceivedDelivers(journal, left, message, replay, item);
    case Sent(PromptCall(id, blocks)) => PromptDelivers(journal, id, blocks, item);
    case _ => OtherDelivers(journal, left, record, item);
  }

  /**
   Over any journal, what a conversation is told was printed on a card is what its
   records print on it: nothing is lost, added, reordered or put on another stream.
   */
  lemma {:induction false} EveryTextIsDelivered(journal: seq<Record>, item: Item)
    ensures Delivered(Run(INITIAL, journal).events, item) == TextOn(journal, item)
    decreases |journal|
  {
    if journal != [] {
      var front, last := Front(journal), Last(journal);
      assert journal == front + [last];
      EveryTextIsDelivered(front, item);
      OneMoreRecord(INITIAL, front, last);
      var left := EveryRecordSays(front, last);
      RecordDelivers(front, left, last, item);
      DeliveredInTwo(Run(INITIAL, front).events, Says(front, left, last), item);
    }
  }

  // ---- how cards end --------------------------------------------------------------------

  /** How the turn ended, if the record ends it: only a failed one fails what is open. */
  function FailsTurn(journal: seq<Record>, record: Record): bool {
    || record.Failed?
    || (AnswersPrompt(journal, record)
        && VerdictOf(journal, record.message.error, record.message.stop, record.message.usage).status.TurnFailed?)
  }

  /** A record's own word on how a card ended, or else the turn's. */
  function EndedBy(journal: seq<Record>, record: Record, item: Item): seq<ItemStatus> {
    if EndsTurn(journal, record) then
      if OpenOn(journal, item) then [if FailsTurn(journal, record) then ItemFailed else ItemDone] else []
    else if Card(journal, record) == Some(item) then
      if Ending(record.message.update).Some? then [Ending(record.message.update).value] else []
    else
      match record
      case Sent(PromptCall(id, _)) => if item == UserItem(Prompted(EpochOf(journal), id)) then [ItemDone] else []
      case _ => []
  }

  function EndingsOn(journal: seq<Record>, item: Item): seq<ItemStatus>
    decreases |journal|
  {
    if journal == [] then []
    else EndingsOn(Front(journal), item) + EndedBy(Front(journal), Last(journal), item)
  }

  function Endings(events: seq<Event>, item: Item): seq<ItemStatus> {
    if events == [] then []
    else
      (match events[0] case ItemCompleted(ended, status) => if ended == item then [status] else [] case _ => [])
      + Endings(events[1..], item)
  }

  lemma {:induction false} EndingsInTwo(a: seq<Event>, b: seq<Event>, item: Item)
    ensures Endings(a + b, item) == Endings(a, item) + Endings(b, item)
    decreases |a|
  {
    if a == [] {
      assert a + b == b;
    } else {
      assert (a + b)[0] == a[0] && (a + b)[1..] == a[1..] + b;
      EndingsInTwo(a[1..], b, item);
    }
  }

  lemma {:induction false} NothingEnds(events: seq<Event>, item: Item)
    requires forall i :: 0 <= i < |events| ==> events[i].ItemCompleted? ==> events[i].item != item
    ensures Endings(events, item) == []
    decreases |events|
  {
    if events != [] {
      NothingEnds(events[1..], item);
    }
  }

  lemma LastEnds(before: seq<Event>, item: Item, status: ItemStatus)
    requires forall i :: 0 <= i < |before| ==> before[i].ItemCompleted? ==> before[i].item != item
    ensures Endings(before + [ItemCompleted(item, status)], item) == [status]
  {
    NothingEnds(before, item);
    EndingsInTwo(before, [ItemCompleted(item, status)], item);
    assert [ItemCompleted(item, status)][1..] == [];
  }

  function Completions(items: seq<Item>, status: ItemStatus): seq<Event> {
    seq(|items|, i requires 0 <= i < |items| => ItemCompleted(items[i], status))
  }

  lemma {:induction false} EachEndsOnce(items: seq<Item>, status: ItemStatus, item: Item)
    requires Distinct(items)
    ensures Endings(Completions(items, status), item) == if item in items then [status] else []
    decreases |items|
  {
    if items != [] {
      var rest := items[1..];
      assert items == [items[0]] + rest;
      ConsElements(items[0], rest);
      EachEndsOnce(rest, status, item);
      assert Completions(items, status)[1..] == Completions(rest, status);
    }
  }

  lemma EndEnds(journal: seq<Record>, left: Left, turn: Option<Turn>, verdict: Verdict, usage: Option<Usage>,
                item: Item)
    requires Lists(journal, left)
    ensures Endings(EndSays(journal, left, turn, verdict, usage), item) ==
            if OpenOn(journal, item) then [if verdict.status.TurnFailed? then ItemFailed else ItemDone] else []
  {
    var status := if verdict.status.TurnFailed? then ItemFailed else ItemDone;
    var said, items := EndSays(journal, left, turn, verdict, usage), Completions(left.items, status);
    var before, after := said[..|left.calls| + |left.requests|], said[|left.calls| + |left.requests| + |items|..];
    assert said == before + (items + after);
    NothingEnds(before, item);
    NothingEnds(after, item);
    EachEndsOnce(left.items, status, item);
    EndingsInTwo(items, after, item);
    EndingsInTwo(before, items + after, item);
  }

  lemma ToolEnds(journal: seq<Record>, card: Item, update: Update, item: Item)
    requires update.ToolUpdate? && update.call.Some?
    ensures Endings(ToolSays(journal, card, update), item) ==
            if item == card && Ending(update).Some? then [Ending(update).value] else []
  {
    var said := ToolSays(journal, card, update);
    if item == card && Ending(update).Some? {
      var before := said[..|said| - 1];
      assert said == before + [ItemCompleted(card, Ending(update).value)];
      LastEnds(before, item, Ending(update).value);
    } else {
      NothingEnds(said, item);
    }
  }

  lemma UpdateEnds(journal: seq<Record>, turn: Turn, update: Update, item: Item)
    requires ActiveOf(journal).Some? && ActiveOf(journal).value.turn == turn
    ensures Endings(UpdateSays(journal, update), item) ==
            if Draws(update) && item == CardOf(turn, update) && Ending(update).Some? then [Ending(update).value] else []
  {
    if update.ToolUpdate? && update.call.Some? {
      ToolEnds(journal, ToolItem(turn, update.call.value), update, item);
    } else {
      NothingEnds(UpdateSays(journal, update), item);
    }
  }

  lemma MessageEnds(journal: seq<Record>, left: Left, message: Incoming, item: Item)
    requires !IsConfiguration(journal, message)
    requires Lists(journal, left)
    ensures Endings(MessageSays(journal, left, message), item) == EndedBy(journal, Received(message, false), item)
  {
    if message.SessionUpdate? && message.session == SessionOf(journal) && ActiveOf(journal).Some? {
      UpdateEnds(journal, ActiveOf(journal).value.turn, message.update, item);
    } else if AnswersPrompt(journal, Received(message, false)) {
      var verdict := VerdictOf(journal, message.error, message.stop, message.usage);
      var cost := CostOf(journal, message.usage);
      EndEnds(journal, left, Some(ActiveOf(journal).value.turn), verdict, Some(cost), item);
    } else {
      NothingEnds(MessageSays(journal, left, message), item);
    }
  }

  lemma SettingsEnd(settings: seq<Event>, said: seq<Event>, item: Item)
    requires forall i :: 0 <= i < |settings| ==> settings[i].SessionConfigured?
    ensures Endings(settings + said, item) == Endings(said, item)
    ensures Endings(settings, item) == []
  {
    NothingEnds(settings, item);
    EndingsInTwo(settings, said, item);
  }

  lemma ReceivedEnds(journal: seq<Record>, left: Left, message: Incoming, replay: bool, item: Item)
    requires Lists(journal, left)
    ensures Endings(Says(journal, left, Received(message, replay)), item) ==
            EndedBy(journal, Received(message, replay), item)
  {
    var settings := ConfigurationSays(journal, message);
    if replay || IsConfiguration(journal, message) {
      SettingsEnd(settings, [], item);
      assert settings + [] == settings;
    } else {
      MessageEnds(journal, left, message, item);
      SettingsEnd(settings, MessageSays(journal, left, message), item);
    }
  }

  lemma RecordEnds(journal: seq<Record>, left: Left, record: Record, item: Item)
    requires Lists(journal, left)
    ensures Endings(Says(journal, left, record), item) == EndedBy(journal, record, item)
  {
    match record
    case Received(message, replay) => ReceivedEnds(journal, left, message, replay, item);
    case Sent(PromptCall(id, blocks)) =>
      var said, user := SentSays(journal, PromptCall(id, blocks)), UserItem(Prompted(EpochOf(journal), id));
      if item == user {
        assert said == said[..|said| - 1] + [ItemCompleted(user, ItemDone)];
        LastEnds(said[..|said| - 1], item, ItemDone);
      } else {
        NothingEnds(said, item);
      }
    case Started(_) =>
      var turn := if ActiveOf(journal).Some? then Some(ActiveOf(journal).value.turn) else None;
      EndEnds(journal, left, turn, Verdict(TurnInterrupted, Some(RESTARTED)), None, item);
    case Failed(detail) =>
      var turn := if ActiveOf(journal).Some? then ActiveOf(journal).value.turn else Startup(EpochOf(journal));
      EndEnds(journal, left, Some(turn), Verdict(TurnFailed, Some(detail)), None, item);
    case _ => NothingEnds(Says(journal, left, record), item);
  }

  /** Over any journal a card ends as often as its records end it, and each time as they say. */
  lemma {:induction false} EveryCardEndsAsItSays(journal: seq<Record>, item: Item)
    ensures Endings(Run(INITIAL, journal).events, item) == EndingsOn(journal, item)
    decreases |journal|
  {
    if journal != [] {
      var front, last := Front(journal), Last(journal);
      assert journal == front + [last];
      EveryCardEndsAsItSays(front, item);
      OneMoreRecord(INITIAL, front, last);
      var left := EveryRecordSays(front, last);
      RecordEnds(front, left, last, item);
      EndingsInTwo(Run(INITIAL, front).events, Says(front, left, last), item);
    }
  }

  // ---- how delegated calls end --------------------------------------------------------------

  /** How a call is reported to have ended, and with what words. */
  datatype Report = Report(status: ItemStatus, summary: Option<string>)

  /** `cursor/task` closes a call that ended as it ended and one that did not as done; the turn fails the latter. */
  function ReportedBy(journal: seq<Record>, record: Record, task: string): seq<Report> {
    match OutcomeOf(journal, task)
    case None => []
    case Some(outcome) =>
      if EndsTurn(journal, record) then [Report(outcome.GetOr(ItemFailed), None)]
      else if ReportsOn(record, task) then [Report(outcome.GetOr(ItemDone), record.message.description)]
      else []
  }

  function ReportsOf(journal: seq<Record>, task: string): seq<Report>
    decreases |journal|
  {
    if journal == [] then []
    else ReportsOf(Front(journal), task) + ReportedBy(Front(journal), Last(journal), task)
  }

  function Reports(events: seq<Event>, task: string): seq<Report> {
    if events == [] then []
    else
      (match events[0]
       case TaskCompleted(ended, status, summary) => if ended == task then [Report(status, summary)] else []
       case _ => [])
      + Reports(events[1..], task)
  }

  lemma {:induction false} ReportsInTwo(a: seq<Event>, b: seq<Event>, task: string)
    ensures Reports(a + b, task) == Reports(a, task) + Reports(b, task)
    decreases |a|
  {
    if a == [] {
      assert a + b == b;
    } else {
      assert (a + b)[0] == a[0] && (a + b)[1..] == a[1..] + b;
      ReportsInTwo(a[1..], b, task);
    }
  }

  lemma {:induction false} NothingReported(events: seq<Event>, task: string)
    requires forall i :: 0 <= i < |events| ==> events[i].TaskCompleted? ==> events[i].task != task
    ensures Reports(events, task) == []
    decreases |events|
  {
    if events != [] {
      NothingReported(events[1..], task);
    }
  }

  function CallEnds(journal: seq<Record>, calls: seq<string>): seq<Event> {
    seq(|calls|, i requires 0 <= i < |calls| =>
      TaskCompleted(calls[i], OutcomeOf(journal, calls[i]).GetOr(None).GetOr(ItemFailed), None))
  }

  lemma {:induction false} EachIsReportedOnce(journal: seq<Record>, calls: seq<string>, task: string)
    requires Distinct(calls)
    ensures Reports(CallEnds(journal, calls), task) ==
            if task in calls then [Report(OutcomeOf(journal, task).GetOr(None).GetOr(ItemFailed), None)] else []
    decreases |calls|
  {
    if calls != [] {
      var rest := calls[1..];
      assert calls == [calls[0]] + rest;
      ConsElements(calls[0], rest);
      EachIsReportedOnce(journal, rest, task);
      assert CallEnds(journal, calls)[1..] == CallEnds(journal, rest);
    }
  }

  lemma EndReports(journal: seq<Record>, left: Left, turn: Option<Turn>, verdict: Verdict, usage: Option<Usage>,
                   task: string)
    requires Lists(journal, left)
    ensures Reports(EndSays(journal, left, turn, verdict, usage), task) ==
            match OutcomeOf(journal, task)
            case None => []
            case Some(outcome) => [Report(outcome.GetOr(ItemFailed), None)]
  {
    var said, calls := EndSays(journal, left, turn, verdict, usage), CallEnds(journal, left.calls);
    var after := said[|calls|..];
    assert said == calls + after;
    NothingReported(after, task);
    EachIsReportedOnce(journal, left.calls, task);
    ReportsInTwo(calls, after, task);
  }

  lemma ReportReports(journal: seq<Record>, message: Incoming, task: string)
    requires message.CursorTask? && message.call.Some?
    ensures Reports(ReportSays(journal, message), task) == ReportedBy(journal, Received(message, false), task)
  {
    var said := ReportSays(journal, message);
    if message.call.value == task && OutcomeOf(journal, task).Some? {
      var event := said[|said| - 1];
      assert said == said[..|said| - 1] + [event];
      NothingReported(said[..|said| - 1], task);
      ReportsInTwo(said[..|said| - 1], [event], task);
      assert [event][1..] == [];
    } else {
      NothingReported(said, task);
    }
  }

  lemma MessageReports(journal: seq<Record>, left: Left, message: Incoming, task: string)
    requires !IsConfiguration(journal, message)
    requires Lists(journal, left)
    ensures Reports(MessageSays(journal, left, message), task) == ReportedBy(journal, Received(message, false), task)
  {
    if message.CursorTask? && message.call.Some? {
      ReportReports(journal, message, task);
    } else if AnswersPrompt(journal, Received(message, false)) {
      var verdict := VerdictOf(journal, message.error, message.stop, message.usage);
      var cost := CostOf(journal, message.usage);
      EndReports(journal, left, Some(ActiveOf(journal).value.turn), verdict, Some(cost), task);
    } else {
      NothingReported(MessageSays(journal, left, message), task);
    }
  }

  lemma SettingsReport(settings: seq<Event>, said: seq<Event>, task: string)
    requires forall i :: 0 <= i < |settings| ==> settings[i].SessionConfigured?
    ensures Reports(settings + said, task) == Reports(said, task)
    ensures Reports(settings, task) == []
  {
    NothingReported(settings, task);
    ReportsInTwo(settings, said, task);
  }

  lemma ReceivedReports(journal: seq<Record>, left: Left, message: Incoming, replay: bool, task: string)
    requires Lists(journal, left)
    ensures Reports(Says(journal, left, Received(message, replay)), task) ==
            ReportedBy(journal, Received(message, replay), task)
  {
    var settings := ConfigurationSays(journal, message);
    if replay || IsConfiguration(journal, message) {
      SettingsReport(settings, [], task);
      assert settings + [] == settings;
    } else {
      MessageReports(journal, left, message, task);
      SettingsReport(settings, MessageSays(journal, left, message), task);
    }
  }

  lemma RecordReports(journal: seq<Record>, left: Left, record: Record, task: string)
    requires Lists(journal, left)
    ensures Reports(Says(journal, left, record), task) == ReportedBy(journal, record, task)
  {
    match record
    case Received(message, replay) => ReceivedReports(journal, left, message, replay, task);
    case Started(_) =>
      var turn := if ActiveOf(journal).Some? then Some(ActiveOf(journal).value.turn) else None;
      EndReports(journal, left, turn, Verdict(TurnInterrupted, Some(RESTARTED)), None, task);
    case Failed(detail) =>
      var turn := if ActiveOf(journal).Some? then ActiveOf(journal).value.turn else Startup(EpochOf(journal));
      EndReports(journal, left, Some(turn), Verdict(TurnFailed, Some(detail)), None, task);
    case _ => NothingReported(Says(journal, left, record), task);
  }

  /** Over any journal a delegated call is reported ended as its own updates say, and with `cursor/task`'s words. */
  lemma {:induction false} EveryCallEndsAsItSays(journal: seq<Record>, task: string)
    ensures Reports(Run(INITIAL, journal).events, task) == ReportsOf(journal, task)
    decreases |journal|
  {
    if journal != [] {
      var front, last := Front(journal), Last(journal);
      assert journal == front + [last];
      EveryCallEndsAsItSays(front, task);
      OneMoreRecord(INITIAL, front, last);
      var left := EveryRecordSays(front, last);
      RecordReports(front, left, last, task);
      ReportsInTwo(Run(INITIAL, front).events, Says(front, left, last), task);
    }
  }
}
