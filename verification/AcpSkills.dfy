/** A skill, once named on a call, is named on every later update of that call. */
module AcpSkills {
  import opened Common
  import opened Acp

  predicate Names(events: seq<Event>, item: Item) {
    forall i :: 0 <= i < |events| && events[i].ItemUpdated? && events[i].item == item ==> events[i].skill.Some?
  }

  lemma StepKeepsNames(s: State, record: Record, item: Item)
    requires item in s.reaching
    ensures item in Step(s, record).state.reaching && Names(Step(s, record).events, item)
  {
    match record
    case Started(_) => ClosingShape(s, ItemDone);
    case Failed(_) =>
      ClosingShape(if s.active.None? then s.(active := Some(Active("null", Startup(s.epoch)))) else s, ItemFailed);
    case Sent(PromptCall(id, blocks)) => DeltasShape(UserItem(Prompted(s.epoch, id)), UserText, blocks);
    case Received(message, replay) =>
      var noticed := Noticed(s, message);
      if !(replay || OnlyConfigures(s, message)) {
        AnsweredKeepsNames(noticed.state, message, item);
      }
    case _ =>
  }

  lemma AnsweredKeepsNames(s: State, message: Incoming, item: Item)
    requires item in s.reaching
    ensures item in Answered(s, message).state.reaching && Names(Answered(s, message).events, item)
  {
    match message
    case SessionUpdate(_, update) =>
      if s.active.Some? && update.ToolUpdate? && update.call.Some? {
        var called := ToolItem(s.active.value.turn, update.call.value);
        ToolClosingShape(called, update, Reached(Learned(s, called, update), called));
      }
    case Response(_, _, _, _, _) =>
      if Closes(s, message) {
        var bill := Spent(s.(ran := NobodyAsked), message.usage);
        var verdict := Judged(Said(message.error, message.stop), bill.state.ran);
        ClosingShape(bill.state, EndOfItem(verdict.status));
      }
    case _ =>
  }

  /** Over any journal: the name survives the snapshot that no longer carries it. */
  lemma {:induction false} NamedStaysNamed(s: State, journal: seq<Record>, item: Item)
    requires item in s.reaching
    ensures item in Run(s, journal).state.reaching && Names(Run(s, journal).events, item)
    decreases |journal|
  {
    if journal != [] {
      StepKeepsNames(s, journal[0], item);
      NamedStaysNamed(Step(s, journal[0]).state, journal[1..], item);
    }
  }
}
