/**
 The Codex reader itself: fields updated in place, loops over receivers and
 agent states, and every method proved to do what `Codex.Step` says.
 */
module CodexReader {
  import opened Common
  import opened Codex

  class CodexNormaliser {
    var open: map<string, ItemKind>
    var usage: Option<Usage>
    var failure: Option<string>
    var activeTurn: Option<string>
    var asked: map<string, string>
    var agents: map<string, bool>

    function View(): State
      reads this
    {
      State(open, usage, failure, activeTurn, asked, agents)
    }

    constructor ()
      ensures View() == INITIAL
    {
      open, usage, failure, activeTurn, asked, agents := map[], None, None, None, map[], map[];
    }

    /** Report a subagent's ending, once. */
    method FinishAgent(thread: string, status: ItemStatus, summary: Option<string>) returns (events: seq<Event>)
      modifies `agents
      ensures Told(agents, events) == Finish(old(agents), thread, status, summary)
    {
      if thread !in agents || agents[thread] {
        return [];
      }
      agents := agents[thread := true];
      return [TaskCompleted(thread, status, summary)];
    }

    method ReadAgentState(entry: AgentEntry) returns (events: seq<Event>)
      modifies `agents
      ensures Told(agents, events) == AgentState(old(agents), entry)
    {
      events := [];
      if entry.thread !in agents {
        return;
      }
      match entry.status
      case AgentRunning =>
        if entry.message.Some? {
          events := [TaskProgress(entry.thread, entry.message.value)];
        }
      case AgentCompleted => events := FinishAgent(entry.thread, ItemDone, entry.message);
      case AgentGone => events := FinishAgent(entry.thread, ItemFailed, entry.message);
      case AgentUnknown =>
    }

    /** A thread already known is not started again, however often it is named. */
    method SpawnAgents(receivers: seq<string>, item: string, description: string, agent: Option<string>)
      returns (events: seq<Event>)
      modifies `agents
      ensures Told(agents, events) == Spawn(old(agents), receivers, item, description, agent)
    {
      events := [];
      var rest := receivers;
      ghost var all := Spawn(agents, receivers, item, description, agent);
      while rest != []
        invariant all.agents == Spawn(agents, rest, item, description, agent).agents
        invariant all.events == events + Spawn(agents, rest, item, description, agent).events
        decreases |rest|
      {
        ghost var first := Begin(agents, rest[0], item, description, agent);
        Regroup(events, first.events, Spawn(first.agents, rest[1..], item, description, agent).events);
        if rest[0] !in agents {
          agents := agents[rest[0] := false];
          events := events + [TaskStarted(rest[0], item, description, agent)];
        } else {
          assert events + [] == events;
        }
        rest := rest[1..];
      }
    }

    method ReadAgentStates(states: seq<AgentEntry>) returns (events: seq<Event>)
      modifies `agents
      ensures Told(agents, events) == AgentStates(old(agents), states)
    {
      events := [];
      var rest := states;
      ghost var all := AgentStates(agents, states);
      while rest != []
        invariant all.agents == AgentStates(agents, rest).agents
        invariant all.events == events + AgentStates(agents, rest).events
        decreases |rest|
      {
        ghost var first := AgentState(agents, rest[0]);
        Regroup(events, first.events, AgentStates(first.agents, rest[1..]).events);
        var said := ReadAgentState(rest[0]);
        events := events + said;
        rest := rest[1..];
      }
    }

    /** `Delegation` with the reader's own agents, which it updates. */
    method Delegate(id: string, body: Body) returns (events: seq<Event>)
      modifies `agents
      ensures Told(agents, events) == Delegation(old(agents), id, body)
    {
      events := [];
      match body
      case Collab(spawns, prompt, model, receivers, states) =>
        if spawns {
          events := SpawnAgents(receivers, id, prompt.GetOr(""), model);
        }
        var stated := ReadAgentStates(states);
        events := events + stated;
      case Activity(named, path, kind) =>
        if named.None? {
          return;
        }
        var thread := named.value;
        match kind {
          case Begun =>
            if thread !in agents {
              agents := agents[thread := false];
              events := [TaskStarted(thread, id, path.GetOr(""), path)];
            }
          case Interacted =>
            if thread in agents {
              events := [TaskProgress(thread, path.GetOr(""))];
            }
          case Done => events := FinishAgent(thread, ItemDone, None);
          case Interrupted => events := FinishAgent(thread, ItemFailed, None);
          case OtherActivity =>
        }
      case Plain(_, _) =>
    }

    /** The card of an item that is drawn. */
    method OpenCard(id: string, item: Item, owner: Option<string>) returns (events: seq<Event>)
      modifies `open
      ensures open == old(open)[id := if item.skill.SkillFound? then SkillUse else Classify(item.body)]
      ensures events == Opened(id, item, owner)
    {
      var kind := if item.skill.SkillFound? then SkillUse else Classify(item.body);
      open := open[id := kind];
      events := [];
      if item.skill.SkillFound? && item.skill.name.Some? {
        events := [ItemUpdated(id, item.skill.name)];
      }
      events := events + [ItemStarted(id, kind, owner)];
      if kind == UserMessage && item.body.Plain? && item.body.text.Some? {
        events := events + [ContentDelta(id, item.body.text.value)];
      }
    }

    method ItemStarts(item: Item, thread: Option<string>) returns (events: seq<Event>)
      modifies `open, `agents
      ensures Out(View(), events) == ItemBegun(old(View()), item, thread)
    {
      if item.id.None? {
        return [];
      }
      var id := item.id.value;
      open := open[id := Classify(item.body)];
      events := Delegate(id, item.body);
      if !Drawn(item.body) {
        assert open - {id} == old(open) - {id};
        open := open - {id};
        return;
      }
      var card := OpenCard(id, item, Owner(agents, thread));
      events := events + card;
    }

    method ItemCompletes(item: Item) returns (events: seq<Event>)
      modifies this
      ensures Out(View(), events) == ItemEnded(old(View()), item)
    {
      if item.id.None? {
        return [];
      }
      var id := item.id.value;
      var kind := if id in open then open[id] else Classify(item.body);
      open := open - {id};
      events := Delegate(id, item.body);
      if !Drawn(item.body) {
        return;
      }
      var shown := [ItemUpdated(id, None)];
      if kind == Reasoning && item.body.Plain? && item.body.text.Some? {
        shown := shown + [ContentDelta(id, item.body.text.value)];
      }
      shown := shown + [ItemCompleted(id, item.status.GetOr(ItemDone))];
      if id in asked {
        shown := shown + [UserInputResolved(asked[id])];
        asked := asked - {id};
      } else {
        assert asked - {id} == asked;
      }
      events := events + shown;
    }

    method TurnCompletes(turn: Option<string>, status: TurnStatus, message: Option<string>) returns (events: seq<Event>)
      modifies this
      ensures Out(View(), events) == TurnEnded(old(View()), turn, status, message)
    {
      if turn.None? {
        return [];
      }
      open := map[];
      activeTurn := None;
      var detail := message.Or(failure);
      failure := None;
      events := [TurnCompleted(turn.value, status, usage, detail)];
      usage := None;
    }

    /** Dispatch on the line's method: the fields it changes and the events it emits. */
    method Push(line: Line) returns (events: seq<Event>)
      modifies this
      ensures Out(View(), events) == Step(old(View()), line)
    {
      events := [];
      match line
      case TurnBegins(turn) =>
        if turn.Some? {
          activeTurn := turn;
          events := [TurnStarted(turn.value)];
        }
      case TurnEnds(turn, status, message, quota) =>
        events := TurnCompletes(turn, status, message);
        events := events + Quota(quota);
      case ErrorFrame(message, quota) =>
        failure := message;
        events := Quota(quota);
      case ItemBegins(item, thread) =>
        if item.Some? {
          events := ItemStarts(item.value, thread);
        }
      case ItemEnds(item) =>
        if item.Some? {
          events := ItemCompletes(item.value);
        }
      case TokenUsage(reported) => usage := reported;
      case Question(request, about) =>
        if about.Some? {
          asked := asked[about.value := request];
        }
        events := [UserInputRequested(request)];
      case Approval(request) => events := [RequestOpened(request)];
      case Resolved(answered) =>
        if answered.Some? {
          events := [RequestResolved(answered.value)];
        }
      case OutputDelta(of, delta) =>
        if of.Some? && delta.Some? {
          events := [ContentDelta(of.value, delta.value)];
        }
      case OtherLine => events := [Raw];
    }
  }
}
