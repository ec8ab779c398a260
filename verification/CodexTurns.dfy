/**
 What a Codex turn carries when it ends, read from the transcript alone: its
 cost and its reason come from the lines since the turn before it ended.
 */
module CodexTurns {
  import opened Common
  import opened Codex

  predicate EndsATurn(line: Line) {
    line.TurnEnds? && line.turn.Some?
  }

  /** The token usage last reported since a turn ended. */
  function UsageSince(lines: seq<Line>): Option<Usage>
    decreases |lines|
  {
    if lines == [] then None
    else
      var last := lines[|lines| - 1];
      if EndsATurn(last) then None
      else if last.TokenUsage? then last.usage
      else UsageSince(lines[..|lines| - 1])
  }

  /** The message of the last `error` frame since a turn ended. */
  function FailureSince(lines: seq<Line>): Option<string>
    decreases |lines|
  {
    if lines == [] then None
    else
      var last := lines[|lines| - 1];
      if EndsATurn(last) then None
      else if last.ErrorFrame? then last.message
      else FailureSince(lines[..|lines| - 1])
  }

  /** The request an item is still waiting to have answered. */
  function AskedAbout(lines: seq<Line>, item: string): Option<string>
    decreases |lines|
  {
    if lines == [] then None
    else
      var last := lines[|lines| - 1];
      if last.Question? && last.about == Some(item) then Some(last.request)
      else if last.ItemEnds? && last.item.Some? && last.item.value.id == Some(item) && Drawn(last.item.value.body)
      then None
      else AskedAbout(lines[..|lines| - 1], item)
  }

  /** What one line does to each of the three fields. */
  lemma StepFields(s: State, line: Line, item: string)
    ensures
      var t := Step(s, line).state;
      && t.usage == (if EndsATurn(line) then None else if line.TokenUsage? then line.usage else s.usage)
      && t.failure == (if EndsATurn(line) then None else if line.ErrorFrame? then line.message else s.failure)
      && (item in t.asked <==>
          if line.Question? && line.about == Some(item) then true
          else item in s.asked &&
               !(line.ItemEnds? && line.item.Some? && line.item.value.id == Some(item) && Drawn(line.item.value.body)))
      && (item in t.asked ==>
          t.asked[item] == if line.Question? && line.about == Some(item) then line.request else s.asked[item])
  {
  }

  /** The reader's fields are these readings of the transcript. */
  lemma {:induction false} FieldsReadTheTranscript(lines: seq<Line>, item: string)
    ensures
      var s := Run(INITIAL, lines).state;
      && s.usage == UsageSince(lines)
      && s.failure == FailureSince(lines)
      && (if item in s.asked then Some(s.asked[item]) else None) == AskedAbout(lines, item)
    decreases |lines|
  {
    if lines != [] {
      var before, last := lines[..|lines| - 1], lines[|lines| - 1];
      FieldsReadTheTranscript(before, item);
      assert lines == before + [last];
      RunConcat(INITIAL, before, [last]);
      assert [last][1..] == [];
      assert Run(INITIAL, lines).state == Step(Run(INITIAL, before).state, last).state;
      StepFields(Run(INITIAL, before).state, last, item);
    }
  }

  /**
   After any transcript, the line that ends a turn carries exactly the usage
   reported since the last turn ended, and its own message or else the last
   `error` frame's since then: no cost or reason crosses a turn.
   */
  lemma TurnCarriesItsOwn(lines: seq<Line>, turn: string, status: TurnStatus, message: Option<string>, quota: bool)
    ensures
      Step(Run(INITIAL, lines).state, TurnEnds(Some(turn), status, message, quota)).events ==
      [TurnCompleted(turn, status, UsageSince(lines), message.Or(FailureSince(lines)))] + Quota(quota)
  {
    FieldsReadTheTranscript(lines, "");
  }

  predicate Answers(events: seq<Event>, request: string) {
    exists i :: 0 <= i < |events| && events[i] == UserInputResolved(request)
  }

  lemma DelegationAnswersNothing(agents: map<string, bool>, id: string, body: Body, request: string)
    ensures !Answers(Delegation(agents, id, body).events, request)
  {
    match body
    case Collab(spawns, prompt, model, receivers, states) =>
      var spawned := if spawns then Spawn(agents, receivers, id, prompt.GetOr(""), model) else Told(agents, []);
      SpawnShape(agents, receivers, id, prompt.GetOr(""), model);
      StatesShape(spawned.agents, states);
    case _ =>
  }

  lemma {:induction false} SpawnShape(agents: map<string, bool>, receivers: seq<string>, item: string,
                                      description: string, agent: Option<string>)
    ensures forall i :: 0 <= i < |Spawn(agents, receivers, item, description, agent).events| ==>
      Spawn(agents, receivers, item, description, agent).events[i].TaskStarted?
    decreases |receivers|
  {
    if receivers != [] {
      var first := Begin(agents, receivers[0], item, description, agent);
      SpawnShape(first.agents, receivers[1..], item, description, agent);
    }
  }

  lemma {:induction false} StatesShape(agents: map<string, bool>, entries: seq<AgentEntry>)
    ensures forall i :: 0 <= i < |AgentStates(agents, entries).events| ==>
      !AgentStates(agents, entries).events[i].UserInputResolved?
    decreases |entries|
  {
    if entries != [] {
      StatesShape(AgentState(agents, entries[0]).agents, entries[1..]);
    }
  }

  lemma ShownAnswers(id: string, item: Item, kind: ItemKind, asked: map<string, string>, told: seq<Event>,
                     request: string)
    requires !Answers(told, request)
    ensures Answers(told + (Shown(id, item, kind) + Answering(asked, id)), request) <==>
            id in asked && asked[id] == request
  {
    var events := told + (Shown(id, item, kind) + Answering(asked, id));
    if id in asked {
      assert events[|events| - 1] == UserInputResolved(asked[id]);
    }
  }

  /**
   After any transcript, a line answers a question exactly when it completes a
   drawn item that question is still waiting on.
   */
  lemma QuestionIsAnsweredIff(lines: seq<Line>, line: Line, request: string)
    ensures
      Answers(Step(Run(INITIAL, lines).state, line).events, request) <==>
      && line.ItemEnds? && line.item.Some? && line.item.value.id.Some? && Drawn(line.item.value.body)
      && AskedAbout(lines, line.item.value.id.value) == Some(request)
  {
    var s := Run(INITIAL, lines).state;
    match line
    case ItemBegins(Some(Item(Some(id), body, _, _)), _) => DelegationAnswersNothing(s.agents, id, body, request);
    case ItemEnds(Some(Item(Some(id), body, skill, status))) =>
      FieldsReadTheTranscript(lines, id);
      DelegationAnswersNothing(s.agents, id, body, request);
      var kind := if id in s.open then s.open[id] else Classify(body);
      ShownAnswers(id, line.item.value, kind, s.asked, Delegation(s.agents, id, body).events, request);
    case _ =>
  }
}
