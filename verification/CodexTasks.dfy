/**
 Codex delegates by thread, and says that a thread began or ended as often as it
 likes. Each is reported once, and nothing is attributed to a thread before.
 */
module CodexTasks {
  import opened Common
  import opened Codex

  /** The tasks a conversation has been told of. */
  datatype Known = Known(started: set<string>, ended: set<string>)

  predicate Allowed(k: Known, event: Event) {
    match event
    case TaskStarted(task, _, _, _) => task !in k.started
    case TaskProgress(task, _) => task in k.started
    case TaskCompleted(task, _, _) => task in k.started && task !in k.ended
    case ItemStarted(_, _, Some(owner)) => owner in k.started
    case _ => true
  }

  function After(k: Known, event: Event): Known {
    match event
    case TaskStarted(task, _, _, _) => k.(started := k.started + {task})
    case TaskCompleted(task, _, _) => k.(ended := k.ended + {task})
    case _ => k
  }

  /** What is known after the events, if each was allowed where it came. */
  function Follow(k: Known, events: seq<Event>): Option<Known>
    decreases |events|
  {
    if events == [] then Some(k)
    else if Allowed(k, events[0]) then Follow(After(k, events[0]), events[1..])
    else None
  }

  lemma {:induction false} FollowConcat(k: Known, first: seq<Event>, second: seq<Event>)
    ensures Follow(k, first + second) ==
            (match Follow(k, first) case Some(l) => Follow(l, second) case None => None)
    decreases |first|
  {
    if first == [] {
      assert first + second == second;
    } else {
      assert (first + second)[1..] == first[1..] + second;
      if Allowed(k, first[0]) {
        FollowConcat(After(k, first[0]), first[1..], second);
      }
    }
  }

  lemma FollowOne(k: Known, event: Event)
    ensures Follow(k, [event]) == if Allowed(k, event) then Some(After(k, event)) else None
  {
    assert Follow(After(k, event), []) == Some(After(k, event));
  }

  /** Events that say nothing about tasks leave what is known alone. */
  lemma {:induction false} FollowPlain(k: Known, agents: map<string, bool>, events: seq<Event>)
    requires forall i :: 0 <= i < |events| ==> Plainly(agents, events[i])
    requires k.started == agents.Keys
    ensures Follow(k, events) == Some(k)
    decreases |events|
  {
    if events != [] {
      assert After(k, events[0]) == k;
      FollowPlain(k, agents, events[1..]);
    }
  }

  function Ended(agents: map<string, bool>): set<string> {
    set thread | thread in agents && agents[thread]
  }

  function KnownIn(agents: map<string, bool>): Known {
    Known(agents.Keys, Ended(agents))
  }

  // ---- one helper at a time ----------------------------------------------

  ghost predicate Accounts(agents: map<string, bool>, told: Told) {
    Follow(KnownIn(agents), told.events) == Some(KnownIn(told.agents))
  }

  lemma BeginAccounts(agents: map<string, bool>, thread: string, item: string, description: string,
                      agent: Option<string>)
    ensures Accounts(agents, Begin(agents, thread, item, description, agent))
  {
    if thread !in agents {
      FollowOne(KnownIn(agents), TaskStarted(thread, item, description, agent));
      assert KnownIn(agents[thread := false]) == KnownIn(agents).(started := KnownIn(agents).started + {thread});
    }
  }

  lemma FinishAccounts(agents: map<string, bool>, thread: string, status: ItemStatus, summary: Option<string>)
    ensures Accounts(agents, Finish(agents, thread, status, summary))
  {
    if thread in agents && !agents[thread] {
      FollowOne(KnownIn(agents), TaskCompleted(thread, status, summary));
      assert KnownIn(agents[thread := true]) == KnownIn(agents).(ended := KnownIn(agents).ended + {thread});
    }
  }

  lemma {:induction false} SpawnAccounts(agents: map<string, bool>, receivers: seq<string>, item: string,
                                         description: string, agent: Option<string>)
    ensures Accounts(agents, Spawn(agents, receivers, item, description, agent))
    decreases |receivers|
  {
    if receivers != [] {
      var first := Begin(agents, receivers[0], item, description, agent);
      BeginAccounts(agents, receivers[0], item, description, agent);
      SpawnAccounts(first.agents, receivers[1..], item, description, agent);
      FollowConcat(KnownIn(agents), first.events, Spawn(first.agents, receivers[1..], item, description, agent).events);
    }
  }

  lemma AgentStateAccounts(agents: map<string, bool>, entry: AgentEntry)
    ensures Accounts(agents, AgentState(agents, entry))
  {
    FinishAccounts(agents, entry.thread, ItemDone, entry.message);
    FinishAccounts(agents, entry.thread, ItemFailed, entry.message);
    if entry.message.Some? {
      FollowOne(KnownIn(agents), TaskProgress(entry.thread, entry.message.value));
    }
  }

  lemma {:induction false} AgentStatesAccount(agents: map<string, bool>, entries: seq<AgentEntry>)
    ensures Accounts(agents, AgentStates(agents, entries))
    decreases |entries|
  {
    if entries != [] {
      var first := AgentState(agents, entries[0]);
      AgentStateAccounts(agents, entries[0]);
      AgentStatesAccount(first.agents, entries[1..]);
      FollowConcat(KnownIn(agents), first.events, AgentStates(first.agents, entries[1..]).events);
    }
  }

  lemma DelegationAccounts(agents: map<string, bool>, id: string, body: Body)
    ensures Accounts(agents, Delegation(agents, id, body))
  {
    match body
    case Collab(spawns, prompt, model, receivers, states) =>
      var spawned := if spawns then Spawn(agents, receivers, id, prompt.GetOr(""), model) else Told(agents, []);
      SpawnAccounts(agents, receivers, id, prompt.GetOr(""), model);
      AgentStatesAccount(spawned.agents, states);
      FollowConcat(KnownIn(agents), spawned.events, AgentStates(spawned.agents, states).events);
    case Activity(thread, path, _) =>
      if thread.Some? {
        BeginAccounts(agents, thread.value, id, path.GetOr(""), path);
        FinishAccounts(agents, thread.value, ItemDone, None);
        FinishAccounts(agents, thread.value, ItemFailed, None);
        FollowOne(KnownIn(agents), TaskProgress(thread.value, path.GetOr("")));
      }
    case Plain(_, _) =>
  }

  lemma StepAccounts(s: State, line: Line)
    ensures Accounts(s.agents, Told(Step(s, line).state.agents, Step(s, line).events))
  {
    var out := Step(s, line);
    match Concerns(line)
    case Some(about) =>
      var told := Delegation(s.agents, about.id, about.body);
      ItemLineDelegates(s, line);
      DelegationAccounts(s.agents, about.id, about.body);
      var rest := out.events[|told.events|..];
      FollowPlain(KnownIn(told.agents), told.agents, rest);
      FollowConcat(KnownIn(s.agents), told.events, rest);
    case None =>
      OtherLineDelegatesNothing(s, line);
      FollowPlain(KnownIn(s.agents), s.agents, out.events);
  }

  /**
   Over every sequence of lines a thread is started at most once, ended at most
   once and only after it started, and never given progress or an item before;
   what the events leave known is exactly what the reader holds.
   */
  lemma {:induction false} TranscriptAccounts(s: State, lines: seq<Line>)
    ensures Accounts(s.agents, Told(Run(s, lines).state.agents, Run(s, lines).events))
    decreases |lines|
  {
    if lines != [] {
      var first := Step(s, lines[0]);
      StepAccounts(s, lines[0]);
      TranscriptAccounts(first.state, lines[1..]);
      FollowConcat(KnownIn(s.agents), first.events, Run(first.state, lines[1..]).events);
    }
  }

  // ---- counted -------------------------------------------------------------

  function TimesStarted(events: seq<Event>, task: string): nat {
    if events == [] then 0
    else (if events[0].TaskStarted? && events[0].task == task then 1 else 0) + TimesStarted(events[1..], task)
  }

  function TimesEnded(events: seq<Event>, task: string): nat {
    if events == [] then 0
    else (if events[0].TaskCompleted? && events[0].task == task then 1 else 0) + TimesEnded(events[1..], task)
  }

  lemma {:induction false} FollowedOnce(k: Known, events: seq<Event>, task: string)
    requires Follow(k, events).Some? && k.ended <= k.started
    ensures
      var l := Follow(k, events).value;
      && TimesStarted(events, task) == (if task in l.started && task !in k.started then 1 else 0)
      && TimesEnded(events, task) == (if task in l.ended && task !in k.ended then 1 else 0)
      && k.started <= l.started && k.ended <= l.ended <= l.started
    decreases |events|
  {
    if events != [] {
      FollowedOnce(After(k, events[0]), events[1..], task);
    }
  }

  /** From a new reader: once for every thread it has heard of, and once for every one it has heard end. */
  lemma EachThreadIsReportedOnce(lines: seq<Line>, thread: string)
    ensures
      var out := Run(INITIAL, lines);
      && TimesStarted(out.events, thread) == (if thread in out.state.agents then 1 else 0)
      && TimesEnded(out.events, thread) == (if thread in out.state.agents && out.state.agents[thread] then 1 else 0)
  {
    TranscriptAccounts(INITIAL, lines);
    assert KnownIn(INITIAL.agents) == Known({}, {});
    FollowedOnce(Known({}, {}), Run(INITIAL, lines).events, thread);
  }

  // ---- a transcript read again -----------------------------------------------

  /** Every thread known before is known after, and an ending is never forgotten. */
  predicate Grows(before: map<string, bool>, after: map<string, bool>) {
    forall thread :: thread in before ==> thread in after && (before[thread] ==> after[thread])
  }

  lemma {:induction false} AccountsGrow(agents: map<string, bool>, told: Told)
    requires Accounts(agents, told)
    ensures Grows(agents, told.agents)
  {
    forall thread | thread in agents ensures thread in told.agents && (agents[thread] ==> told.agents[thread]) {
      FollowedOnce(KnownIn(agents), told.events, thread);
      assert thread in KnownIn(agents).started;
      if agents[thread] {
        assert thread in KnownIn(agents).ended;
      }
    }
  }

  /** Whether the events say a task began or ended. */
  predicate Quiet(events: seq<Event>) {
    forall i :: 0 <= i < |events| ==> !events[i].TaskStarted? && !events[i].TaskCompleted?
  }

  /** The threads a line may start, and those it may end. */
  function Starts(line: Line): set<string> {
    match Concerns(line)
    case Some(about) => BodyStarts(about.body)
    case None => {}
  }

  function Endings(line: Line): set<string> {
    match Concerns(line)
    case Some(about) => BodyEnds(about.body)
    case None => {}
  }

  function BodyStarts(body: Body): set<string> {
    match body
    case Collab(true, _, _, receivers, _) => set thread | thread in receivers
    case Activity(Some(thread), _, Begun) => {thread}
    case _ => {}
  }

  /** Whether an entry of `agentsStates` says its agent has ended. */
  predicate Over(entry: AgentEntry) {
    entry.status == AgentCompleted || entry.status == AgentGone
  }

  function EntriesEnd(entries: seq<AgentEntry>): set<string> {
    set entry | entry in entries && Over(entry) :: entry.thread
  }

  function BodyEnds(body: Body): set<string> {
    match body
    case Collab(_, _, _, _, states) => EntriesEnd(states)
    case Activity(Some(thread), _, Done) => {thread}
    case Activity(Some(thread), _, Interrupted) => {thread}
    case _ => {}
  }

  lemma FirstAndOthers(receivers: seq<string>)
    requires receivers != []
    ensures (set thread | thread in receivers) == {receivers[0]} + (set thread | thread in receivers[1..])
  {
    assert receivers == [receivers[0]] + receivers[1..];
  }

  lemma {:induction false} SpawnKnows(agents: map<string, bool>, receivers: seq<string>, item: string,
                                      description: string, agent: Option<string>)
    ensures
      var told := Spawn(agents, receivers, item, description, agent);
      && told.agents.Keys == agents.Keys + (set thread | thread in receivers)
      && Ended(told.agents) == Ended(agents)
      && ((set thread | thread in receivers) <= agents.Keys ==> told == Told(agents, []))
    decreases |receivers|
  {
    if receivers != [] {
      var first := Begin(agents, receivers[0], item, description, agent);
      SpawnKnows(first.agents, receivers[1..], item, description, agent);
      FirstAndOthers(receivers);
    }
  }

  lemma FirstEntryEnds(entries: seq<AgentEntry>)
    requires entries != []
    ensures EntriesEnd(entries) ==
            (if Over(entries[0]) then {entries[0].thread} else {}) + EntriesEnd(entries[1..])
  {
    assert entries == [entries[0]] + entries[1..];
  }

  /** A known thread is ended afterwards exactly when it was, or an entry says so. */
  lemma {:induction false} StatesEnd(agents: map<string, bool>, entries: seq<AgentEntry>)
    ensures
      var after := AgentStates(agents, entries).agents;
      && after.Keys == agents.Keys
      && Ended(after) == Ended(agents) + EntriesEnd(entries) * agents.Keys
    decreases |entries|
  {
    if entries != [] {
      StatesEnd(AgentState(agents, entries[0]).agents, entries[1..]);
      FirstEntryEnds(entries);
    }
  }

  /** With nothing left to end, nothing is ended and no ending is said. */
  lemma {:induction false} StatesAlreadyEnded(agents: map<string, bool>, entries: seq<AgentEntry>)
    requires forall entry :: entry in entries && Over(entry) && entry.thread in agents ==> agents[entry.thread]
    ensures AgentStates(agents, entries).agents == agents && Quiet(AgentStates(agents, entries).events)
    decreases |entries|
  {
    if entries != [] {
      assert entries[0] in entries;
      assert AgentState(agents, entries[0]).agents == agents && Quiet(AgentState(agents, entries[0]).events);
      StatesAlreadyEnded(agents, entries[1..]);
    }
  }

  /** Whether a line has nothing left to start, and nothing left to end. */
  predicate Settled(agents: map<string, bool>, line: Line) {
    && Starts(line) <= agents.Keys
    && Endings(line) * agents.Keys <= Ended(agents)
  }

  lemma BodyMarks(agents: map<string, bool>, id: string, body: Body)
    ensures
      var after := Delegation(agents, id, body).agents;
      && after.Keys == agents.Keys + BodyStarts(body)
      && Ended(after) == Ended(agents) + BodyEnds(body) * after.Keys
  {
    match body
    case Collab(spawns, prompt, model, receivers, states) =>
      var spawned := if spawns then Spawn(agents, receivers, id, prompt.GetOr(""), model) else Told(agents, []);
      SpawnKnows(agents, receivers, id, prompt.GetOr(""), model);
      StatesEnd(spawned.agents, states);
    case _ =>
  }

  lemma BodySettled(agents: map<string, bool>, id: string, body: Body)
    requires BodyStarts(body) <= agents.Keys
    requires BodyEnds(body) * agents.Keys <= Ended(agents)
    ensures Delegation(agents, id, body).agents == agents && Quiet(Delegation(agents, id, body).events)
  {
    match body
    case Collab(spawns, prompt, model, receivers, states) =>
      SpawnKnows(agents, receivers, id, prompt.GetOr(""), model);
      forall entry | entry in states && Over(entry) && entry.thread in agents ensures agents[entry.thread] {
        assert entry.thread in BodyEnds(body) * agents.Keys;
      }
      StatesAlreadyEnded(agents, states);
    case Activity(Some(thread), _, kind) =>
      if (kind.Done? || kind.Interrupted?) && thread in agents {
        assert thread in BodyEnds(body) * agents.Keys;
      }
    case _ =>
  }

  /** A line starts what it may start, and ends what it may of the threads known. */
  lemma StepMarks(s: State, line: Line)
    ensures
      var after := Step(s, line).state.agents;
      && after.Keys == s.agents.Keys + Starts(line)
      && Ended(after) == Ended(s.agents) + Endings(line) * after.Keys
      && Settled(after, line)
  {
    match Concerns(line)
    case Some(about) =>
      ItemLineDelegates(s, line);
      BodyMarks(s.agents, about.id, about.body);
    case None => OtherLineDelegatesNothing(s, line);
  }

  /** A settled line changes nothing about any task. */
  lemma StepSettled(s: State, line: Line)
    requires Settled(s.agents, line)
    ensures Step(s, line).state.agents == s.agents && Quiet(Step(s, line).events)
  {
    match Concerns(line)
    case Some(about) =>
      ItemLineDelegates(s, line);
      BodySettled(s.agents, about.id, about.body);
    case None => OtherLineDelegatesNothing(s, line);
  }

  predicate AllStarted(agents: map<string, bool>, lines: seq<Line>) {
    forall i :: 0 <= i < |lines| ==> Starts(lines[i]) <= agents.Keys
  }

  predicate AllSettled(agents: map<string, bool>, lines: seq<Line>) {
    forall i :: 0 <= i < |lines| ==> Settled(agents, lines[i])
  }

  lemma RunGrows(s: State, lines: seq<Line>)
    ensures Grows(s.agents, Run(s, lines).state.agents)
  {
    TranscriptAccounts(s, lines);
    AccountsGrow(s.agents, Told(Run(s, lines).state.agents, Run(s, lines).events));
  }

  lemma {:induction false} OneReadingStartsAll(s: State, lines: seq<Line>)
    ensures AllStarted(Run(s, lines).state.agents, lines)
    decreases |lines|
  {
    if lines != [] {
      var first := Step(s, lines[0]).state;
      StepMarks(s, lines[0]);
      OneReadingStartsAll(first, lines[1..]);
      RunGrows(first, lines[1..]);
      forall i | 0 <= i < |lines| ensures Starts(lines[i]) <= Run(s, lines).state.agents.Keys {
        if i > 0 { assert lines[i] == lines[1..][i - 1]; }
      }
    }
  }

  /** With every thread of the transcript known, another reading starts none. */
  lemma {:induction false} StartedReadingAddsNone(s: State, lines: seq<Line>)
    requires AllStarted(s.agents, lines)
    ensures Run(s, lines).state.agents.Keys == s.agents.Keys
    ensures AllSettled(Run(s, lines).state.agents, lines)
    decreases |lines|
  {
    if lines != [] {
      var first := Step(s, lines[0]).state;
      StepMarks(s, lines[0]);
      StartedReadingAddsNone(first, lines[1..]);
      RunGrows(first, lines[1..]);
      forall i | 0 <= i < |lines| ensures Settled(Run(s, lines).state.agents, lines[i]) {
        if i > 0 { assert lines[i] == lines[1..][i - 1]; }
      }
    }
  }

  lemma {:induction false} SettledReadingIsQuiet(s: State, lines: seq<Line>)
    requires AllSettled(s.agents, lines)
    ensures Run(s, lines).state.agents == s.agents && Quiet(Run(s, lines).events)
    decreases |lines|
  {
    if lines != [] {
      StepSettled(s, lines[0]);
      SettledReadingIsQuiet(Step(s, lines[0]).state, lines[1..]);
    }
  }

  /**
   A transcript read a second time starts no task, and read a third time it
   neither starts nor ends one.
   */
  lemma ReadAgain(s: State, lines: seq<Line>)
    ensures
      var once := Run(s, lines);
      var twice := Run(once.state, lines);
      && (forall task :: TimesStarted(twice.events, task) == 0)
      && Quiet(Run(twice.state, lines).events)
  {
    var once := Run(s, lines);
    var twice := Run(once.state, lines);
    OneReadingStartsAll(s, lines);
    StartedReadingAddsNone(once.state, lines);
    SettledReadingIsQuiet(twice.state, lines);
    forall task ensures TimesStarted(twice.events, task) == 0 {
      TranscriptAccounts(once.state, lines);
      FollowedOnce(KnownIn(once.state.agents), twice.events, task);
    }
  }

  /** The second reading can end a task: its ending came before its start the first time. */
  lemma ASecondReadingEndsATask()
    ensures
      var ending := ItemEnds(Some(Item(Some("a"), Activity(Some("t"), None, Done), NoSkill, None)));
      var beginning := ItemBegins(Some(Item(Some("b"), Activity(Some("t"), None, Begun), NoSkill, None)), None);
      var once := Run(INITIAL, [ending, beginning]);
      TimesEnded(once.events, "t") == 0 && Step(once.state, ending).events == [TaskCompleted("t", ItemDone, None)]
  {
    var ending := ItemEnds(Some(Item(Some("a"), Activity(Some("t"), None, Done), NoSkill, None)));
    var beginning := ItemBegins(Some(Item(Some("b"), Activity(Some("t"), None, Begun), NoSkill, None)), None);
    assert [ending, beginning][1..] == [beginning] && [beginning][1..] == [];
    assert Step(INITIAL, ending).events == [];
    assert Run(Step(INITIAL, ending).state, [beginning]).events == [TaskStarted("t", "b", "", None)];
    assert Run(INITIAL, [ending, beginning]).events == [TaskStarted("t", "b", "", None)];
  }

  // ---- when a second reading ends nothing -----------------------------------------

  /** Every thread a transcript starts. */
  function StartedBy(lines: seq<Line>): set<string> {
    if lines == [] then {} else StartedBy(lines[..|lines| - 1]) + Starts(lines[|lines| - 1])
  }

  /** Every thread it says has ended, known by then or not. */
  function AllEndings(lines: seq<Line>): set<string> {
    if lines == [] then {} else AllEndings(lines[..|lines| - 1]) + Endings(lines[|lines| - 1])
  }

  /** Every thread it says has ended once it has started it. */
  function EndedBy(lines: seq<Line>): set<string> {
    if lines == [] then {}
    else EndedBy(lines[..|lines| - 1]) + Endings(lines[|lines| - 1]) * StartedBy(lines)
  }

  lemma {:induction false} ReadingMarks(lines: seq<Line>)
    ensures Run(INITIAL, lines).state.agents.Keys == StartedBy(lines)
    ensures Ended(Run(INITIAL, lines).state.agents) == EndedBy(lines)
    decreases |lines|
  {
    if lines != [] {
      var front, last := lines[..|lines| - 1], lines[|lines| - 1];
      ReadingMarks(front);
      assert lines == front + [last];
      LastLine(INITIAL, front, last);
      StepMarks(Run(INITIAL, front).state, last);
    }
  }

  lemma BothWithin(a: set<string>, b: set<string>, keys: set<string>, ended: set<string>)
    ensures (a + b) * keys <= ended <==> a * keys <= ended && b * keys <= ended
  {
    assert (a + b) * keys == a * keys + b * keys;
  }

  lemma {:induction false} SettledIff(agents: map<string, bool>, lines: seq<Line>)
    ensures AllSettled(agents, lines) <==>
            StartedBy(lines) <= agents.Keys && AllEndings(lines) * agents.Keys <= Ended(agents)
    decreases |lines|
  {
    if lines != [] {
      var front, last := lines[..|lines| - 1], lines[|lines| - 1];
      SettledIff(agents, front);
      assert forall i :: 0 <= i < |front| ==> front[i] == lines[i];
      assert AllSettled(agents, lines) <==> AllSettled(agents, front) && Settled(agents, last);
      BothWithin(AllEndings(front), Endings(last), agents.Keys, Ended(agents));
    }
  }

  lemma {:induction false} QuietKnowsNoMore(k: Known, events: seq<Event>)
    requires Follow(k, events).Some? && Quiet(events)
    ensures Follow(k, events) == Some(k)
    decreases |events|
  {
    if events != [] {
      assert After(k, events[0]) == k;
      assert forall i :: 0 <= i < |events| - 1 ==> events[1..][i] == events[i + 1];
      QuietKnowsNoMore(k, events[1..]);
    }
  }

  lemma SameKnown(a: map<string, bool>, b: map<string, bool>)
    requires KnownIn(a) == KnownIn(b)
    ensures a == b
  {
    forall thread | thread in a ensures a[thread] == b[thread] {
      assert thread in KnownIn(a).started;
      assert a[thread] <==> thread in KnownIn(a).ended;
      assert b[thread] <==> thread in KnownIn(b).ended;
    }
  }

  /**
   A second reading starts and ends nothing exactly when every thread the
   transcript starts, and anywhere says has ended, it says has ended after the start.
   */
  lemma SecondReadingIsQuietIff(lines: seq<Line>)
    ensures Quiet(Run(Run(INITIAL, lines).state, lines).events) <==>
            AllEndings(lines) * StartedBy(lines) <= EndedBy(lines)
  {
    var once := Run(INITIAL, lines).state;
    var twice := Run(once, lines);
    ReadingMarks(lines);
    SettledIff(once.agents, lines);
    if AllSettled(once.agents, lines) {
      SettledReadingIsQuiet(once, lines);
    }
    if Quiet(twice.events) {
      TranscriptAccounts(once, lines);
      QuietKnowsNoMore(KnownIn(once.agents), twice.events);
      SameKnown(once.agents, twice.state.agents);
      OneReadingStartsAll(INITIAL, lines);
      StartedReadingAddsNone(once, lines);
    }
  }

  /** With every thread of the transcript known, a reading ends all that it says has ended. */
  lemma {:induction false} KnowingReadingEnds(s: State, lines: seq<Line>)
    requires StartedBy(lines) <= s.agents.Keys
    ensures Run(s, lines).state.agents.Keys == s.agents.Keys
    ensures Ended(Run(s, lines).state.agents) == Ended(s.agents) + AllEndings(lines) * s.agents.Keys
    decreases |lines|
  {
    if lines != [] {
      var front, last := lines[..|lines| - 1], lines[|lines| - 1];
      KnowingReadingEnds(s, front);
      LastLine(s, front, last);
      assert lines == front + [last];
      StepMarks(Run(s, front).state, last);
    }
  }

  lemma LastLine(s: State, front: seq<Line>, last: Line)
    ensures Run(s, front + [last]).state == Step(Run(s, front).state, last).state
  {
    RunConcat(s, front, [last]);
    RunHead(Run(s, front).state, Step(Run(s, front).state, last), last, []);
    assert [last] + [] == [last];
  }

  /** The threads a second reading ends: those whose every ending stood before their start. */
  lemma SecondReadingEndsIff(lines: seq<Line>, thread: string)
    ensures TimesEnded(Run(Run(INITIAL, lines).state, lines).events, thread) ==
            if thread in AllEndings(lines) * StartedBy(lines) - EndedBy(lines) then 1 else 0
  {
    var once := Run(INITIAL, lines).state;
    ReadingMarks(lines);
    KnowingReadingEnds(once, lines);
    TranscriptAccounts(once, lines);
    FollowedOnce(KnownIn(once.agents), Run(once, lines).events, thread);
  }
}
