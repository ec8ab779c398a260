/**
 Asking a server again because its stream spoke: answered at once, and the rest of
 a burst collapsed into one more ask when the window closes. Time is in
 milliseconds; a timer runs no earlier than it is due and at most `late` after.
 */
module Fleet {

  const WINDOW: nat := 400

  datatype Timer = Timer(server: string, due: nat)

  /**
   What happened: a stir, or the leading edge of a window, where the server is
   asked if it is connected.
   */
  datatype Event = Stirred(server: string, at: nat) | Swept(server: string, at: nat, asked: bool)

  datatype World = World(
    now: nat,
    connected: set<string>,
    cooling: set<string>,
    again: set<string>,
    timers: seq<Timer>,
    log: seq<Event>)

  datatype Step = Stir(server: string) | Fire(k: nat) | Pass(ms: nat) | Connect(server: string) | Drop(server: string)

  predicate Enabled(w: World, late: nat, step: Step) {
    match step
    case Fire(k) => k < |w.timers| && w.timers[k].due <= w.now
    case Pass(ms) => forall k :: 0 <= k < |w.timers| ==> w.now + ms <= w.timers[k].due + late
    case _ => true
  }

  /** The leading edge: ask if connected, and close the window later. */
  function Opened(w: World, server: string): World {
    w.(cooling := w.cooling + {server},
       timers := w.timers + [Timer(server, w.now + WINDOW)],
       log := w.log + [Swept(server, w.now, server in w.connected)])
  }

  /** The window over, and what was noted in it forgotten. */
  function Closed(w: World, k: nat): World
    requires k < |w.timers|
  {
    var server := w.timers[k].server;
    w.(timers := w.timers[..k] + w.timers[k + 1..], cooling := w.cooling - {server}, again := w.again - {server})
  }

  function Fired(w: World, k: nat): World
    requires k < |w.timers|
  {
    var server := w.timers[k].server;
    if server in w.again then Opened(Closed(w, k), server) else Closed(w, k)
  }

  function Next(w: World, late: nat, step: Step): World
    requires Enabled(w, late, step)
  {
    match step
    case Stir(server) =>
      var heard := w.(log := w.log + [Stirred(server, w.now)]);
      if server in w.cooling then heard.(again := w.again + {server}) else Opened(heard, server)
    case Fire(k) => Fired(w, k)
    case Pass(ms) => w.(now := w.now + ms)
    case Connect(server) => w.(connected := w.connected + {server})
    case Drop(server) => w.(connected := w.connected - {server})
  }

  function Run(w: World, late: nat, steps: seq<Step>): World
    decreases |steps|
  {
    if steps == [] then w
    else
      var before := Run(w, late, steps[..|steps| - 1]);
      var step := steps[|steps| - 1];
      if Enabled(before, late, step) then Next(before, late, step) else before
  }

  predicate Start(w: World) {
    w.cooling == {} && w.again == {} && w.timers == [] && w.log == []
  }

  // ---- what holds in every run ---------------------------------------------------

  predicate HasTimer(timers: seq<Timer>, server: string) {
    exists k :: 0 <= k < |timers| && timers[k].server == server
  }

  /** A cooling server has one pending timer, and no other server has any. */
  predicate OneTimerEach(w: World) {
    && (forall i, j :: 0 <= i < j < |w.timers| ==> w.timers[i].server != w.timers[j].server)
    && (forall k :: 0 <= k < |w.timers| ==> w.timers[k].server in w.cooling)
    && (forall server :: server in w.cooling ==> HasTimer(w.timers, server))
    && w.again <= w.cooling
  }

  predicate OnTime(w: World, late: nat) {
    forall k :: 0 <= k < |w.timers| ==> w.timers[k].due <= w.now + 400 && w.now <= w.timers[k].due + late
  }

  predicate Apart(log: seq<Event>) {
    forall i, j :: 0 <= i < j < |log| && log[i].Swept? && log[j].Swept? && log[i].server == log[j].server ==>
      log[i].at + 400 <= log[j].at
  }

  /** No window is reopened before the one opened last is over. */
  predicate WindowsHold(w: World) {
    forall i :: 0 <= i < |w.log| && w.log[i].Swept? ==>
      if w.log[i].server in w.cooling
      then forall k :: 0 <= k < |w.timers| && w.timers[k].server == w.log[i].server ==>
             w.log[i].at + 400 <= w.timers[k].due
      else w.log[i].at + 400 <= w.now
  }

  predicate SweptWithin(log: seq<Event>, server: string, from: nat, to: nat) {
    exists j :: 0 <= j < |log| && log[j].Swept? && log[j].server == server && from <= log[j].at <= to
  }

  /** A stir not yet answered: noted, and its timer due within the window. */
  predicate Waiting(w: World, server: string, at: nat) {
    && server in w.again
    && forall k :: 0 <= k < |w.timers| && w.timers[k].server == server ==> w.timers[k].due <= at + 400
  }

  predicate Answered(w: World, late: nat) {
    forall i :: 0 <= i < |w.log| && w.log[i].Stirred? ==>
      && w.log[i].at <= w.now
      && (SweptWithin(w.log, w.log[i].server, w.log[i].at, w.log[i].at + 400 + late)
          || Waiting(w, w.log[i].server, w.log[i].at))
  }

  predicate Throttled(w: World, late: nat) {
    OneTimerEach(w) && OnTime(w, late) && Apart(w.log) && WindowsHold(w) && Answered(w, late)
  }

  lemma TimersStay(w: World, late: nat, step: Step)
    requires Enabled(w, late, step) && OneTimerEach(w) && OnTime(w, late)
    ensures OneTimerEach(Next(w, late, step)) && OnTime(Next(w, late, step), late)
  {
    match step
    case Fire(k) =>
      ClosedTimers(w, late, k);
      var server := w.timers[k].server;
      if server in w.again {
        OpenedTimers(Closed(w, k), late, server);
      }
    case Stir(server) =>
      if server !in w.cooling {
        OpenedTimers(w.(log := w.log + [Stirred(server, w.now)]), late, server);
      }
    case _ =>
  }

  lemma OpenedTimers(w: World, late: nat, server: string)
    requires OneTimerEach(w) && OnTime(w, late) && server !in w.cooling
    ensures OneTimerEach(Opened(w, server)) && OnTime(Opened(w, server), late)
  {
    var after := Opened(w, server);
    assert after.timers[|w.timers|].server == server;
    forall s | s in w.cooling ensures HasTimer(after.timers, s) {
      var i :| 0 <= i < |w.timers| && w.timers[i].server == s;
      assert after.timers[i] == w.timers[i];
    }
  }

  lemma ClosedTimers(w: World, late: nat, k: nat)
    requires k < |w.timers| && OneTimerEach(w) && OnTime(w, late)
    ensures OneTimerEach(Closed(w, k)) && OnTime(Closed(w, k), late)
  {
    var after := Closed(w, k);
    assert forall m :: 0 <= m < |after.timers| ==> after.timers[m] == w.timers[if m < k then m else m + 1];
    forall s | s in after.cooling ensures HasTimer(after.timers, s) {
      var i :| 0 <= i < |w.timers| && w.timers[i].server == s;
      assert after.timers[if i < k then i else i - 1] == w.timers[i];
    }
  }

  lemma WindowsStay(w: World, late: nat, step: Step)
    requires Enabled(w, late, step) && Throttled(w, late)
    ensures Apart(Next(w, late, step).log) && WindowsHold(Next(w, late, step))
  {
    var after := Next(w, late, step);
    TimersStay(w, late, step);
    if step.Fire? {
      FireKeepsWindows(w, late, step.k);
    }
  }

  lemma FireKeepsWindows(w: World, late: nat, k: nat)
    requires k < |w.timers| && w.timers[k].due <= w.now && Throttled(w, late)
    ensures Apart(Fired(w, k).log) && WindowsHold(Fired(w, k))
  {
    var after := Fired(w, k);
    var server := w.timers[k].server;
    forall i | 0 <= i < |w.log| && w.log[i].Swept? && w.log[i].server == server
      ensures w.log[i].at + 400 <= w.now
    {
      assert w.log[i].at + 400 <= w.timers[k].due;
    }
    var left := w.timers[..k] + w.timers[k + 1..];
    assert forall m :: 0 <= m < |left| ==> left[m] == w.timers[if m < k then m else m + 1];
  }

  lemma AnsweredStays(w: World, late: nat, step: Step)
    requires Enabled(w, late, step) && Throttled(w, late)
    ensures Answered(Next(w, late, step), late)
  {
    var after := Next(w, late, step);
    forall i | 0 <= i < |after.log| && after.log[i].Stirred?
      ensures after.log[i].at <= after.now
      ensures SweptWithin(after.log, after.log[i].server, after.log[i].at, after.log[i].at + 400 + late)
              || Waiting(after, after.log[i].server, after.log[i].at)
    {
      if i < |w.log| {
        StirStaysAnswered(w, late, step, i);
      } else {
        JustStirred(w, late, step);
      }
    }
  }

  lemma JustStirred(w: World, late: nat, step: Step)
    requires step.Stir? && Throttled(w, late)
    ensures var after := Next(w, late, step);
            SweptWithin(after.log, step.server, w.now, w.now + 400 + late) || Waiting(after, step.server, w.now)
  {
    var after := Next(w, late, step);
    if step.server !in w.cooling {
      assert after.log[|after.log| - 1] == Swept(step.server, w.now, step.server in w.connected);
    }
  }

  lemma StirStaysAnswered(w: World, late: nat, step: Step, i: nat)
    requires Enabled(w, late, step) && Throttled(w, late) && i < |w.log| && w.log[i].Stirred?
    ensures var after := Next(w, late, step);
            SweptWithin(after.log, w.log[i].server, w.log[i].at, w.log[i].at + 400 + late)
            || Waiting(after, w.log[i].server, w.log[i].at)
  {
    var after := Next(w, late, step);
    var server, at := w.log[i].server, w.log[i].at;
    if SweptWithin(w.log, server, at, at + 400 + late) {
      var j :| 0 <= j < |w.log| && w.log[j].Swept? && w.log[j].server == server
          && at <= w.log[j].at <= at + 400 + late;
      assert after.log[j] == w.log[j];
    } else if step.Fire? {
      WaitingThroughFire(w, late, step.k, server, at);
    }
  }

  lemma WaitingThroughFire(w: World, late: nat, k: nat, server: string, at: nat)
    requires k < |w.timers| && w.timers[k].due <= w.now && Throttled(w, late) && at <= w.now && Waiting(w, server, at)
    ensures var after := Fired(w, k);
            SweptWithin(after.log, server, at, at + 400 + late) || Waiting(after, server, at)
  {
    var after := Fired(w, k);
    if w.timers[k].server == server {
      assert after.log[|after.log| - 1] == Swept(server, w.now, server in w.connected);
      assert w.now <= w.timers[k].due + late;
    } else {
      var left := w.timers[..k] + w.timers[k + 1..];
      assert forall m :: 0 <= m < |left| ==> left[m] == w.timers[if m < k then m else m + 1];
    }
  }

  lemma {:induction false} EveryRunIsThrottled(w: World, late: nat, steps: seq<Step>)
    requires Start(w)
    ensures Throttled(Run(w, late, steps), late)
    decreases |steps|
  {
    if steps != [] {
      EveryRunIsThrottled(w, late, steps[..|steps| - 1]);
      var before := Run(w, late, steps[..|steps| - 1]);
      var step := steps[|steps| - 1];
      if Enabled(before, late, step) {
        TimersStay(before, late, step);
        WindowsStay(before, late, step);
        AnsweredStays(before, late, step);
      }
    }
  }

  lemma WaitingIsInTime(w: World, late: nat, server: string, at: nat)
    requires OneTimerEach(w) && OnTime(w, late) && Waiting(w, server, at)
    ensures w.now <= at + 400 + late
  {
    var k :| 0 <= k < |w.timers| && w.timers[k].server == server;
  }

  predicate AlwaysAsked(w: World, server: string) {
    server in w.connected &&
    forall i :: 0 <= i < |w.log| && w.log[i].Swept? && w.log[i].server == server ==> w.log[i].asked
  }

  lemma {:induction false} ConnectedIsAsked(w: World, late: nat, steps: seq<Step>, server: string)
    requires Start(w) && server in w.connected && Drop(server) !in steps
    ensures AlwaysAsked(Run(w, late, steps), server)
    decreases |steps|
  {
    if steps != [] {
      ConnectedIsAsked(w, late, steps[..|steps| - 1], server);
      assert steps[|steps| - 1] != Drop(server);
    }
  }

  /**
   Over every run, with timers up to `late` late: asks of one server are a window
   apart, and a stir older than a window and the lateness has been answered by an
   ask since, while the server stays connected.
   */
  lemma StirsAreAnsweredAndAsksAreApart(w: World, late: nat, steps: seq<Step>, server: string, i: nat)
    requires Start(w) && server in w.connected && Drop(server) !in steps
    requires var after := Run(w, late, steps);
             i < |after.log| && after.log[i].server == server && after.log[i].Stirred?
             && after.now > after.log[i].at + 400 + late
    ensures var after := Run(w, late, steps);
            && Apart(after.log)
            && exists j :: 0 <= j < |after.log| && after.log[j].Swept? && after.log[j].server == server
                 && after.log[j].asked && after.log[i].at <= after.log[j].at <= after.log[i].at + 400 + late
  {
    EveryRunIsThrottled(w, late, steps);
    ConnectedIsAsked(w, late, steps, server);
    var after := Run(w, late, steps);
    var at := after.log[i].at;
    if Waiting(after, server, at) {
      WaitingIsInTime(after, late, server, at);
    }
    assert SweptWithin(after.log, server, at, at + 400 + late);
  }

  // ---- what a run does besides -----------------------------------------------------

  /** The time that passes in a run, and the last word on whether a server is connected. */
  function Passed(w: World, late: nat, steps: seq<Step>): nat {
    if steps == [] then 0
    else
      var front, step := steps[..|steps| - 1], steps[|steps| - 1];
      Passed(w, late, front) + if step.Pass? && Enabled(Run(w, late, front), late, step) then step.ms else 0
  }

  predicate LastConnected(w: World, steps: seq<Step>, server: string) {
    if steps == [] then server in w.connected
    else
      var step := steps[|steps| - 1];
      if step == Connect(server) then true
      else if step == Drop(server) then false
      else LastConnected(w, steps[..|steps| - 1], server)
  }

  /** The clock is the time passed, and a server is connected as the last step about it said. */
  lemma {:induction false} TheWorldMovesOn(w: World, late: nat, steps: seq<Step>, server: string)
    ensures var after := Run(w, late, steps);
            && after.now == w.now + Passed(w, late, steps)
            && (server in after.connected <==> LastConnected(w, steps, server))
    decreases |steps|
  {
    if steps != [] {
      TheWorldMovesOn(w, late, steps[..|steps| - 1], server);
    }
  }

  // ---- the program -------------------------------------------------------------------

  class Stirrer {
    var cooling: set<string>
    var again: set<string>
    var timers: seq<Timer>
    ghost var log: seq<Event>

    ghost function At(now: nat, connected: set<string>): World
      reads this
    {
      World(now, connected, cooling, again, timers, log)
    }

    constructor ()
      ensures cooling == {} && again == {} && timers == [] && log == []
    {
      cooling, again, timers, log := {}, {}, [], [];
    }

    method Lead(server: string, now: nat, connected: set<string>) returns (asked: bool)
      requires server !in cooling
      modifies this
      ensures At(now, connected) == Opened(old(At(now, connected)), server)
      ensures asked == (server in connected)
    {
      cooling := cooling + {server};
      asked := server in connected;
      log := log + [Swept(server, now, asked)];
      timers := timers + [Timer(server, now + WINDOW)];
    }

    method StirFleet(server: string, now: nat, connected: set<string>) returns (asked: bool)
      modifies this
      ensures At(now, connected) == Next(old(At(now, connected)), 0, Stir(server))
      ensures asked == (server !in old(cooling) && server in connected)
    {
      log := log + [Stirred(server, now)];
      if server in cooling {
        again := again + {server};
        return false;
      }
      asked := Lead(server, now, connected);
    }

    /** The timer: the window closes, and opens again when anything was said meanwhile. */
    method OnTimer(k: nat, now: nat, connected: set<string>) returns (asked: bool)
      requires k < |timers| && timers[k].due <= now
      modifies this
      ensures At(now, connected) == Fired(old(At(now, connected)), k)
      ensures asked == (old(timers[k].server) in old(again) && old(timers[k].server) in connected)
    {
      var server := timers[k].server;
      timers := timers[..k] + timers[k + 1..];
      cooling := cooling - {server};
      if server !in again {
        return false;
      }
      again := again - {server};
      asked := Lead(server, now, connected);
    }
  }
}
