/**
 The desktop's updater: one check at a time, the handle the last check found, and
 an install that nothing may pull the handle out from under. What runs between
 two awaits is one step; steps of checks and installs interleave freely.
 */
module Updates {
  import opened Common

  /** A found update: a resource of the shell, fresh from every check, to be closed once. */
  datatype Handle = Handle(id: nat, version: string)

  datatype Build = Build(version: Option<string>, newer: Option<string>)

  /** What a check in flight is waiting for. */
  datatype Stage =
    | ForTheShell                                // the module that knows the version
    | ForVersion(newer: Option<string>)          // with the build copied before the await
    | ForCheck
    | ForClose
    | ForFinally

  datatype World = World(
    native: bool,
    build: Build,
    held: Option<Handle>,
    taking: bool,
    looking: bool,
    offered: bool,
    flights: seq<Stage>,
    installs: seq<Handle>,
    // What ever happened, for the record.
    obtained: set<Handle>,
    closed: set<Handle>,
    dialogs: nat
  )

  datatype Found = Failed | Answered(handle: Option<Handle>)

  datatype Step =
    | Look
    | ShellAnswered(i: nat, there: bool)
    | VersionAnswered(i: nat, version: Option<string>)
    | CheckAnswered(i: nat, found: Found)
    | HandleClosed(i: nat)
    | Finally(i: nat)
    | Take
    | InstallEnded(i: nat)
    | Offer(newer: Option<string>)

  /** A handle not seen before: a check makes a new one. */
  predicate Unseen(w: World, h: Handle) {
    forall o :: o in w.obtained ==> o.id != h.id
  }

  predicate Enabled(w: World, step: Step) {
    match step
    case Look => true
    case ShellAnswered(i, _) => i < |w.flights| && w.flights[i].ForTheShell?
    case VersionAnswered(i, _) => i < |w.flights| && w.flights[i].ForVersion?
    case CheckAnswered(i, found) =>
      && i < |w.flights| && w.flights[i].ForCheck?
      && (found.Answered? && found.handle.Some? ==> Unseen(w, found.handle.value))
    case HandleClosed(i) => i < |w.flights| && w.flights[i].ForClose?
    case Finally(i) => i < |w.flights| && w.flights[i].ForFinally?
    case Take => true
    case InstallEnded(i) => i < |w.installs|
    case Offer(_) => true
  }

  function Started(w: World): Stage {
    if !w.native || w.taking then ForFinally
    else if w.build.version.None? then ForTheShell
    else ForCheck
  }

  function VersionOf(handle: Option<Handle>): Option<string> {
    match handle
    case None => None
    case Some(h) => Some(h.version)
  }

  function AsSet(handle: Option<Handle>): set<Handle> {
    match handle
    case None => {}
    case Some(h) => {h}
  }

  function Moved(w: World, i: nat, stage: Stage): World
    requires i < |w.flights|
  {
    w.(flights := w.flights[i := stage])
  }

  function Without<T>(s: seq<T>, i: nat): seq<T>
    requires i < |s|
  {
    s[..i] + s[i + 1..]
  }

  /** What the answer to a check does: nothing under an install but closing what was found. */
  function Answer(w: World, i: nat, handle: Option<Handle>): World
    requires i < |w.flights|
  {
    if w.taking then
      Moved(w, i, ForClose).(obtained := w.obtained + AsSet(handle), closed := w.closed + AsSet(handle))
    else
      Moved(w, i, ForFinally).(
        held := handle,
        build := w.build.(newer := VersionOf(handle)),
        obtained := w.obtained + AsSet(handle),
        closed := if w.held == handle then w.closed else w.closed + AsSet(w.held))
  }

  function Next(w: World, step: Step): World
    requires Enabled(w, step)
  {
    match step
    case Look => if w.looking then w else w.(looking := true, flights := w.flights + [Started(w)])
    case ShellAnswered(i, there) => Moved(w, i, if there then ForVersion(w.build.newer) else ForCheck)
    case VersionAnswered(i, version) =>
      if version.None? then Moved(w, i, ForCheck)
      else Moved(w, i, ForCheck).(build := Build(version, w.flights[i].newer))
    case CheckAnswered(i, found) => if found.Failed? then Moved(w, i, ForFinally) else Answer(w, i, found.handle)
    case HandleClosed(i) => Moved(w, i, ForFinally)
    case Finally(i) => w.(looking := false, flights := Without(w.flights, i))
    case Take => if w.held.None? then w else w.(taking := true, installs := w.installs + [w.held.value])
    case InstallEnded(i) => w.(taking := false, installs := Without(w.installs, i))
    case Offer(newer) =>
      if w.offered || newer.None? then w else w.(offered := true, dialogs := w.dialogs + 1)
  }

  // ---- runs -----------------------------------------------------------------------

  function Run(w: World, steps: seq<Step>): World
    decreases |steps|
  {
    if steps == [] then w
    else
      var before := Run(w, steps[..|steps| - 1]);
      var step := steps[|steps| - 1];
      if Enabled(before, step) then Next(before, step) else before
  }

  /** Whether nobody asks for an install while one is under way. */
  predicate OneInstallAtATime(w: World, steps: seq<Step>)
    decreases |steps|
  {
    steps == [] ||
    (OneInstallAtATime(w, steps[..|steps| - 1]) &&
     (steps[|steps| - 1].Take? ==> Run(w, steps[..|steps| - 1]).installs == []))
  }

  function Start(native: bool): World {
    World(native, Build(None, None), None, false, false, false, [], [], {}, {}, 0)
  }

  // ---- what holds in every run ---------------------------------------------------------

  /** One check at most, and every handle held or closed but never both. */
  predicate Owned(w: World) {
    && |w.flights| == (if w.looking then 1 else 0)
    && w.obtained == w.closed + AsSet(w.held)
    && (w.held.Some? ==> w.held.value !in w.closed)
    && w.build.newer == VersionOf(w.held)
    && (|w.flights| == 1 && w.flights[0].ForVersion? ==> w.flights[0].newer == w.build.newer)
    && w.dialogs == (if w.offered then 1 else 0)
  }

  /** The one install under way works on the handle that is held. */
  predicate Undisturbed(w: World) {
    && |w.installs| == (if w.taking then 1 else 0)
    && (w.taking ==> w.held == Some(w.installs[0]))
  }

  /** With or without overlapping installs. */
  lemma OwnedStays(w: World, step: Step)
    requires Enabled(w, step) && Owned(w)
    ensures Owned(Next(w, step))
  {
    if step.CheckAnswered? && step.found.Answered? && step.found.handle.Some? {
      assert step.found.handle.value !in w.obtained;
    }
  }

  lemma UndisturbedStays(w: World, step: Step)
    requires Enabled(w, step) && Undisturbed(w) && (step.Take? ==> w.installs == [])
    ensures Undisturbed(Next(w, step))
  {
    match step
    case InstallEnded(i) =>
      assert |w.installs| == 1 && i == 0;
      assert Without(w.installs, i) == [];
    case CheckAnswered(i, found) =>
    case _ =>
  }

  lemma {:induction false} EveryHandleIsOwned(native: bool, steps: seq<Step>)
    ensures Owned(Run(Start(native), steps))
    decreases |steps|
  {
    if steps != [] {
      EveryHandleIsOwned(native, steps[..|steps| - 1]);
      var before := Run(Start(native), steps[..|steps| - 1]);
      if Enabled(before, steps[|steps| - 1]) {
        OwnedStays(before, steps[|steps| - 1]);
      }
    }
  }

  /** The handle being installed is the one held, and it is not closed. */
  lemma {:induction false} AnInstallKeepsItsHandle(native: bool, steps: seq<Step>)
    requires OneInstallAtATime(Start(native), steps)
    ensures var w := Run(Start(native), steps);
            && |w.installs| <= 1
            && forall h :: h in w.installs ==> w.held == Some(h) && h !in w.closed
    ensures Undisturbed(Run(Start(native), steps))
    decreases |steps|
  {
    EveryHandleIsOwned(native, steps);
    if steps != [] {
      AnInstallKeepsItsHandle(native, steps[..|steps| - 1]);
      var before := Run(Start(native), steps[..|steps| - 1]);
      if Enabled(before, steps[|steps| - 1]) {
        UndisturbedStays(before, steps[|steps| - 1]);
      }
    }
  }

  /** The version the shell last told a check that asked. */
  function VersionTold(native: bool, steps: seq<Step>): Option<string>
    decreases |steps|
  {
    if steps == [] then None
    else
      var before, step := steps[..|steps| - 1], steps[|steps| - 1];
      if step.VersionAnswered? && step.version.Some? && Enabled(Run(Start(native), before), step) then step.version
      else VersionTold(native, before)
  }

  /** After any run the build shown is the version last told, and the newer one that of the handle held. */
  lemma {:induction false} TheBuildIsWhatWasTold(native: bool, steps: seq<Step>)
    ensures var w := Run(Start(native), steps);
            w.build == Build(VersionTold(native, steps), if w.held.Some? then Some(w.held.value.version) else None)
    decreases |steps|
  {
    EveryHandleIsOwned(native, steps);
    if steps != [] {
      var before, step := steps[..|steps| - 1], steps[|steps| - 1];
      TheBuildIsWhatWasTold(native, before);
      if Enabled(Run(Start(native), before), step) {
        OnlyAnAnswerTells(Run(Start(native), before), step);
      }
    }
  }

  lemma OnlyAnAnswerTells(w: World, step: Step)
    requires Enabled(w, step)
    ensures Next(w, step).build.version ==
            if step.VersionAnswered? && step.version.Some? then step.version else w.build.version
  {
  }

  lemma RunOn(w: World, steps: seq<Step>, step: Step)
    ensures Run(w, steps + [step]) == if Enabled(Run(w, steps), step) then Next(Run(w, steps), step) else Run(w, steps)
  {
    assert (steps + [step])[..|steps|] == steps;
  }

  // ---- one check, left alone -----------------------------------------------------------

  /** Whether a check asks anybody: only in the shell, and not under an install. */
  predicate Asks(w: World) {
    w.native && !w.taking
  }

  /** The world after a check that nothing interleaves with. */
  predicate Checked(w: World, after: World, there: bool, version: Option<string>, found: Found) {
    && after.flights == [] && !after.looking
    && after.build.version ==
       (if Asks(w) && w.build.version.None? && there && version.Some? then version else w.build.version)
    && after.held == (if Asks(w) && found.Answered? then found.handle else w.held)
    && after.obtained == (if Asks(w) && found.Answered? then w.obtained + AsSet(found.handle) else w.obtained)
    && after.taking == w.taking && after.installs == w.installs && after.dialogs == w.dialogs
  }

  lemma UpToTheCheck(w: World, there: bool, version: Option<string>) returns (steps: seq<Step>)
    requires w.flights == [] && !w.looking && Asks(w)
    ensures var after := Run(w, steps);
            after == w.(looking := true, flights := [ForCheck],
                        build := if w.build.version.None? && there && version.Some?
                                 then Build(version, w.build.newer) else w.build)
  {
    steps := [] + [Look];
    RunOn(w, [], Look);
    if w.build.version.None? {
      RunOn(w, steps, ShellAnswered(0, there));
      steps := steps + [ShellAnswered(0, there)];
      if there {
        RunOn(w, steps, VersionAnswered(0, version));
        steps := steps + [VersionAnswered(0, version)];
      }
    }
  }

  /**
   A check that nothing interleaves with asks for the version where it is not known
   and the shell is there, takes what it finds, leaves what it held when it fails, and
   ends; outside the shell, or under an install, it asks nobody.
   */
  lemma ACheckLeftAlone(w: World, there: bool, version: Option<string>, found: Found) returns (steps: seq<Step>)
    requires w.flights == [] && !w.looking
    requires found.Answered? && found.handle.Some? ==> Unseen(w, found.handle.value)
    ensures Checked(w, Run(w, steps), there, version, found)
  {
    if Asks(w) {
      steps := UpToTheCheck(w, there, version);
      RunOn(w, steps, CheckAnswered(0, found));
      steps := steps + [CheckAnswered(0, found)];
    } else {
      steps := [] + [Look];
      RunOn(w, [], Look);
    }
    RunOn(w, steps, Finally(0));
    steps := steps + [Finally(0)];
  }

  /** What a check finds once an install is under way is closed, and the check ends. */
  lemma AFindUnderAnInstallIsClosed(w: World, handle: Handle) returns (steps: seq<Step>)
    requires w.flights == [ForCheck] && w.taking && Unseen(w, handle)
    ensures Run(w, steps) ==
            w.(flights := [], looking := false, obtained := w.obtained + {handle}, closed := w.closed + {handle})
  {
    steps := [] + [CheckAnswered(0, Answered(Some(handle)))];
    RunOn(w, [], CheckAnswered(0, Answered(Some(handle))));
    RunOn(w, steps, HandleClosed(0));
    steps := steps + [HandleClosed(0)];
    RunOn(w, steps, Finally(0));
    steps := steps + [Finally(0)];
  }

  // ---- outside the shell, and offers -----------------------------------------------------

  /** Outside the shell no run ever asks for a version or a check, and nothing is found. */
  lemma {:induction false} OutsideTheShellNothingIsFound(steps: seq<Step>)
    ensures var w := Run(Start(false), steps);
            && !w.native && w.obtained == {} && w.held == None && w.build == Build(None, None)
            && forall i :: 0 <= i < |w.flights| ==> w.flights[i] == ForFinally
    decreases |steps|
  {
    if steps != [] {
      OutsideTheShellNothingIsFound(steps[..|steps| - 1]);
    }
  }

  /** A find is offered once in a run, exactly when one is there to offer. */
  lemma {:induction false} OfferedIff(native: bool, steps: seq<Step>)
    ensures Run(Start(native), steps).dialogs ==
            if exists k :: 0 <= k < |steps| && steps[k].Offer? && steps[k].newer.Some? then 1 else 0
    decreases |steps|
  {
    EveryHandleIsOwned(native, steps);
    if steps != [] {
      var front, step := steps[..|steps| - 1], steps[|steps| - 1];
      OfferedIff(native, front);
      EveryHandleIsOwned(native, front);
      assert forall k :: 0 <= k < |front| ==> steps[k] == front[k];
      assert steps[|front|] == step;
    }
  }

  /** A world of the shell with nothing offered and no version known. */
  function Plain(held: Option<Handle>, flights: seq<Stage>, installs: seq<Handle>, taking: bool,
                 obtained: set<Handle>, closed: set<Handle>): World {
    World(true, Build(None, VersionOf(held)), held, taking, flights != [], false, flights, installs,
          obtained, closed, 0)
  }

  lemma FoundOne(a: Handle) returns (steps: seq<Step>)
    ensures Run(Start(true), steps) == Plain(Some(a), [], [], false, {a}, {})
  {
    RunOn(Start(true), [], Look);
    var s1 := [] + [Look];
    assert Run(Start(true), s1) == Plain(None, [ForTheShell], [], false, {}, {});
    RunOn(Start(true), s1, ShellAnswered(0, false));
    var s2 := s1 + [ShellAnswered(0, false)];
    assert Run(Start(true), s2) == Plain(None, [ForCheck], [], false, {}, {});
    RunOn(Start(true), s2, CheckAnswered(0, Answered(Some(a))));
    var s3 := s2 + [CheckAnswered(0, Answered(Some(a)))];
    assert Run(Start(true), s3) == Plain(Some(a), [ForFinally], [], false, {a}, {});
    RunOn(Start(true), s3, Finally(0));
    steps := s3 + [Finally(0)];
  }

  lemma FirstOfTwoEnded(a: Handle) returns (steps: seq<Step>)
    ensures Run(Start(true), steps) == Plain(Some(a), [], [a], false, {a}, {})
  {
    var s4 := FoundOne(a);
    RunOn(Start(true), s4, Take);
    var s5 := s4 + [Take];
    assert Run(Start(true), s5) == Plain(Some(a), [], [a], true, {a}, {});
    RunOn(Start(true), s5, Take);
    var s6 := s5 + [Take];
    assert Run(Start(true), s6) == Plain(Some(a), [], [a, a], true, {a}, {});
    RunOn(Start(true), s6, InstallEnded(0));
    steps := s6 + [InstallEnded(0)];
    assert Without([a, a], 0) == [a];
  }

  /**
   Two installs at once take the guarantee away: when the first ends, a check is
   let through and closes the handle the second is still installing.
   */
  lemma TwoInstallsLoseTheHandle(a: Handle, b: Handle) returns (steps: seq<Step>)
    requires a.id != b.id
    ensures Run(Start(true), steps).installs == [a]
    ensures a in Run(Start(true), steps).closed && Run(Start(true), steps).held == Some(b)
  {
    var s7 := FirstOfTwoEnded(a);
    RunOn(Start(true), s7, Look);
    var s8 := s7 + [Look];
    assert Run(Start(true), s8) == Plain(Some(a), [ForTheShell], [a], false, {a}, {});
    RunOn(Start(true), s8, ShellAnswered(0, false));
    var s9 := s8 + [ShellAnswered(0, false)];
    assert Run(Start(true), s9) == Plain(Some(a), [ForCheck], [a], false, {a}, {});
    RunOn(Start(true), s9, CheckAnswered(0, Answered(Some(b))));
    steps := s9 + [CheckAnswered(0, Answered(Some(b)))];
  }

  // ---- when an install loses its handle ----------------------------------------------

  /** Every install under way works on the handle that is held, and it is not closed. */
  predicate Kept(w: World) {
    forall h :: h in w.installs ==> w.held == Some(h) && h !in w.closed
  }

  /** A check that finds nothing taking, though an install is still under way: an earlier one ended. */
  predicate LetThrough(w: World, step: Step) {
    step.CheckAnswered? && step.found.Answered? && !w.taking && w.installs != []
  }

  lemma CheckLosesIff(w: World, i: nat, found: Found)
    requires Enabled(w, CheckAnswered(i, found)) && Owned(w) && Kept(w)
    ensures !Kept(Next(w, CheckAnswered(i, found))) <==> LetThrough(w, CheckAnswered(i, found))
  {
    if LetThrough(w, CheckAnswered(i, found)) {
      var h := w.installs[0];
      assert h in w.installs && h in w.obtained;
    }
  }

  lemma OtherStepsKeep(w: World, step: Step)
    requires Enabled(w, step) && Owned(w) && Kept(w) && !step.CheckAnswered?
    ensures Kept(Next(w, step))
  {
    if step.InstallEnded? {
      assert forall h :: h in Without(w.installs, step.i) ==> h in w.installs;
    }
  }

  /** An install loses its handle in exactly one kind of step. */
  lemma StepLosesIff(w: World, step: Step)
    requires Enabled(w, step) && Owned(w) && Kept(w)
    ensures !Kept(Next(w, step)) <==> LetThrough(w, step)
  {
    if step.CheckAnswered? {
      CheckLosesIff(w, step.i, step.found);
    } else {
      OtherStepsKeep(w, step);
    }
  }

  /** Whether no install lost its handle at any point of a run. */
  predicate AlwaysKept(w: World, steps: seq<Step>)
    decreases |steps|
  {
    Kept(Run(w, steps)) && (steps == [] || AlwaysKept(w, steps[..|steps| - 1]))
  }

  /** Whether no check was ever let through while an install was under way. */
  predicate NeverLetThrough(w: World, steps: seq<Step>)
    decreases |steps|
  {
    steps == [] ||
    var before := Run(w, steps[..|steps| - 1]);
    var step := steps[|steps| - 1];
    NeverLetThrough(w, steps[..|steps| - 1]) && !(Enabled(before, step) && LetThrough(before, step))
  }

  /**
   Over every run, overlapping installs and all: each keeps its handle throughout
   exactly when no check is answered between the end of one install and the end of
   another that it overlaps.
   */
  lemma {:induction false} KeptIff(native: bool, steps: seq<Step>)
    ensures AlwaysKept(Start(native), steps) <==> NeverLetThrough(Start(native), steps)
    decreases |steps|
  {
    if steps != [] {
      var front, step := steps[..|steps| - 1], steps[|steps| - 1];
      var before := Run(Start(native), front);
      KeptIff(native, front);
      EveryHandleIsOwned(native, front);
      if AlwaysKept(Start(native), front) && Enabled(before, step) {
        assert Kept(before);
        StepLosesIff(before, step);
      }
    }
  }

  /** One install at a time never gets there. */
  lemma {:induction false} OneAtATimeIsNeverLetThrough(native: bool, steps: seq<Step>)
    requires OneInstallAtATime(Start(native), steps)
    ensures NeverLetThrough(Start(native), steps)
    decreases |steps|
  {
    if steps != [] {
      AnInstallKeepsItsHandle(native, steps[..|steps| - 1]);
      OneAtATimeIsNeverLetThrough(native, steps[..|steps| - 1]);
    }
  }

  // ---- the program -----------------------------------------------------------------------

  /** The module's variables, and the continuations its awaits left behind. */
  class Updater {
    const native: bool
    var build: Build
    var held: Option<Handle>
    var taking: bool
    var looking: bool
    var offered: bool
    var flights: seq<Stage>
    ghost var installs: seq<Handle>
    ghost var obtained: set<Handle>
    ghost var closed: set<Handle>
    ghost var dialogs: nat

    ghost function Now(): World
      reads this
    {
      World(native, build, held, taking, looking, offered, flights, installs, obtained, closed, dialogs)
    }

    constructor (native: bool)
      ensures Now() == Start(native)
    {
      this.native := native;
      build, held, taking, looking, offered := Build(None, None), None, false, false, false;
      flights, installs, obtained, closed, dialogs := [], [], {}, {}, 0;
    }

    method Settle(next: Build)
      modifies this`build
      ensures build == next
    {
      if next == build {
        return;
      }
      build := next;
    }

    method LookNow()
      modifies this
      ensures Now() == Next(old(Now()), Look)
    {
      if looking {
        return;
      }
      looking := true;
      var stage := ForCheck;
      if !native || taking {
        stage := ForFinally;
      } else if build.version.None? {
        stage := ForTheShell;
      }
      flights := flights + [stage];
    }

    method OnShell(i: nat, there: bool)
      requires Enabled(Now(), ShellAnswered(i, there))
      modifies this`flights
      ensures Now() == Next(old(Now()), ShellAnswered(i, there))
    {
      flights := flights[i := if there then ForVersion(build.newer) else ForCheck];
    }

    method OnVersion(i: nat, version: Option<string>)
      requires Enabled(Now(), VersionAnswered(i, version))
      modifies this
      ensures Now() == Next(old(Now()), VersionAnswered(i, version))
    {
      if version.Some? {
        Settle(Build(version, flights[i].newer));
      }
      flights := flights[i := ForCheck];
    }

    method OnCheck(i: nat, found: Option<Handle>)
      requires Enabled(Now(), CheckAnswered(i, Answered(found)))
      modifies this
      ensures Now() == Next(old(Now()), CheckAnswered(i, Answered(found)))
    {
      obtained := obtained + AsSet(found);
      if taking {
        closed := closed + AsSet(found);
        flights := flights[i := ForClose];
        return;
      }
      var was := held;
      held := found;
      if was.Some? && was != found {
        closed := closed + {was.value};
      }
      Settle(build.(newer := VersionOf(found)));
      flights := flights[i := ForFinally];
    }

    /** A check that failed changes nothing: what an earlier one found stands. */
    method OnCheckFailed(i: nat)
      requires Enabled(Now(), CheckAnswered(i, Failed))
      modifies this`flights
      ensures Now() == Next(old(Now()), CheckAnswered(i, Failed))
    {
      flights := flights[i := ForFinally];
    }

    /** The handle found under an install is closed. */
    method OnHandleClosed(i: nat)
      requires Enabled(Now(), HandleClosed(i))
      modifies this`flights
      ensures Now() == Next(old(Now()), HandleClosed(i))
    {
      flights := flights[i := ForFinally];
    }

    /** A check over, however it ended: another may start. */
    method OnFinally(i: nat)
      requires Enabled(Now(), Finally(i))
      modifies this`looking, this`flights
      ensures Now() == Next(old(Now()), Finally(i))
    {
      looking := false;
      flights := flights[..i] + flights[i + 1..];
    }

    /** An install over, however it ended. */
    method OnInstallEnded(ghost i: nat)
      requires Enabled(Now(), InstallEnded(i))
      modifies this`taking, this`installs
      ensures Now() == Next(old(Now()), InstallEnded(i))
    {
      taking := false;
      installs := installs[..i] + installs[i + 1..];
    }

    /** Take the update: refused when nothing is held. */
    method TakeUpdate() returns (started: bool)
      modifies this
      ensures Now() == Next(old(Now()), Take)
      ensures started <==> old(held).Some?
    {
      if held.None? {
        return false;
      }
      taking := true;
      installs := installs + [held.value];
      started := true;
    }

    method OfferUpdate(newer: Option<string>) returns (asked: bool)
      modifies this
      ensures Now() == Next(old(Now()), Offer(newer))
      ensures asked <==> !old(offered) && newer.Some?
    {
      if offered || newer.None? {
        return false;
      }
      offered := true;
      dialogs := dialogs + 1;
      asked := true;
    }
  }
}
