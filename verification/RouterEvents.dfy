/** Which descriptors are waited for: all that no worker has in hand, and no two workers have the same one in hand. */
module RouterEvents {
  import opened Router
  import opened RouterInvariant
  import opened RouterTheorems

  /** The worker handles an event of this backend connection. */
  predicate Tends(p: Position, unix: int) {
    ForBackend(p) && p.unix == unix
  }

  /** The connection is armed while nobody handles an event of it, and one worker at most does. */
  ghost predicate TendedAt(s: State, u: int) {
    && (u in s.armed ==> forall w: nat :: !Tends(At(s, w), u))
    && (u in s.armed || exists w: nat :: Tends(At(s, w), u))
    && (forall v: nat, w: nat :: Tends(At(s, v), u) && Tends(At(s, w), u) ==> v == w)
  }

  ghost predicate Tended(s: State) {
    forall u <- s.backend :: TendedAt(s, u)
  }

  /** What a step does to its worker and to the connections waited for. */
  predicate TakesUp(s: State, step: Step, s': State) {
    var p, p' := At(s, step.worker), At(s', step.worker);
    step.WakeUnix? && step.unix in s.armed && !ForBackend(p) && Tends(p', step.unix) && s'.armed == s.armed - {step.unix}
  }

  predicate GivesBack(s: State, step: Step, s': State) {
    var p, p' := At(s, step.worker), At(s', step.worker);
    ForBackend(p) && !ForBackend(p') && s'.armed == s.armed + {p.unix}
  }

  predicate GoesOn(s: State, step: Step, s': State) {
    var p, p' := At(s, step.worker), At(s', step.worker);
    s'.armed == s.armed && ForBackend(p) == ForBackend(p') && (ForBackend(p) ==> p.unix == p'.unix)
  }

  lemma Moves(s: State, step: Step)
    requires ShapeOk(s) && Enabled(s, step) && !Take(s, step).aborted && !step.LookupUnix?
    ensures var s' := Take(s, step); TakesUp(s, step, s') || GivesBack(s, step, s') || GoesOn(s, step, s')
  {
    hide Entries, Backed, PositionShape, Destination, PoolOf, TakeLookup;
    if Leases(step) {
    } else if Backends(step) {
      BackendMoves(s, step);
    } else {
      ReleaseMoves(s, step);
    }
  }

  lemma BackendMoves(s: State, step: Step)
    requires ShapeOk(s) && Enabled(s, step) && Backends(step) && !TakeBackend(s, step).aborted && !step.LookupUnix?
    ensures var s' := TakeBackend(s, step); TakesUp(s, step, s') || GivesBack(s, step, s') || GoesOn(s, step, s')
  {
    hide Entries, Backed, PositionShape, Destination, TakeLookup;
  }

  lemma ReleaseMoves(s: State, step: Step)
    requires ShapeOk(s) && Enabled(s, step) && !Leases(step) && !Backends(step)
    ensures GoesOn(s, step, TakeRelease(s, step))
  {
    hide Entries, Backed, PositionShape, Destination, PoolOf;
  }

  lemma TendedAfter(s: State, step: Step, s': State, u: int)
    requires TakesUp(s, step, s') || GivesBack(s, step, s') || GoesOn(s, step, s')
    requires OnlyMoves(s, s', step.worker) && TendedAt(s, u)
    ensures TendedAt(s', u)
  {
    hide At, ForBackend;
    var w := step.worker;
    assert forall v: nat :: v != w ==> At(s', v) == At(s, v);
    if u !in s.armed {
      var v: nat :| Tends(At(s, v), u);
      assert v != w ==> Tends(At(s', v), u);
    }
  }

  lemma TendedStep(s: State, step: Step)
    requires ShapeOk(s) && Enabled(s, step) && !Take(s, step).aborted && !step.LookupUnix? && Tended(s)
    ensures Tended(Take(s, step))
  {
    hide ShapeOk, Enabled, Take, TendedAt, TakesUp, GivesBack, GoesOn, OnlyMoves;
    Moves(s, step);
    OthersStay(s, step);
    forall u | u in s.backend ensures TendedAt(Take(s, step), u) {
      TendedAfter(s, step, Take(s, step), u);
    }
  }

  lemma NobodyTends(first: seq<int>, second: seq<int>)
    requires DistinctFds(first, second)
    ensures Tended(Initial(first, second))
  {
    hide Filled, IndexIn, DistinctFds;
    var s := Initial(first, second);
    assert forall w: nat :: At(s, w).Waiting?;
  }

  lemma {:induction false} ExecutionTended(first: seq<int>, second: seq<int>, trace: seq<State>, steps: seq<Step>, i: nat)
    requires TimelyExecution(first, second, trace, steps) && i <= |steps| && !trace[i].aborted
    ensures Tended(trace[i])
  {
    hide Inv, Tended, Enabled, Take, Initial;
    if i == 0 {
      NobodyTends(first, second);
    } else {
      var s, step := trace[i - 1], steps[i - 1];
      assert Follows(s, step, trace[i]);
      EnabledAlive(s, step);
      ExecutionTended(first, second, trace, steps, i - 1);
      ExecutionInvariant(first, second, trace, steps, i - 1);
      if step.LookupUnix? {
        FatalAborts(s, step);
      }
      TendedStep(s, step);
    }
  }

  /**
   * While the process lives, a backend connection is waited for if and only if no worker handles an event
   * of it, a client if and only if its descriptor is open and no worker has it in hand; and never do two
   * workers handle the same descriptor.
   */
  lemma EventsAreWaitedFor(first: seq<int>, second: seq<int>, trace: seq<State>, steps: seq<Step>, i: nat)
    requires TimelyExecution(first, second, trace, steps) && i <= |steps| && !trace[i].aborted
    ensures var s := trace[i];
            && (forall u <- s.backend :: u in s.armed <==> forall w: nat :: !Tends(At(s, w), u))
            && (forall fd :: fd in s.registered <==> fd in s.open && forall w: nat :: !ServesClient(At(s, w), fd))
            && (forall u <- s.backend, v: nat, w: nat :: Tends(At(s, v), u) && Tends(At(s, w), u) ==> v == w)
            && (forall fd, v: nat, w: nat :: ServesClient(At(s, v), fd) && ServesClient(At(s, w), fd) ==> v == w)
  {
    hide Enabled, Take, Initial;
    ExecutionInvariant(first, second, trace, steps, i);
    ExecutionTended(first, second, trace, steps, i);
    ClientsWaitedFor(trace[i]);
  }

  lemma ClientsWaitedFor(s: State)
    requires Inv(s)
    ensures forall fd :: fd in s.registered <==> fd in s.open && forall w: nat :: !ServesClient(At(s, w), fd)
    ensures forall fd, v: nat, w: nat :: ServesClient(At(s, v), fd) && ServesClient(At(s, w), fd) ==> v == w
  {
    hide WorkersOk, PlacesOk, IndicesOk, RegisteredOk;
    forall fd ensures fd in s.registered <==> fd in s.open && forall w: nat :: !ServesClient(At(s, w), fd) {
      if fd in s.open && fd !in s.registered {
        assert Served(s, fd);
        var w: nat :| w in s.workers && ServesClient(s.workers[w], fd);
        assert ServesClient(At(s, w), fd);
      }
    }
  }

  // ----- Data and the end of the stream in one read -----

  lemma {:induction false} PositionStays(first: seq<int>, second: seq<int>, trace: seq<State>, steps: seq<Step>, w: nat, i: nat, j: nat)
    requires Execution(first, second, trace, steps) && i <= j <= |steps|
    requires forall k :: i <= k < j ==> steps[k].worker != w
    ensures At(trace[j], w) == At(trace[i], w)
    decreases j
  {
    hide Enabled, Take, Initial, DistinctFds;
    if i < j {
      PositionStays(first, second, trace, steps, w, i, j - 1);
      assert Follows(trace[j - 1], steps[j - 1], trace[j]);
      OthersStay(trace[j - 1], steps[j - 1]);
    }
  }

  lemma DoomedAfter(s: State, step: Step)
    requires ShapeOk(s) && Enabled(s, step) && (step.DataAndEnd? || step.DataAndEndUnix?)
    ensures At(Take(s, step), step.worker).Doomed?
  {
    hide Entries, Backed, PositionShape;
  }

  lemma DoomedFails(s: State, step: Step)
    requires ShapeOk(s) && Enabled(s, step) && At(s, step.worker).Doomed?
    ensures step.FailCheck? && Take(s, step).aborted
  {
    hide Entries, Backed, PositionShape;
  }

  /** When data and the end of a stream come in one read, the next thing this worker does ends the process. */
  lemma DataAndEndIsFatal(first: seq<int>, second: seq<int>, trace: seq<State>, steps: seq<Step>, i: nat, j: nat)
    requires Execution(first, second, trace, steps) && i < j < |steps|
    requires steps[i].DataAndEnd? || steps[i].DataAndEndUnix?
    requires steps[j].worker == steps[i].worker && forall k :: i < k < j ==> steps[k].worker != steps[i].worker
    ensures steps[j].FailCheck? && trace[j + 1].aborted && j + 1 == |steps|
  {
    hide ShapeOk, Enabled, Take, Initial, DistinctFds;
    assert Follows(trace[i], steps[i], trace[i + 1]);
    DoomedAfter(trace[i], steps[i]);
    PositionStays(first, second, trace, steps, steps[i].worker, i + 1, j);
    assert Follows(trace[j], steps[j], trace[j + 1]);
    DoomedFails(trace[j], steps[j]);
    if j + 1 < |steps| {
      assert Follows(trace[j + 1], steps[j + 1], trace[j + 2]);
      EnabledAlive(trace[j + 1], steps[j + 1]);
    }
  }
}
