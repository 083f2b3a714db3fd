/**
 * Where replies end up.  A reply is destined for a descriptor at its lookup and written to it later,
 * and by then the descriptor may be closed, or another client's.  Clients are told apart by the step
 * at which they were accepted, descriptors being used again.
 */
module RouterDeliveries {
  import opened Router
  import opened RouterInvariant
  import opened RouterPreservation
  import opened RouterTheorems

  // ----- Clients and their descriptors -----

  /** The latest step before `i` that accepted a client on this descriptor, or -1. */
  function AcceptOf(steps: seq<Step>, i: nat, fd: int): (a: int)
    requires i <= |steps|
    ensures -1 <= a < i
    ensures a >= 0 ==> steps[a].Accept? && steps[a].fd == fd
  {
    if i == 0 then -1
    else if steps[i - 1].Accept? && steps[i - 1].fd == fd then i - 1
    else AcceptOf(steps, i - 1, fd)
  }

  /** The client holding a descriptor before step `i`: the step that accepted it, or -1 when the descriptor is closed. */
  function ClientAt(trace: seq<State>, steps: seq<Step>, i: nat, fd: int): int
    requires i < |trace| && i <= |steps|
  {
    if fd in trace[i].open then AcceptOf(steps, i, fd) else -1
  }

  /** The step closes this descriptor. */
  predicate Closes(s: State, step: Step, fd: int) {
    step.Close? && At(s, step.worker).Published? && At(s, step.worker).fd == fd
  }

  /** The step takes the connection away from its client: the first assignment of a release. */
  predicate Releases(s: State, step: Step, unix: int) {
    step.UnlinkUnix? && At(s, step.worker).Unlinking? && At(s, step.worker).unix == unix
  }

  ghost predicate ClosedBetween(trace: seq<State>, steps: seq<Step>, j: nat, i: nat, fd: int)
    requires i <= |steps| < |trace|
  {
    exists k :: j <= k < i && Closes(trace[k], steps[k], fd)
  }

  ghost predicate ReleasedBetween(trace: seq<State>, steps: seq<Step>, j: nat, i: nat, unix: int)
    requires i <= |steps| < |trace|
  {
    exists k :: j <= k < i && Releases(trace[k], steps[k], unix)
  }

  lemma OpenStep(s: State, step: Step, fd: int)
    requires ShapeOk(s) && Enabled(s, step)
    ensures step.Accept? && step.fd == fd ==> fd !in s.open && fd in Take(s, step).open
    ensures Closes(s, step, fd) ==> fd !in Take(s, step).open
    ensures !(step.Accept? && step.fd == fd) && !Closes(s, step, fd) ==> (fd in Take(s, step).open <==> fd in s.open)
  {
    hide ShapeOk, TakeLease, TakeRelease, TakeBackend;
  }

  lemma ClientStep(trace: seq<State>, steps: seq<Step>, i: nat, fd: int)
    requires |trace| == |steps| + 1 && i < |steps| && Follows(trace[i], steps[i], trace[i + 1])
    ensures ClientAt(trace, steps, i + 1, fd)
         == if steps[i].Accept? && steps[i].fd == fd then i
            else if Closes(trace[i], steps[i], fd) then -1
            else ClientAt(trace, steps, i, fd)
    ensures steps[i].Accept? && steps[i].fd == fd ==> ClientAt(trace, steps, i, fd) == -1
  {
    hide ShapeOk, Enabled, Take;
    OpenStep(trace[i], steps[i], fd);
  }

  /** A client that has lost its descriptor never gets it back. */
  lemma {:induction false} GoneForGood(trace: seq<State>, steps: seq<Step>, j: nat, i: nat, fd: int, client: nat)
    requires |trace| == |steps| + 1 && j <= i <= |steps| && client < j
    requires forall k :: j <= k < i ==> Follows(trace[k], steps[k], trace[k + 1])
    requires ClientAt(trace, steps, j, fd) != client
    ensures ClientAt(trace, steps, i, fd) != client
  {
    hide Follows, ClientAt, Closes;
    if j < i {
      GoneForGood(trace, steps, j, i - 1, fd, client);
      assert Follows(trace[i - 1], steps[i - 1], trace[i]);
      ClientStep(trace, steps, i - 1, fd);
    }
  }

  lemma {:induction false} StillHolds(trace: seq<State>, steps: seq<Step>, j: nat, i: nat, fd: int)
    requires |trace| == |steps| + 1 && j <= i <= |steps| && ClientAt(trace, steps, j, fd) >= 0
    requires forall k :: j <= k < i ==> Follows(trace[k], steps[k], trace[k + 1])
    requires !ClosedBetween(trace, steps, j, i, fd)
    ensures ClientAt(trace, steps, i, fd) == ClientAt(trace, steps, j, fd)
  {
    hide Follows, ClientAt, Closes;
    if j < i {
      StillHolds(trace, steps, j, i - 1, fd);
      assert Follows(trace[i - 1], steps[i - 1], trace[i]);
      ClientStep(trace, steps, i - 1, fd);
      assert !Closes(trace[i - 1], steps[i - 1], fd);
    }
  }

  /** A client keeps its descriptor until it is closed, and no longer. */
  lemma HoldsUntilClosed(trace: seq<State>, steps: seq<Step>, j: nat, i: nat, fd: int)
    requires |trace| == |steps| + 1 && j <= i <= |steps| && ClientAt(trace, steps, j, fd) >= 0
    requires forall k :: j <= k < i ==> Follows(trace[k], steps[k], trace[k + 1])
    ensures ClientAt(trace, steps, i, fd) == ClientAt(trace, steps, j, fd) <==> !ClosedBetween(trace, steps, j, i, fd)
  {
    hide Follows, Closes;
    if ClosedBetween(trace, steps, j, i, fd) {
      var k :| j <= k < i && Closes(trace[k], steps[k], fd);
      assert Follows(trace[k], steps[k], trace[k + 1]);
      ClosedHasNone(trace, steps, k, fd);
      GoneForGood(trace, steps, k + 1, i, fd, ClientAt(trace, steps, j, fd));
    } else {
      StillHolds(trace, steps, j, i, fd);
    }
  }

  lemma ClosedHasNone(trace: seq<State>, steps: seq<Step>, k: nat, fd: int)
    requires |trace| == |steps| + 1 && k < |steps| && Follows(trace[k], steps[k], trace[k + 1])
    requires Closes(trace[k], steps[k], fd)
    ensures ClientAt(trace, steps, k + 1, fd) == -1
  {
    hide ShapeOk, Enabled, Take;
    OpenStep(trace[k], steps[k], fd);
  }

  lemma {:induction false} OpenWasAccepted(trace: seq<State>, steps: seq<Step>, first: seq<int>, second: seq<int>, i: nat, fd: int)
    requires Execution(first, second, trace, steps) && i <= |steps| && fd in trace[i].open
    ensures ClientAt(trace, steps, i, fd) >= 0
  {
    hide Initial, Take, Enabled, ShapeOk;
    if i == 0 {
      NobodyYet(first, second);
    } else {
      assert Follows(trace[i - 1], steps[i - 1], trace[i]);
      OpenStep(trace[i - 1], steps[i - 1], fd);
      if fd in trace[i - 1].open {
        OpenWasAccepted(trace, steps, first, second, i - 1, fd);
      }
    }
  }

  lemma NobodyYet(first: seq<int>, second: seq<int>)
    requires DistinctFds(first, second)
    ensures Initial(first, second).open == {}
  {
  }

  // ----- Leases that last, and leases that end -----

  /** Only its release takes a connection away from its client. */
  lemma LeaseStep(s: State, step: Step, fd: int, unix: int)
    requires Inv(s) && Enabled(s, step) && !Fatal(s, step)
    requires ValidFd(unix) && IsClientOf(s, fd, unix) && !Releases(s, step, unix)
    ensures ShapeOk(Take(s, step)) && IsClientOf(Take(s, step), fd, unix)
  {
    hide FdsOk, WorkersOk, PlacesOk, IndicesOk, Enabled, Fatal, TakeLease, TakeRelease, TakeBackend, Releases;
    ShapeKeeps(s, step);
    if Leases(step) {
      LinkLeaves(s, step, fd, unix);
    } else if Backends(step) {
      BackendLeaves(s, step, fd, unix);
    } else {
      ReleaseLeaves(s, step, fd, unix);
    }
  }

  lemma LinkLeaves(s: State, step: Step, fd: int, unix: int)
    requires Inv(s) && Enabled(s, step) && Leases(step) && ShapeOk(TakeLease(s, step))
    requires ValidFd(unix) && IsClientOf(s, fd, unix)
    ensures IsClientOf(TakeLease(s, step), fd, unix)
  {
    hide FdsOk, PlacesOk, IndicesOk, Entries, Backed;
    assert step.worker in s.workers ==> WorkerOk(s, step.worker, s.workers[step.worker]);
  }

  lemma ReleaseLeaves(s: State, step: Step, fd: int, unix: int)
    requires Inv(s) && Enabled(s, step) && !Leases(step) && !Backends(step) && ShapeOk(TakeRelease(s, step))
    requires ValidFd(unix) && IsClientOf(s, fd, unix) && !Releases(s, step, unix)
    ensures IsClientOf(TakeRelease(s, step), fd, unix)
  {
    hide FdsOk, PlacesOk, IndicesOk, Entries, Backed;
    assert step.worker in s.workers ==> WorkerOk(s, step.worker, s.workers[step.worker]);
  }

  lemma BackendLeaves(s: State, step: Step, fd: int, unix: int)
    requires Inv(s) && Enabled(s, step) && Backends(step) && !Fatal(s, step) && ShapeOk(TakeBackend(s, step))
    requires ValidFd(unix) && IsClientOf(s, fd, unix)
    ensures IsClientOf(TakeBackend(s, step), fd, unix)
  {
    hide FdsOk, WorkersOk, PlacesOk, IndicesOk, Entries, Backed;
  }

  lemma ClientIsOpen(s: State, fd: int, unix: int)
    requires Inv(s) && ValidFd(unix) && IsClientOf(s, fd, unix)
    ensures fd in s.open
  {
  }

  lemma Alive(first: seq<int>, second: seq<int>, trace: seq<State>, steps: seq<Step>, k: nat)
    requires TimelyExecution(first, second, trace, steps) && k < |steps|
    ensures Inv(trace[k]) && Enabled(trace[k], steps[k]) && Timely(trace[k], steps[k]) && trace[k + 1] == Take(trace[k], steps[k])
    ensures Fatal(trace[k], steps[k]) <==> trace[k + 1].aborted
  {
    hide FdsOk, WorkersOk, PlacesOk, IndicesOk, Enabled, Take, Fatal, Timely;
    ExecutionInvariant(first, second, trace, steps, k);
    assert Follows(trace[k], steps[k], trace[k + 1]) && Timely(trace[k], steps[k]);
    EnabledAlive(trace[k], steps[k]);
    AbortsExactly(first, second, trace, steps, k);
  }

  /** While it is not released, a lease stays, and with it the client's descriptor. */
  lemma {:induction false} LeaseLasts(first: seq<int>, second: seq<int>, trace: seq<State>, steps: seq<Step>,
                                      j: nat, i: nat, fd: int, unix: int)
    requires TimelyExecution(first, second, trace, steps) && j <= i <= |steps| && !trace[i].aborted
    requires Inv(trace[j]) && ValidFd(unix) && IsClientOf(trace[j], fd, unix)
    requires !ReleasedBetween(trace, steps, j, i, unix)
    ensures Inv(trace[i]) && IsClientOf(trace[i], fd, unix)
    ensures ClientAt(trace, steps, i, fd) == ClientAt(trace, steps, j, fd)
  {
    hide Inv, Enabled, Take, Fatal, Timely, Releases, IsClientOf;
    ExecutionInvariant(first, second, trace, steps, i);
    if j < i {
      var s, step := trace[i - 1], steps[i - 1];
      Alive(first, second, trace, steps, i - 1);
      EnabledAlive(s, step);
      LeaseLasts(first, second, trace, steps, j, i - 1, fd, unix);
      LeaseStep(s, step, fd, unix);
      ClientIsOpen(s, fd, unix);
      ClientIsOpen(trace[i], fd, unix);
      OpenStep(s, step, fd);
      ClientStep(trace, steps, i - 1, fd);
    }
  }

  predicate Departs(p: Position, fd: int) {
    (p.HalfUnlinked? || p.Unlinked? || p.Pushing? || p.Published?) && p.fd == fd
  }

  /** A worker is past the first assignment of this descriptor's release. */
  ghost predicate Leaving(s: State, fd: int) {
    exists w :: w in s.workers && Departs(s.workers[w], fd)
  }

  lemma LeavingHasNoLease(s: State, fd: int, unix: int)
    requires Inv(s) && Leaving(s, fd) && ValidFd(unix)
    ensures !IsClientOf(s, fd, unix)
  {
    hide FdsOk, PlacesOk, IndicesOk;
    var w :| w in s.workers && Departs(s.workers[w], fd);
    assert WorkerOk(s, w, s.workers[w]);
  }

  lemma DepartingStep(s: State, step: Step, fd: int)
    requires ShapeOk(s) && Enabled(s, step) && step.worker in s.workers && Departs(s.workers[step.worker], fd)
    ensures Take(s, step).aborted || Closes(s, step, fd)
         || (step.worker in Take(s, step).workers && Departs(Take(s, step).workers[step.worker], fd))
  {
    hide Entries, Backed, PositionShape, PoolOf, TakeLease, TakeBackend;
  }

  lemma LeavingStep(s: State, step: Step, fd: int)
    requires ShapeOk(s) && Enabled(s, step) && Leaving(s, fd)
    ensures Take(s, step).aborted || Closes(s, step, fd) || Leaving(Take(s, step), fd)
  {
    hide ShapeOk, Enabled, Take, Departs;
    var w :| w in s.workers && Departs(s.workers[w], fd);
    if w == step.worker {
      DepartingStep(s, step, fd);
    } else {
      OthersStay(s, step);
    }
  }

  /** The client has lost its lease, and has lost its descriptor or is about to. */
  ghost predicate Departed(trace: seq<State>, steps: seq<Step>, i: nat, fd: int, client: nat)
    requires i < |trace| && i <= |steps|
  {
    ClientAt(trace, steps, i, fd) != client || Leaving(trace[i], fd)
  }

  lemma DepartedStep(first: seq<int>, second: seq<int>, trace: seq<State>, steps: seq<Step>, i: nat, fd: int, client: nat)
    requires TimelyExecution(first, second, trace, steps) && i < |steps| && !trace[i + 1].aborted && client < i
    requires Departed(trace, steps, i, fd, client)
    ensures Departed(trace, steps, i + 1, fd, client)
  {
    hide Inv, Enabled, Take, Fatal, Timely, Closes, Leaving, ClientAt;
    Alive(first, second, trace, steps, i);
    ClientStep(trace, steps, i, fd);
    if Leaving(trace[i], fd) {
      LeavingStep(trace[i], steps[i], fd);
    }
  }

  lemma ReleaseDeparts(s: State, step: Step, fd: int, unix: int)
    requires Inv(s) && Enabled(s, step) && Releases(s, step, unix) && ValidFd(unix) && IsClientOf(s, fd, unix)
    ensures Leaving(Take(s, step), fd)
  {
    hide FdsOk, PlacesOk, IndicesOk, TakeLease, TakeBackend;
    assert WorkerOk(s, step.worker, s.workers[step.worker]);
    assert Departs(Take(s, step).workers[step.worker], fd);
  }

  /** Once its lease is released, a client never has one again. */
  lemma {:induction false} ReleasedDeparted(first: seq<int>, second: seq<int>, trace: seq<State>, steps: seq<Step>,
                                            j: nat, i: nat, fd: int, unix: int)
    requires TimelyExecution(first, second, trace, steps) && j <= i <= |steps| && !trace[i].aborted
    requires Inv(trace[j]) && ValidFd(unix) && IsClientOf(trace[j], fd, unix) && ClientAt(trace, steps, j, fd) >= 0
    requires ReleasedBetween(trace, steps, j, i, unix)
    ensures Departed(trace, steps, i, fd, ClientAt(trace, steps, j, fd))
  {
    hide Inv, Enabled, Take, Fatal, Timely, Releases, IsClientOf, Departed;
    Alive(first, second, trace, steps, i - 1);
    EnabledAlive(trace[i - 1], steps[i - 1]);
    if ReleasedBetween(trace, steps, j, i - 1, unix) {
      ReleasedDeparted(first, second, trace, steps, j, i - 1, fd, unix);
      DepartedStep(first, second, trace, steps, i - 1, fd, ClientAt(trace, steps, j, fd));
    } else {
      LeaseLasts(first, second, trace, steps, j, i - 1, fd, unix);
      ReleaseDeparts(trace[i - 1], steps[i - 1], fd, unix);
      LeavingIsDeparted(trace, steps, i, fd, ClientAt(trace, steps, j, fd));
    }
  }

  lemma LeavingIsDeparted(trace: seq<State>, steps: seq<Step>, i: nat, fd: int, client: nat)
    requires i < |trace| && i <= |steps| && Leaving(trace[i], fd)
    ensures Departed(trace, steps, i, fd, client)
  {
  }

  /** A client and its lease: both there, exactly while the lease is not released. */
  lemma LeaseOrNot(first: seq<int>, second: seq<int>, trace: seq<State>, steps: seq<Step>, j: nat, i: nat, fd: int, unix: int)
    requires TimelyExecution(first, second, trace, steps) && j <= i <= |steps| && !trace[i].aborted
    requires Inv(trace[j]) && ValidFd(unix) && IsClientOf(trace[j], fd, unix)
    ensures ClientAt(trace, steps, j, fd) >= 0 && Inv(trace[i])
    ensures IsClientOf(trace[i], fd, unix) && ClientAt(trace, steps, i, fd) == ClientAt(trace, steps, j, fd)
       <==> !ReleasedBetween(trace, steps, j, i, unix)
  {
    hide Inv, IsClientOf, ReleasedBetween;
    ExecutionInvariant(first, second, trace, steps, i);
    ClientIsOpen(trace[j], fd, unix);
    OpenWasAccepted(trace, steps, first, second, j, fd);
    if ReleasedBetween(trace, steps, j, i, unix) {
      ReleasedDeparted(first, second, trace, steps, j, i, fd, unix);
      if Leaving(trace[i], fd) {
        LeavingHasNoLease(trace[i], fd, unix);
      }
    } else {
      LeaseLasts(first, second, trace, steps, j, i, fd, unix);
    }
  }

  // ----- From the lookup to the write -----

  /** Worker `w` looked up the destination at step `j` and has taken no step since. */
  predicate LookedUp(steps: seq<Step>, j: nat, i: nat, w: nat)
    requires i <= |steps|
  {
    j < i && steps[j] == RouteUnix(w) && forall k :: j < k < i ==> steps[k].worker != w
  }

  lemma BecomesRelaying(s: State, step: Step, unix: int, fd: int)
    requires ShapeOk(s) && Enabled(s, step)
    requires At(Take(s, step), step.worker) == Relaying(unix, fd) && !Take(s, step).aborted
    ensures step.RouteUnix? && At(s, step.worker) == WokenUnix(unix) && Destination(s, unix) == fd
  {
    hide ShapeOk, Enabled, TakeLease, TakeRelease, TakeBackend, Destination;
    if Leases(step) {
      LeaseIsNoRelay(s, step);
    } else if Backends(step) {
      OnlyRouteRelays(s, step);
    } else {
      ReleaseIsNoRelay(s, step);
    }
  }

  lemma LeaseIsNoRelay(s: State, step: Step)
    requires ShapeOk(s) && Enabled(s, step) && Leases(step)
    ensures TakeLease(s, step).aborted || !At(TakeLease(s, step), step.worker).Relaying?
  {
    hide Entries, Backed, PositionShape, SlotRead;
  }

  lemma ReleaseIsNoRelay(s: State, step: Step)
    requires ShapeOk(s) && Enabled(s, step) && !Leases(step) && !Backends(step)
    ensures TakeRelease(s, step).aborted || !At(TakeRelease(s, step), step.worker).Relaying?
  {
    hide Entries, Backed, PositionShape, Destination, PoolOf;
  }

  lemma OnlyRouteRelays(s: State, step: Step)
    requires ShapeOk(s) && Enabled(s, step) && Backends(step)
    ensures var p := At(TakeBackend(s, step), step.worker);
            TakeBackend(s, step).aborted || !p.Relaying?
            || (step.RouteUnix? && At(s, step.worker) == WokenUnix(p.unix) && Destination(s, p.unix) == p.client)
  {
    hide Entries, Backed, Destination;
  }

  lemma {:induction false} LookupBefore(first: seq<int>, second: seq<int>, trace: seq<State>, steps: seq<Step>, i: nat, w: nat)
    returns (j: nat)
    requires TimelyExecution(first, second, trace, steps) && i < |steps| && At(trace[i], w).Relaying?
    ensures LookedUp(steps, j, i, w) && Inv(trace[j]) && At(trace[j], w) == WokenUnix(At(trace[i], w).unix)
    ensures var p := At(trace[i], w);
            ValidFd(p.unix) && p.unix in trace[j].backend && Destination(trace[j], p.unix) == p.client
  {
    hide Inv, Enabled, Take, Fatal, Timely, Destination, Initial;
    if i == 0 {
      NobodyAtWork(first, second, w);
    } else {
      var s, step := trace[i - 1], steps[i - 1];
      Alive(first, second, trace, steps, i - 1);
      Alive(first, second, trace, steps, i);
      EnabledAlive(trace[i], steps[i]);
      InvariantShape(s);
      if step.worker == w {
        j := i - 1;
        BecomesRelaying(s, step, At(trace[i], w).unix, At(trace[i], w).client);
        WokenIsBackend(s, w);
      } else {
        OthersStay(s, step);
        j := LookupBefore(first, second, trace, steps, i - 1, w);
      }
    }
  }

  lemma InvariantShape(s: State)
    requires Inv(s)
    ensures ShapeOk(s)
  {
  }

  lemma NobodyAtWork(first: seq<int>, second: seq<int>, w: nat)
    requires DistinctFds(first, second)
    ensures At(Initial(first, second), w).Waiting?
  {
  }

  lemma WokenIsBackend(s: State, w: nat)
    requires Inv(s) && At(s, w).WokenUnix?
    ensures At(s, w).unix in s.backend && ValidFd(At(s, w).unix)
  {
    assert WorkerOk(s, w, s.workers[w]);
  }

  lemma LookupFindsClient(s: State, w: nat)
    requires Inv(s) && At(s, w).WokenUnix?
    ensures var unix := At(s, w).unix;
            && unix in s.backend && ValidFd(unix)
            && (Destination(s, unix) != -1 ==> IsClientOf(s, Destination(s, unix), unix))
            && forall fd :: IsClientOf(s, fd, unix) ==> fd == Destination(s, unix)
  {
    hide IndicesOk;
    WokenIsBackend(s, w);
    var unix := At(s, w).unix;
    ClientIsDestination(s, unix);
    if s.unixToTcp[unix] != -1 {
      EntryOfConnection(s, s.unixToTcp[unix], unix);
    }
  }

  /**
   * What is written to a client's descriptor was looked up at an earlier step `j`, for the client the
   * connection was leased to then.  At the write the connection is still leased to that client exactly
   * when it has not been released since; and the descriptor is still that client's exactly when it has
   * not been closed since.
   */
  lemma DeliveryFollowsTheLease(first: seq<int>, second: seq<int>, trace: seq<State>, steps: seq<Step>, i: nat)
    returns (j: nat)
    requires TimelyExecution(first, second, trace, steps) && i < |steps| && steps[i].Deliver?
    ensures At(trace[i], steps[i].worker).Relaying?
    ensures LookedUp(steps, j, i, steps[i].worker) && Inv(trace[j]) && Inv(trace[i])
    ensures var p := At(trace[i], steps[i].worker);
            && ValidFd(p.unix) && IsClientOf(trace[j], p.client, p.unix)
            && ClientAt(trace, steps, j, p.client) >= 0
            && (IsClientOf(trace[i], p.client, p.unix) && ClientAt(trace, steps, i, p.client) == ClientAt(trace, steps, j, p.client)
                <==> !ReleasedBetween(trace, steps, j, i, p.unix))
            && (ClientAt(trace, steps, i, p.client) == ClientAt(trace, steps, j, p.client)
                <==> !ClosedBetween(trace, steps, j, i, p.client))
  {
    hide Inv, Take, Fatal, Timely, Destination, IsClientOf, ReleasedBetween, ClosedBetween, ClientAt;
    Alive(first, second, trace, steps, i);
    EnabledAlive(trace[i], steps[i]);
    var w := steps[i].worker;
    RelayingToDeliver(trace[i], w);
    j := LookupBefore(first, second, trace, steps, i, w);
    LookupFindsClient(trace[j], w);
    var p := At(trace[i], w);
    LeaseOrNot(first, second, trace, steps, j, i, p.client, p.unix);
    HoldsUntilClosed(trace, steps, j, i, p.client);
  }

  lemma RelayingToDeliver(s: State, w: nat)
    requires ShapeOk(s) && Enabled(s, Deliver(w))
    ensures At(s, w).Relaying? && ValidFd(At(s, w).client)
  {
  }

  // ----- From the request to the reply -----

  /** Step `q` writes a client's request to connection `unix`. */
  predicate Requests(trace: seq<State>, steps: seq<Step>, q: nat, unix: int) {
    && q < |steps| && q < |trace| && steps[q].Forward?
    && At(trace[q], steps[q].worker).Serving? && At(trace[q], steps[q].worker).unix == unix
  }

  /** The client whose request step `q` writes. */
  function AskerAt(trace: seq<State>, steps: seq<Step>, q: nat): int
    requires q < |steps| && q < |trace| && At(trace[q], steps[q].worker).Serving?
  {
    ClientAt(trace, steps, q, At(trace[q], steps[q].worker).fd)
  }

  lemma AskerHasTheLease(s: State, w: nat)
    requires Inv(s) && At(s, w).Serving?
    ensures ValidFd(At(s, w).unix) && IsClientOf(s, At(s, w).fd, At(s, w).unix)
  {
    assert WorkerOk(s, w, s.workers[w]);
  }

  lemma DifferentFds(trace: seq<State>, steps: seq<Step>, j: nat, i: nat, fd: int, other: int)
    requires i < |trace| && j < |trace| && i <= |steps| && j <= |steps| && fd != other && ClientAt(trace, steps, j, fd) >= 0
    ensures ClientAt(trace, steps, i, other) != ClientAt(trace, steps, j, fd)
  {
  }

  lemma OneLookup(steps: seq<Step>, j: nat, k: nat, i: nat, w: nat)
    requires i <= |steps| && LookedUp(steps, j, i, w) && LookedUp(steps, k, i, w)
    ensures j == k
  {
  }

  lemma SoleClient(s: State, fd: int, other: int, unix: int)
    requires ShapeOk(s) && ValidFd(unix) && IsClientOf(s, fd, unix) && IsClientOf(s, other, unix)
    ensures fd == other
  {
  }

  /**
   * A reply looked up at step `j` and written at step `i` goes to the client that asked exactly when
   * that client's lease lasted from its request to the lookup, and its descriptor from there to the
   * write.  `q` is the request that the reply answers, whichever of the connection's it is.
   */
  lemma ReplyReachesAsker(first: seq<int>, second: seq<int>, trace: seq<State>, steps: seq<Step>, q: nat, j: nat, i: nat)
    requires TimelyExecution(first, second, trace, steps) && i < |steps| && steps[i].Deliver?
    requires At(trace[i], steps[i].worker).Relaying? && LookedUp(steps, j, i, steps[i].worker)
    requires q < j && Requests(trace, steps, q, At(trace[i], steps[i].worker).unix)
    ensures var p := At(trace[i], steps[i].worker);
            ClientAt(trace, steps, i, p.client) == AskerAt(trace, steps, q)
            <==> !ReleasedBetween(trace, steps, q, j, p.unix) && !ClosedBetween(trace, steps, j, i, p.client)
  {
    hide Inv, Take, Fatal, Timely, Destination, IsClientOf, ReleasedBetween, ClosedBetween, ClientAt, Enabled, ShapeOk;
    var k := DeliveryFollowsTheLease(first, second, trace, steps, i);
    OneLookup(steps, j, k, i, steps[i].worker);
    var p := At(trace[i], steps[i].worker);
    var fd := At(trace[q], steps[q].worker).fd;
    Alive(first, second, trace, steps, q);
    AskerHasTheLease(trace[q], steps[q].worker);
    Alive(first, second, trace, steps, j);
    EnabledAlive(trace[j], steps[j]);
    LeaseOrNot(first, second, trace, steps, q, j, fd, p.unix);
    if !ReleasedBetween(trace, steps, q, j, p.unix) {
      InvariantShape(trace[j]);
      SoleClient(trace[j], fd, p.client, p.unix);
    } else if p.client == fd {
      LostBeforeLookup(first, second, trace, steps, q, j, i, fd, p.unix);
    } else {
      DifferentFds(trace, steps, q, i, fd, p.client);
    }
  }

  lemma LostBeforeLookup(first: seq<int>, second: seq<int>, trace: seq<State>, steps: seq<Step>,
                         q: nat, j: nat, i: nat, fd: int, unix: int)
    requires TimelyExecution(first, second, trace, steps) && q < j < i < |steps| && !trace[j].aborted
    requires Inv(trace[q]) && Inv(trace[j]) && ValidFd(unix) && IsClientOf(trace[q], fd, unix) && IsClientOf(trace[j], fd, unix)
    requires ReleasedBetween(trace, steps, q, j, unix)
    ensures ClientAt(trace, steps, i, fd) != ClientAt(trace, steps, q, fd)
  {
    hide Inv, Take, Fatal, Timely, Destination, IsClientOf, ReleasedBetween, ClosedBetween, ClientAt, Enabled, ShapeOk;
    LeaseOrNot(first, second, trace, steps, q, j, fd, unix);
    AcceptedBefore(trace, steps, q, fd);
    GoneForGood(trace, steps, j, i, fd, ClientAt(trace, steps, q, fd));
  }

  lemma AcceptedBefore(trace: seq<State>, steps: seq<Step>, q: nat, fd: int)
    requires q < |trace| && q <= |steps|
    ensures ClientAt(trace, steps, q, fd) < q
  {
  }

  // ----- A backend that answers in order -----

  /** The requests written to a connection before step `i`, oldest first. */
  function RequestSteps(trace: seq<State>, steps: seq<Step>, i: nat, unix: int): (requests: seq<nat>)
    requires i <= |steps| < |trace|
    ensures forall q <- requests :: q < i && Requests(trace, steps, q, unix)
  {
    if i == 0 then []
    else if Requests(trace, steps, i - 1, unix) then RequestSteps(trace, steps, i - 1, unix) + [i - 1]
    else RequestSteps(trace, steps, i - 1, unix)
  }

  predicate Delivers(s: State, step: Step, unix: int) {
    step.Deliver? && At(s, step.worker).Relaying? && At(s, step.worker).unix == unix
  }

  /** How many replies of a connection have been written before step `i`. */
  function Replies(trace: seq<State>, steps: seq<Step>, i: nat, unix: int): nat
    requires i <= |steps| < |trace|
  {
    if i == 0 then 0
    else Replies(trace, steps, i - 1, unix) + (if Delivers(trace[i - 1], steps[i - 1], unix) then 1 else 0)
  }

  /** With one reply to each request, in the order of the requests: the head of the queue is the one answered. */
  lemma RepliesInOrder(first: seq<int>, second: seq<int>, trace: seq<State>, steps: seq<Step>, j: nat, i: nat) returns (q: nat)
    requires TimelyExecution(first, second, trace, steps) && i < |steps| && steps[i].Deliver?
    requires At(trace[i], steps[i].worker).Relaying? && LookedUp(steps, j, i, steps[i].worker)
    requires var unix := At(trace[i], steps[i].worker).unix;
             Replies(trace, steps, i, unix) < |RequestSteps(trace, steps, j, unix)|
    ensures var p := At(trace[i], steps[i].worker);
            && q == RequestSteps(trace, steps, j, p.unix)[Replies(trace, steps, i, p.unix)]
            && q < j && Requests(trace, steps, q, p.unix)
            && (ClientAt(trace, steps, i, p.client) == AskerAt(trace, steps, q)
                <==> !ReleasedBetween(trace, steps, q, j, p.unix) && !ClosedBetween(trace, steps, j, i, p.client))
  {
    hide ReleasedBetween, ClosedBetween, ClientAt, AskerAt;
    var unix := At(trace[i], steps[i].worker).unix;
    var requests := RequestSteps(trace, steps, j, unix);
    q := requests[Replies(trace, steps, i, unix)];
    assert q in requests;
    ReplyReachesAsker(first, second, trace, steps, q, j, i);
  }
}
