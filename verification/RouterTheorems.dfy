/** What the router guarantees in every execution that uses its free lists in time. */
module RouterTheorems {
  import opened Router
  import opened RouterInvariant
  import opened RouterPreservation

  ghost predicate Follows(s: State, step: Step, s': State) {
    ShapeOk(s) && Enabled(s, step) && s' == Take(s, step)
  }

  /** Any interleaving of the workers' steps, from the state the initialisation leaves. */
  ghost predicate Execution(first: seq<int>, second: seq<int>, trace: seq<State>, steps: seq<Step>) {
    && DistinctFds(first, second)
    && |trace| == |steps| + 1
    && trace[0] == Initial(first, second)
    && forall i :: 0 <= i < |steps| ==> Follows(trace[i], steps[i], trace[i + 1])
  }

  /** No free-list slot was read before it was stored, or used after the ring had gone round. */
  ghost predicate TimelyExecution(first: seq<int>, second: seq<int>, trace: seq<State>, steps: seq<Step>) {
    && Execution(first, second, trace, steps)
    && forall i :: 0 <= i < |steps| ==> Follows(trace[i], steps[i], trace[i + 1]) && Timely(trace[i], steps[i])
  }

  lemma InitialShape(first: seq<int>, second: seq<int>)
    requires DistinctFds(first, second)
    ensures ShapeOk(Initial(first, second))
  {
  }

  lemma InitialSlot(fds: seq<int>, u: int)
    requires |fds| == INITIAL_UNIX_CONNECTIONS && u in fds
    ensures Filled(fds).ring[IndexIn(fds, u) % MAX_CONNECTIONS] == u
  {
  }

  lemma InitialIndex(fds: seq<int>, i: nat)
    requires |fds| == INITIAL_UNIX_CONNECTIONS && i < |fds|
    requires forall j, k :: 0 <= j < k < |fds| ==> fds[j] != fds[k]
    ensures IndexIn(fds, fds[i]) == i
  {
  }

  lemma InitialPlace(first: seq<int>, second: seq<int>, u: int)
    requires DistinctFds(first, second)
    requires u in Initial(first, second).backend
    ensures ShapeOk(Initial(first, second)) && PlaceOk(Initial(first, second), u)
  {
    InitialShape(first, second);
    var s := Initial(first, second);
    if u in first {
      InitialSlot(first, u);
      InitialNotSuperseded(first, second, 0, IndexIn(first, u));
    } else {
      InitialSlot(second, u);
      InitialNotSuperseded(first, second, 1, IndexIn(second, u));
    }
  }

  lemma InitialNotSuperseded(first: seq<int>, second: seq<int>, pool: int, index: nat)
    requires DistinctFds(first, second) && 0 <= pool < 2
    ensures ShapeOk(Initial(first, second)) && !Superseded(Initial(first, second), pool, index)
  {
    InitialShape(first, second);
    if Superseded(Initial(first, second), pool, index) {
      var later: nat :| index < later && later % MAX_CONNECTIONS == index % MAX_CONNECTIONS
                        && IsPublished(Initial(first, second), pool, later);
      CloseIndicesDiffer(index, later);
    }
  }

  lemma InitialPlaces(first: seq<int>, second: seq<int>)
    requires DistinctFds(first, second)
    ensures ShapeOk(Initial(first, second)) && PlacesOk(Initial(first, second))
  {
    InitialShape(first, second);
    forall u <- Initial(first, second).backend ensures PlaceOk(Initial(first, second), u) {
      InitialPlace(first, second, u);
    }
  }

  lemma InitialIndices(first: seq<int>, second: seq<int>)
    requires DistinctFds(first, second)
    ensures ShapeOk(Initial(first, second)) && IndicesOk(Initial(first, second))
  {
    var s := Initial(first, second);
    InitialShape(first, second);
    forall pool, index: nat | 0 <= pool < 2 && Live(s, pool, index) ensures Occupied(s, pool, index) {
      var fds := if pool == 0 then first else second;
      InitialIndex(fds, index);
      assert fds[index] in fds;
      assert InSlot(s, fds[index], index);
    }
  }

  lemma InitialInvariant(first: seq<int>, second: seq<int>)
    requires DistinctFds(first, second)
    ensures Inv(Initial(first, second))
  {
    InitialPlaces(first, second);
    InitialIndices(first, second);
  }

  /** A fatal step ends the process. */
  lemma FatalAborts(s: State, step: Step)
    requires Inv(s) && Enabled(s, step) && Fatal(s, step)
    ensures Take(s, step).aborted
  {
    hide FdsOk, PlacesOk, IndicesOk, Entries, Backed, HasClient, TakeLease, TakeRelease;
    if step.RouteUnix? || step.LookupUnix? {
      var p := s.workers[step.worker];
      assert WorkerOk(s, step.worker, p);
      ClientIsDestination(s, p.unix);
      EntryIsClient(s, p.unix);
    }
  }

  lemma {:induction false} ExecutionInvariant(first: seq<int>, second: seq<int>, trace: seq<State>, steps: seq<Step>, i: nat)
    requires TimelyExecution(first, second, trace, steps) && i <= |steps|
    ensures !trace[i].aborted ==> Inv(trace[i])
    ensures trace[i].backend == Initial(first, second).backend
  {
    hide Inv, Enabled, Take, Fatal, Timely, Initial;
    if i == 0 {
      InitialInvariant(first, second);
    } else {
      var s, step := trace[i - 1], steps[i - 1];
      ExecutionInvariant(first, second, trace, steps, i - 1);
      assert Follows(s, step, trace[i]) && Timely(s, step);
      EnabledAlive(s, step);
      if Fatal(s, step) {
        FatalAborts(s, step);
      } else {
        StepKeepsInvariant(s, step);
      }
    }
  }

  lemma EnabledAlive(s: State, step: Step)
    requires ShapeOk(s) && Enabled(s, step)
    ensures !s.aborted
  {
  }

  // ----- Which steps end the process -----

  /**
   * While the free lists are used in time, exactly these steps end the process: an error event, a
   * failed read, a write to a peer that has closed, a failed `accept`, `fcntl` or `epoll_ctl`, the CHECK
   * after data and end of stream in one read, a backend that closed its connection, and data from a
   * backend connection that no client has leased.
   */
  lemma AbortsExactly(first: seq<int>, second: seq<int>, trace: seq<State>, steps: seq<Step>, i: nat)
    requires TimelyExecution(first, second, trace, steps) && i < |steps|
    ensures ShapeOk(trace[i]) && Enabled(trace[i], steps[i])
    ensures trace[i + 1].aborted <==> Fatal(trace[i], steps[i])
  {
    hide FdsOk, WorkersOk, PlacesOk, IndicesOk, Enabled, Take, Fatal, Timely;
    ExecutionInvariant(first, second, trace, steps, i);
    assert Follows(trace[i], steps[i], trace[i + 1]) && Timely(trace[i], steps[i]);
    EnabledAlive(trace[i], steps[i]);
    if Fatal(trace[i], steps[i]) {
      FatalAborts(trace[i], steps[i]);
    } else {
      StepKeepsInvariant(trace[i], steps[i]);
    }
  }

  /** Leased to a client, or with a worker after the second assignment of the lease and before the first of the release. */
  ghost predicate FullyLeased(s: State, unix: int) {
    && unix in s.place
    && match s.place[unix]
       case Leased(_) => true
       case Held(w) => w in s.workers && BothEntriesSet(s.workers[w])
       case _ => false
  }

  predicate BothEntriesSet(p: Position) {
    p.Ready? || p.Woken? || p.Serving? || p.Forwarded? || p.Releasing? || p.Unlinking?
  }

  /** A connection's entry is set exactly while the connection is leased, and then its client's entry names it. */
  lemma EntryIsClient(s: State, unix: int)
    requires Inv(s) && unix in s.backend
    ensures ValidFd(unix)
    ensures HasClient(s, unix) <==> s.unixToTcp[unix] != -1
    ensures HasClient(s, unix) <==> FullyLeased(s, unix)
  {
    hide IndicesOk;
    var fd := s.unixToTcp[unix];
    if fd != -1 {
      EntryOfConnection(s, fd, unix);
      assert IsClientOf(s, fd, unix);
    }
    EntryIsFullLease(s, unix);
  }

  lemma EntryIsFullLease(s: State, unix: int)
    requires Inv(s) && unix in s.backend
    ensures ValidFd(unix) && (s.unixToTcp[unix] != -1 <==> FullyLeased(s, unix))
  {
    hide FdsOk, IndicesOk, Entries;
    assert PlaceOk(s, unix);
    match s.place[unix]
    case Free(_) =>
    case Entering(_, w) => assert WorkerOk(s, w, s.workers[w]);
    case Held(w) => HeldEntry(s, unix, w);
    case Leased(fd) => RegisteredIsOk(s, fd);
  }

  lemma HeldEntry(s: State, unix: int, w: nat)
    requires Inv(s) && ValidFd(unix) && w in s.workers && Carries(s, s.workers[w], unix)
    ensures s.unixToTcp[unix] != -1 <==> BothEntriesSet(s.workers[w])
  {
    hide FdsOk, PlacesOk, IndicesOk, Entries, Backed;
    assert WorkerOk(s, w, s.workers[w]);
  }

  /**
   * Data from a backend connection is destined, at its lookup, for the one client the connection is
   * leased to; while the connection is not leased, free or on its way to or from a client, the lookup
   * ends the process.
   */
  lemma RepliesAreRouted(first: seq<int>, second: seq<int>, trace: seq<State>, steps: seq<Step>, i: nat)
    requires TimelyExecution(first, second, trace, steps) && i < |steps| && steps[i].RouteUnix?
    ensures Inv(trace[i]) && Enabled(trace[i], steps[i]) && At(trace[i], steps[i].worker).unix in trace[i].backend
    ensures var unix := At(trace[i], steps[i].worker).unix;
            if FullyLeased(trace[i], unix)
            then exists fd :: IsClientOf(trace[i], fd, unix) && At(trace[i + 1], steps[i].worker) == Relaying(unix, fd)
                   && forall other :: ValidFd(other) && other != fd ==> trace[i].tcpToUnix[other] != unix
            else trace[i + 1].aborted
  {
    hide FdsOk, WorkersOk, PlacesOk, IndicesOk, Enabled, Take;
    ExecutionInvariant(first, second, trace, steps, i);
    assert Follows(trace[i], steps[i], trace[i + 1]);
    EnabledAlive(trace[i], steps[i]);
    ReplyGoes(trace[i], steps[i].worker);
  }

  lemma ReplyGoes(s: State, w: nat)
    requires Inv(s) && Enabled(s, RouteUnix(w))
    ensures At(s, w).unix in s.backend
    ensures var unix := At(s, w).unix;
            if FullyLeased(s, unix)
            then exists fd :: IsClientOf(s, fd, unix) && At(Take(s, RouteUnix(w)), w) == Relaying(unix, fd)
                   && forall other :: ValidFd(other) && other != fd ==> s.tcpToUnix[other] != unix
            else Take(s, RouteUnix(w)).aborted
  {
    hide FdsOk, PlacesOk, IndicesOk, Entries, Backed, FullyLeased, TakeLease, TakeRelease;
    assert WorkerOk(s, w, s.workers[w]);
    var unix := s.workers[w].unix;
    EntryIsClient(s, unix);
    ClientIsDestination(s, unix);
    if FullyLeased(s, unix) {
      InvariantUnshared(s);
      assert IsClientOf(s, s.unixToTcp[unix], unix);
    }
  }

  // ----- The workers a step leaves alone -----

  ghost predicate OnlyMoves(s: State, s': State, w: nat) {
    forall v :: v != w ==> At(s', v) == At(s, v) && (v in s'.workers <==> v in s.workers)
  }

  /** Only the worker of a step changes its position. */
  lemma OthersStay(s: State, step: Step)
    requires ShapeOk(s) && Enabled(s, step)
    ensures OnlyMoves(s, Take(s, step), step.worker)
  {
    hide ShapeOk, Enabled, TakeLease, TakeRelease, TakeBackend;
    if Leases(step) {
      OthersStayLease(s, step);
    } else if Backends(step) {
      OthersStayBackend(s, step);
    } else {
      OthersStayRelease(s, step);
    }
  }

  lemma OthersStayLease(s: State, step: Step)
    requires ShapeOk(s) && Enabled(s, step) && Leases(step)
    ensures OnlyMoves(s, TakeLease(s, step), step.worker)
  {
    hide Entries, Backed, PositionShape;
  }

  lemma OthersStayRelease(s: State, step: Step)
    requires ShapeOk(s) && Enabled(s, step) && !Leases(step) && !Backends(step)
    ensures OnlyMoves(s, TakeRelease(s, step), step.worker)
  {
    hide Entries, Backed, PositionShape, Destination, PoolOf;
  }

  lemma OthersStayBackend(s: State, step: Step)
    requires ShapeOk(s) && Enabled(s, step) && Backends(step)
    ensures OnlyMoves(s, TakeBackend(s, step), step.worker)
  {
    hide Entries, Backed, PositionShape, Destination;
  }

  // ----- Safety of the two maps -----

  /** A worker between the two assignments of a lease or of a release. */
  predicate MidUpdate(s: State, fd: int) {
    exists w <- s.workers :: (s.workers[w].Linked? || s.workers[w].HalfUnlinked?) && s.workers[w].fd == fd
  }

  /** The client a connection is leased to, or being leased to, or being taken from. */
  ghost predicate Claimed(s: State, unix: int, fd: int) {
    && unix in s.backend && unix in s.place
    && match s.place[unix]
       case Leased(f) => f == fd
       case Held(w) => w in s.workers && OwnsFd(s.workers[w]) && s.workers[w].fd == fd
       case _ => false
  }

  lemma ClientOfEntry(s: State, fd: int, unix: int)
    requires Inv(s) && ValidFd(fd) && ValidFd(unix) && s.tcpToUnix[fd] == unix
    ensures Claimed(s, unix, fd)
    ensures !MidUpdate(s, fd) ==> s.unixToTcp[unix] == fd
  {
    assert fd in s.open;
    if fd in s.registered {
      assert RegisteredOk(s, fd);
    } else {
      var w :| w in s.workers && ServesClient(s.workers[w], fd);
      assert WorkerOk(s, w, s.workers[w]);
    }
  }

  lemma EntryOfConnection(s: State, fd: int, unix: int)
    requires Inv(s) && ValidFd(fd) && ValidFd(unix) && s.unixToTcp[unix] == fd
    ensures s.tcpToUnix[fd] == unix
  {
    assert unix in s.backend;
    assert PlaceOk(s, unix);
    match s.place[unix]
    case Free(_) =>
    case Entering(_, _) =>
    case Held(w) => assert WorkerOk(s, w, s.workers[w]);
    case Leased(f) => assert RegisteredOk(s, f);
  }

  ghost predicate MutuallyInverse(s: State)
    requires ShapeOk(s)
  {
    && (forall fd, unix :: ValidFd(fd) && ValidFd(unix) && s.unixToTcp[unix] == fd ==> s.tcpToUnix[fd] == unix)
    && (forall fd, unix :: ValidFd(fd) && ValidFd(unix) && s.tcpToUnix[fd] == unix && !MidUpdate(s, fd) ==>
          s.unixToTcp[unix] == fd)
  }

  ghost predicate NoSharedConnection(s: State)
    requires ShapeOk(s)
  {
    forall a, b :: ValidFd(a) && ValidFd(b) && a != b && s.tcpToUnix[a] != -1 ==> s.tcpToUnix[a] != s.tcpToUnix[b]
  }

  lemma InvariantMaps(s: State)
    requires Inv(s)
    ensures MutuallyInverse(s)
  {
    forall fd, unix | ValidFd(fd) && ValidFd(unix) && s.tcpToUnix[fd] == unix && !MidUpdate(s, fd)
      ensures s.unixToTcp[unix] == fd
    {
      ClientOfEntry(s, fd, unix);
    }
    forall fd, unix | ValidFd(fd) && ValidFd(unix) && s.unixToTcp[unix] == fd
      ensures s.tcpToUnix[fd] == unix
    {
      EntryOfConnection(s, fd, unix);
    }
  }

  lemma InvariantUnshared(s: State)
    requires Inv(s)
    ensures NoSharedConnection(s)
  {
    forall a, b | ValidFd(a) && ValidFd(b) && a != b && s.tcpToUnix[a] != -1
      ensures s.tcpToUnix[a] != s.tcpToUnix[b]
    {
      ClientOfEntry(s, a, s.tcpToUnix[a]);
      if s.tcpToUnix[b] != -1 {
        ClientOfEntry(s, b, s.tcpToUnix[b]);
      }
    }
  }

  /**
   * Outside the two half-way points the maps are mutually inverse; at a half-way point only the
   * backend side is missing.  No connection serves two clients.
   */
  lemma MapsAreInverse(first: seq<int>, second: seq<int>, trace: seq<State>, steps: seq<Step>, i: nat)
    requires TimelyExecution(first, second, trace, steps) && i <= |steps| && !trace[i].aborted
    ensures ShapeOk(trace[i]) && MutuallyInverse(trace[i]) && NoSharedConnection(trace[i])
  {
    ExecutionInvariant(first, second, trace, steps, i);
    InvariantMaps(trace[i]);
    InvariantUnshared(trace[i]);
  }

  /** A release only ever clears its own lease: both entries still name its client and connection. */
  lemma ReleaseClearsItsOwnLease(first: seq<int>, second: seq<int>, trace: seq<State>, steps: seq<Step>, i: nat)
    requires TimelyExecution(first, second, trace, steps) && i < |steps|
    requires steps[i].UnlinkUnix? || steps[i].UnlinkTcp?
    ensures ShapeOk(trace[i]) && Enabled(trace[i], steps[i])
    ensures var p := At(trace[i], steps[i].worker);
            && trace[i].tcpToUnix[p.fd] == p.unix
            && trace[i].unixToTcp[p.unix] == (if steps[i].UnlinkUnix? then p.fd else -1)
            && p.fd in trace[i].open
  {
    hide FdsOk, WorkersOk, PlacesOk, IndicesOk, Take;
    ExecutionInvariant(first, second, trace, steps, i);
    assert Follows(trace[i], steps[i], trace[i + 1]);
    OwnFd(trace[i], steps[i].worker);
  }

  /** The step is not about the client at rest on this descriptor, and no lookup of it fails. */
  predicate NotAbout(s: State, step: Step, fd: int)
    requires ShapeOk(s)
  {
    && !(step.Wake? && step.fd == fd) && !step.LookupUnix?
    && (OwnsFd(At(s, step.worker)) ==> ValidFd(At(s, step.worker).fd) && At(s, step.worker).fd != fd)
    && (step.Lookup? && At(s, step.worker).Releasing? ==> s.tcpToUnix[At(s, step.worker).fd] != -1)
  }

  /** Only a wake-up takes a client away from epoll, and only a worker's own entry is written. */
  lemma OnlyOwnEntry(s: State, step: Step, fd: int)
    requires ShapeOk(s) && Enabled(s, step) && ValidFd(fd) && fd in s.registered && NotAbout(s, step, fd)
    ensures fd in Take(s, step).registered
    ensures ShapeOk(Take(s, step)) ==> Take(s, step).tcpToUnix[fd] == s.tcpToUnix[fd]
  {
    hide Enabled, NotAbout, TakeLease, TakeRelease, TakeBackend, Entries, Backed, PositionShape;
    if Leases(step) {
      OwnEntryLease(s, step, fd);
    } else if Backends(step) {
      OwnEntryBackend(s, step, fd);
    } else {
      OwnEntryRelease(s, step, fd);
    }
  }

  lemma OwnEntryLease(s: State, step: Step, fd: int)
    requires ShapeOk(s) && Enabled(s, step) && Leases(step) && ValidFd(fd) && fd in s.registered && NotAbout(s, step, fd)
    ensures fd in TakeLease(s, step).registered
    ensures ShapeOk(TakeLease(s, step)) ==> TakeLease(s, step).tcpToUnix[fd] == s.tcpToUnix[fd]
  {
    hide Entries, Backed, PositionShape;
  }

  lemma OwnEntryRelease(s: State, step: Step, fd: int)
    requires ShapeOk(s) && Enabled(s, step) && !Leases(step) && !Backends(step)
    requires ValidFd(fd) && fd in s.registered && NotAbout(s, step, fd)
    ensures fd in TakeRelease(s, step).registered
    ensures ShapeOk(TakeRelease(s, step)) ==> TakeRelease(s, step).tcpToUnix[fd] == s.tcpToUnix[fd]
  {
    hide Entries, Backed, PositionShape, PoolOf, Destination;
  }

  lemma OwnEntryBackend(s: State, step: Step, fd: int)
    requires ShapeOk(s) && Enabled(s, step) && Backends(step) && ValidFd(fd) && fd in s.registered && NotAbout(s, step, fd)
    ensures fd in TakeBackend(s, step).registered
    ensures ShapeOk(TakeBackend(s, step)) ==> TakeBackend(s, step).tcpToUnix[fd] == s.tcpToUnix[fd]
  {
    hide Entries, Backed, PositionShape, Destination;
  }

  lemma RegisteredIsOk(s: State, fd: int)
    requires Inv(s) && fd in s.registered
    ensures RegisteredOk(s, fd)
  {
  }

  lemma OtherStepsKeepRegistered(s: State, step: Step, fd: int)
    requires Inv(s) && Enabled(s, step) && fd in s.registered && !(step.Wake? && step.fd == fd) && !step.LookupUnix?
    ensures fd in Take(s, step).registered
    ensures ValidFd(fd) && ShapeOk(Take(s, step)) && Take(s, step).tcpToUnix[fd] == s.tcpToUnix[fd]
  {
    hide FdsOk, PlacesOk, IndicesOk, Entries, Backed, Take;
    RegisteredIsOk(s, fd);
    ShapeKeeps(s, step);
    if OwnsFd(At(s, step.worker)) {
      OwnFd(s, step.worker);
    }
    OnlyOwnEntry(s, step, fd);
  }

  /** A lease at rest is untouched by every step except the one that wakes its own client. */
  lemma LeaseIsStable(first: seq<int>, second: seq<int>, trace: seq<State>, steps: seq<Step>, i: nat, fd: int)
    requires TimelyExecution(first, second, trace, steps) && i < |steps|
    requires fd in trace[i].registered && !(steps[i].Wake? && steps[i].fd == fd) && !trace[i + 1].aborted
    ensures ShapeOk(trace[i]) && ShapeOk(trace[i + 1]) && ValidFd(fd) && ValidFd(trace[i].tcpToUnix[fd])
    ensures fd in trace[i + 1].registered
    ensures trace[i + 1].tcpToUnix[fd] == trace[i].tcpToUnix[fd]
    ensures trace[i + 1].unixToTcp[trace[i].tcpToUnix[fd]] == fd == trace[i].unixToTcp[trace[i].tcpToUnix[fd]]
  {
    hide FdsOk, WorkersOk, PlacesOk, IndicesOk, Enabled, Take;
    ExecutionInvariant(first, second, trace, steps, i);
    ExecutionInvariant(first, second, trace, steps, i + 1);
    assert Follows(trace[i], steps[i], trace[i + 1]);
    EnabledAlive(trace[i], steps[i]);
    RegisteredIsOk(trace[i], fd);
    if steps[i].LookupUnix? {
      FatalAborts(trace[i], steps[i]);
    }
    OtherStepsKeepRegistered(trace[i], steps[i], fd);
    RegisteredIsOk(trace[i + 1], fd);
  }

  /** A request read from a client goes to the connection leased to that client and to nobody else. */
  lemma RequestsReachTheLease(first: seq<int>, second: seq<int>, trace: seq<State>, steps: seq<Step>, i: nat, w: nat)
    requires TimelyExecution(first, second, trace, steps) && i <= |steps| && !trace[i].aborted
    requires At(trace[i], w).Serving?
    ensures ShapeOk(trace[i])
    ensures var p := At(trace[i], w);
            && p.unix in trace[i].backend
            && trace[i].tcpToUnix[p.fd] == p.unix && trace[i].unixToTcp[p.unix] == p.fd
            && forall other :: ValidFd(other) && other != p.fd ==> trace[i].tcpToUnix[other] != p.unix
  {
    ExecutionInvariant(first, second, trace, steps, i);
    OwnFd(trace[i], w);
    InvariantUnshared(trace[i]);
  }

  // ----- Conservation -----

  /** In the window of its pool: stored, unread, and still in its slot. */
  ghost predicate Available(s: State, unix: int)
    requires ShapeOk(s) && unix in s.backend
  {
    exists index: nat :: AvailableAt(s, unix, index)
  }

  ghost predicate AvailableAt(s: State, unix: int, index: nat)
    requires ShapeOk(s) && unix in s.backend
  {
    var pool := s.backend[unix];
    && s.pools[pool].start <= index < s.pools[pool].end
    && IsPublished(s, pool, index)
    && s.pools[pool].ring[index % MAX_CONNECTIONS] == unix
  }

  /** Between the free list and a client, in one worker's hands. */
  ghost predicate InTransit(s: State, unix: int)
    requires ShapeOk(s) && unix in s.backend
  {
    exists w :: w in s.workers && Transits(s, s.workers[w], unix)
  }

  ghost predicate Transits(s: State, p: Position, unix: int)
    requires ShapeOk(s) && unix in s.backend && PositionShape(p)
  {
    || Carries(s, p, unix)
    || (p.Pushing? && p.unix == unix)
    || (p.Popping? && p.pool == s.backend[unix] && unix in s.place && s.place[unix] == Free(p.index))
  }

  ghost predicate LeasedOut(s: State, unix: int)
    requires ShapeOk(s)
  {
    exists fd :: fd in s.registered && ValidFd(fd) && s.tcpToUnix[fd] == unix
  }

  /** The connections whose slot index lies in `[start, end)` are as many as there are indices. */
  lemma {:induction false} WindowConnections(s: State, pool: int, upTo: nat) returns (found: set<int>)
    requires Inv(s) && 0 <= pool < 2 && s.pools[pool].start <= upTo <= s.pools[pool].end
    ensures |found| == upTo - s.pools[pool].start
    ensures forall u <- found :: u in s.backend && s.backend[u] == pool
    ensures forall u <- found :: exists index: nat :: s.pools[pool].start <= index < upTo && InSlot(s, u, index)
    decreases upTo
  {
    if upTo == s.pools[pool].start {
      found := {};
    } else {
      var rest := WindowConnections(s, pool, upTo - 1);
      assert Live(s, pool, upTo - 1);
      assert Occupied(s, pool, upTo - 1);
      var u :| u in s.backend && s.backend[u] == pool && InSlot(s, u, upTo - 1);
      assert u !in rest;
      found := rest + {u};
    }
  }

  function ConnectionsOf(backend: map<int, int>, pool: int): set<int> {
    set u | u in backend && backend[u] == pool
  }

  lemma SetOfDistinct(fds: seq<int>)
    requires forall j, k :: 0 <= j < k < |fds| ==> fds[j] != fds[k]
    ensures |set u | u in fds| == |fds|
  {
    if fds != [] {
      SetOfDistinct(fds[1..]);
      assert (set u | u in fds) == (set u | u in fds[1..]) + {fds[0]};
    }
  }

  lemma FiftyConnections(first: seq<int>, second: seq<int>, pool: int)
    requires DistinctFds(first, second) && 0 <= pool < 2
    ensures |ConnectionsOf(Initial(first, second).backend, pool)| == INITIAL_UNIX_CONNECTIONS
  {
    var fds := if pool == 0 then first else second;
    SetOfDistinct(fds);
    assert ConnectionsOf(Initial(first, second).backend, pool) == set u | u in fds;
  }

  lemma WindowBound(s: State, pool: int)
    requires Inv(s) && 0 <= pool < 2 && |ConnectionsOf(s.backend, pool)| == INITIAL_UNIX_CONNECTIONS
    ensures s.pools[pool].end <= s.pools[pool].start + INITIAL_UNIX_CONNECTIONS
  {
    if s.pools[pool].start < s.pools[pool].end {
      var found := WindowConnections(s, pool, s.pools[pool].end);
      assert forall u <- found :: u in ConnectionsOf(s.backend, pool);
      SubsetSize(found, ConnectionsOf(s.backend, pool));
    }
  }

  lemma SubsetSize(a: set<int>, b: set<int>)
    requires a <= b
    ensures |a| <= |b|
  {
    assert a + (b - a) == b;
  }

  /** A published slot of the window is never overwritten by a later round. */
  lemma WindowNotSuperseded(s: State, pool: int, index: nat)
    requires Inv(s) && 0 <= pool < 2 && s.pools[pool].end <= s.pools[pool].start + INITIAL_UNIX_CONNECTIONS
    requires s.pools[pool].start <= index < s.pools[pool].end
    ensures !Superseded(s, pool, index)
  {
    if Superseded(s, pool, index) {
      var later: nat :| index < later && later % MAX_CONNECTIONS == index % MAX_CONNECTIONS && IsPublished(s, pool, later);
      CloseIndicesDiffer(index, later);
    }
  }

  lemma CloseIndicesDiffer(a: nat, b: nat)
    requires a < b < a + MAX_CONNECTIONS
    ensures a % MAX_CONNECTIONS != b % MAX_CONNECTIONS
  {
  }

  /** Every connection is in exactly one of the three places. */
  lemma ExactlyOnePlace(s: State, unix: int)
    requires Inv(s) && unix in s.backend
    requires s.pools[s.backend[unix]].end <= s.pools[s.backend[unix]].start + INITIAL_UNIX_CONNECTIONS
    ensures Available(s, unix) || InTransit(s, unix) || LeasedOut(s, unix)
    ensures !(Available(s, unix) && InTransit(s, unix))
    ensures !(Available(s, unix) && LeasedOut(s, unix))
    ensures !(InTransit(s, unix) && LeasedOut(s, unix))
  {
    PlaceDecides(s, unix);
    AvailableDecides(s, unix);
  }

  /** Where the record says a free connection is, the arrays have it, and conversely. */
  lemma AvailableDecides(s: State, unix: int)
    requires Inv(s) && unix in s.backend
    requires s.pools[s.backend[unix]].end <= s.pools[s.backend[unix]].start + INITIAL_UNIX_CONNECTIONS
    ensures Available(s, unix) <==>
              s.place[unix].Free? && s.pools[s.backend[unix]].start <= s.place[unix].index
  {
    var pool := s.backend[unix];
    assert PlaceOk(s, unix);
    if s.place[unix].Free? && s.pools[pool].start <= s.place[unix].index {
      WindowNotSuperseded(s, pool, s.place[unix].index);
      assert AvailableAt(s, unix, s.place[unix].index);
    }
    if Available(s, unix) {
      var index: nat :| AvailableAt(s, unix, index);
      WindowNotSuperseded(s, pool, index);
      assert Live(s, pool, index);
      assert Occupied(s, pool, index);
      var u :| u in s.backend && s.backend[u] == pool && InSlot(s, u, index);
      assert PlaceOk(s, u);
      assert s.place[u].Entering? ==> Storing(s, pool, index);
      assert u == unix;
    }
  }

  lemma PlaceDecides(s: State, unix: int)
    requires Inv(s) && unix in s.backend
    ensures LeasedOut(s, unix) <==> s.place[unix].Leased?
    ensures InTransit(s, unix) <==>
              s.place[unix].Held? || s.place[unix].Entering?
              || (s.place[unix].Free? && s.place[unix].index < s.pools[s.backend[unix]].start)
  {
    assert PlaceOk(s, unix);
    if LeasedOut(s, unix) {
      var fd :| fd in s.registered && ValidFd(fd) && s.tcpToUnix[fd] == unix;
      assert RegisteredOk(s, fd);
    }
    if InTransit(s, unix) {
      TransitDecides(s, unix);
    }
    match s.place[unix]
    case Held(w) => assert Transits(s, s.workers[w], unix);
    case Entering(_, w) => assert Transits(s, s.workers[w], unix);
    case Free(index) =>
      if index < s.pools[s.backend[unix]].start {
        var w :| w in s.workers && PopsAt(s.workers[w], s.backend[unix], index);
        assert Transits(s, s.workers[w], unix);
      }
    case Leased(_) =>
  }

  lemma TransitDecides(s: State, unix: int)
    requires Inv(s) && unix in s.backend && InTransit(s, unix)
    ensures s.place[unix].Held? || s.place[unix].Entering?
            || (s.place[unix].Free? && s.place[unix].index < s.pools[s.backend[unix]].start)
  {
    var w :| w in s.workers && Transits(s, s.workers[w], unix);
    assert WorkerOk(s, w, s.workers[w]);
  }

  lemma Partition(s: State, all: set<int>)
    requires Inv(s) && all <= s.backend.Keys
    requires forall pool :: 0 <= pool < 2 ==> s.pools[pool].end <= s.pools[pool].start + INITIAL_UNIX_CONNECTIONS
    ensures var free := set u | u in all && Available(s, u);
            var transit := set u | u in all && InTransit(s, u);
            var leased := set u | u in all && LeasedOut(s, u);
            free !! transit !! leased && free + transit + leased == all
  {
    forall u <- all
      ensures Available(s, u) || InTransit(s, u) || LeasedOut(s, u)
      ensures !(Available(s, u) && InTransit(s, u))
      ensures !(Available(s, u) && LeasedOut(s, u))
      ensures !(InTransit(s, u) && LeasedOut(s, u))
    {
      ExactlyOnePlace(s, u);
    }
  }

  /**
   * Conservation: per backend, free, in transit and leased always add up to the fifty connections
   * made at start-up, and the window of the circular list never exceeds fifty.
   */
  lemma Conservation(first: seq<int>, second: seq<int>, trace: seq<State>, steps: seq<Step>, i: nat, pool: int)
    requires TimelyExecution(first, second, trace, steps) && i <= |steps| && !trace[i].aborted && 0 <= pool < 2
    ensures Inv(trace[i])
    ensures trace[i].pools[pool].end <= trace[i].pools[pool].start + 50
    ensures var s := trace[i];
            var all := ConnectionsOf(s.backend, pool);
            var free := set u | u in all && Available(s, u);
            var transit := set u | u in all && InTransit(s, u);
            var leased := set u | u in all && LeasedOut(s, u);
            && free !! transit !! leased
            && free + transit + leased == all
            && |free| + |transit| + |leased| == 50
  {
    var s := trace[i];
    ExecutionInvariant(first, second, trace, steps, i);
    Windows(first, second, s);
    FiftyConnections(first, second, pool);
    var all := ConnectionsOf(s.backend, pool);
    Partition(s, all);
    DisjointSizes(set u | u in all && Available(s, u), set u | u in all && InTransit(s, u), set u | u in all && LeasedOut(s, u));
  }

  lemma Windows(first: seq<int>, second: seq<int>, s: State)
    requires Inv(s) && DistinctFds(first, second) && s.backend == Initial(first, second).backend
    ensures forall pool :: 0 <= pool < 2 ==> s.pools[pool].end <= s.pools[pool].start + INITIAL_UNIX_CONNECTIONS
  {
    forall pool | 0 <= pool < 2
      ensures s.pools[pool].end <= s.pools[pool].start + INITIAL_UNIX_CONNECTIONS
    {
      FiftyConnections(first, second, pool);
      WindowBound(s, pool);
    }
  }

  lemma DisjointSizes(a: set<int>, b: set<int>, c: set<int>)
    requires a !! b !! c
    ensures |a + b + c| == |a| + |b| + |c|
  {
  }

  lemma StoredElsewhere(s: State, w: nat, index: nat)
    requires Inv(s) && Enabled(s, Publish(w)) && Timely(s, Publish(w))
    requires var p := s.workers[w];
             && s.pools[p.pool].end <= s.pools[p.pool].start + INITIAL_UNIX_CONNECTIONS
             && s.pools[p.pool].start <= index < s.pools[p.pool].end && IsPublished(s, p.pool, index)
    ensures s.workers[w].index % MAX_CONNECTIONS != index % MAX_CONNECTIONS
  {
    var p := s.workers[w];
    OwnFd(s, w);
    assert PlaceOk(s, p.unix);
    assert StoresAt(p, p.pool, p.index) && Storing(s, p.pool, p.index);
    if index < p.index {
      CloseIndicesDiffer(index, p.index);
    }
  }

  /** A store never lands on a published slot of the window. */
  lemma StoreOverwritesNothing(first: seq<int>, second: seq<int>, trace: seq<State>, steps: seq<Step>, i: nat, index: nat)
    requires TimelyExecution(first, second, trace, steps) && i < |steps| && steps[i].Publish?
    requires ShapeOk(trace[i]) && Enabled(trace[i], steps[i])
    requires var p := At(trace[i], steps[i].worker);
             && trace[i].pools[p.pool].start <= index < trace[i].pools[p.pool].end
             && IsPublished(trace[i], p.pool, index)
    ensures var p := At(trace[i], steps[i].worker);
            && ShapeOk(trace[i + 1])
            && trace[i + 1].pools[p.pool].ring[index % MAX_CONNECTIONS] == trace[i].pools[p.pool].ring[index % MAX_CONNECTIONS]
  {
    ExecutionInvariant(first, second, trace, steps, i);
    Windows(first, second, trace[i]);
    assert Follows(trace[i], steps[i], trace[i + 1]) && Timely(trace[i], steps[i]);
    ShapeKeeps(trace[i], steps[i]);
    StoredElsewhere(trace[i], steps[i].worker, index);
  }

  /** A slot read yields a connection that is free at that very index if, and only if, it is read in time. */
  lemma PopIsRightExactlyInTime(s: State, w: nat)
    requires Inv(s) && Enabled(s, TakeFree(w))
    ensures FreeAt(s, SlotRead(s, w), s.workers[w].pool, s.workers[w].index) <==> Timely(s, TakeFree(w))
  {
    hide FdsOk, WorkersOk, IndicesOk, Entries, Backed;
    if Timely(s, TakeFree(w)) {
      TimelyPop(s, w);
    }
    var unix := SlotRead(s, w);
    if unix in s.backend {
      assert PlaceOk(s, unix);
    }
  }
}
