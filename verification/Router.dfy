/**
 * The connection router as a system of steps.  Every assignment to a map, every counter increment
 * and every slot access by a worker is one step of its own, in any interleaving; which descriptor is
 * accepted, wakes up, fails or hangs up is the environment's choice.  A failed CHECK ends the process,
 * and so does the signal that a write to a closed peer raises: no step follows them.
 *
 * `place` is specification state: no step's effect on the arrays, counters or workers reads it.
 */
module Router {

  const MAX_CONNECTIONS := 1000
  const INITIAL_UNIX_CONNECTIONS := 50

  /** A circular free list; the counters only ever grow. */
  datatype Pool = Pool(ring: seq<int>, start: nat, end: nat)

  /** Where a worker stands in the accept branch, the data branch or `erase_from_maps`, for a client or a backend. */
  datatype Position =
    | Waiting
    // accept branch
    | Accepted(fd: int)
    | Chosen(fd: int, pool: int)
    | Popping(fd: int, pool: int, index: nat)
    | Holding(fd: int, unix: int)
    | Linked(fd: int, unix: int)
    | Ready(fd: int, unix: int)
    // data branch
    | Woken(fd: int)
    | Serving(fd: int, unix: int)
    | Forwarded(fd: int, unix: int)
    // erase_from_maps
    | Releasing(fd: int)
    | Unlinking(fd: int, unix: int)
    | HalfUnlinked(fd: int, unix: int)
    | Unlinked(fd: int, unix: int)
    | Pushing(fd: int, unix: int, pool: int, index: nat)
    | Published(fd: int)
    // data branch and erase_from_maps for a backend connection
    | WokenUnix(unix: int)
    | Relaying(unix: int, client: int)
    | Delivered(unix: int)
    | ReleasingUnix(unix: int)
    // data and the end of the stream came in one read
    | Doomed

  /** Where a backend connection is: in a slot, on its way into one, with a worker, or with a client. */
  datatype Place = Free(index: nat) | Entering(index: nat, worker: nat) | Held(worker: nat) | Leased(fd: int)

  datatype State = State(
    tcpToUnix: seq<int>,
    unixToTcp: seq<int>,
    pools: seq<Pool>,
    rounds: nat,
    backend: map<int, int>,
    open: set<int>,
    registered: set<int>,
    armed: set<int>,
    aborted: bool,
    workers: map<nat, Position>,
    place: map<int, Place>)

  datatype Step =
    | Accept(worker: nat, fd: int)
    | Choose(worker: nat)
    | ReserveFree(worker: nat)
    | TakeFree(worker: nat)
    | LinkTcp(worker: nat)
    | LinkUnix(worker: nat)
    | Register(worker: nat)
    | Wake(worker: nat, fd: int)
    | Route(worker: nat)
    | Forward(worker: nat)
    | Rearm(worker: nat)
    | HangUp(worker: nat)
    | Lookup(worker: nat)
    | UnlinkUnix(worker: nat)
    | UnlinkTcp(worker: nat)
    | ReserveSlot(worker: nat)
    | Publish(worker: nat)
    | Close(worker: nat)
    | WakeUnix(worker: nat, unix: int)
    | RouteUnix(worker: nat)
    | Deliver(worker: nat)
    | RearmUnix(worker: nat)
    | HangUpUnix(worker: nat)
    | LookupUnix(worker: nat)
    // failures the environment reports
    | ErrorEvent(worker: nat)
    | ReadError(worker: nat)
    | BrokenPipe(worker: nat)
    | CallFails(worker: nat)
    | DataAndEnd(worker: nat)
    | DataAndEndUnix(worker: nat)
    | FailCheck(worker: nat)

  predicate ValidFd(fd: int) {
    0 <= fd < MAX_CONNECTIONS
  }

  predicate Entry(value: int) {
    value == -1 || ValidFd(value)
  }

  predicate Entries(table: seq<int>) {
    forall i :: 0 <= i < |table| ==> Entry(table[i])
  }

  predicate Backed(backend: map<int, int>) {
    forall u <- backend :: ValidFd(u) && 0 <= backend[u] < 2
  }

  /** The pool a connection goes back to: the first one only if it was marked at connection time. */
  function PoolOf(s: State, unix: int): int {
    if unix in s.backend && s.backend[unix] == 0 then 0 else 1
  }

  function At(s: State, w: nat): Position {
    if w in s.workers then s.workers[w] else Waiting
  }

  predicate ShapeOk(s: State) {
    && |s.tcpToUnix| == MAX_CONNECTIONS
    && |s.unixToTcp| == MAX_CONNECTIONS
    && |s.pools| == 2
    && |s.pools[0].ring| == MAX_CONNECTIONS
    && |s.pools[1].ring| == MAX_CONNECTIONS
    && Entries(s.tcpToUnix) && Entries(s.unixToTcp)
    && Entries(s.pools[0].ring) && Entries(s.pools[1].ring)
    && Backed(s.backend)
    && (forall w <- s.workers :: PositionShape(s.workers[w]))
  }

  predicate ForBackend(p: Position) {
    p.WokenUnix? || p.Relaying? || p.Delivered? || p.ReleasingUnix?
  }

  /** The worker is busy with a client. */
  predicate OwnsFd(p: Position) {
    !p.Waiting? && !p.Doomed? && !ForBackend(p)
  }

  predicate PositionShape(p: Position) {
    && (OwnsFd(p) ==> ValidFd(p.fd))
    && (ForBackend(p) ==> ValidFd(p.unix))
    && (p.Relaying? ==> ValidFd(p.client))
    && (p.Holding? || p.Linked? || p.Ready? || p.Serving? || p.Forwarded? || p.Unlinking? || p.HalfUnlinked? || p.Unlinked? || p.Pushing? ==>
          ValidFd(p.unix))
    && (p.Chosen? || p.Popping? || p.Pushing? ==> 0 <= p.pool < 2)
  }

  /** The code's own conditions; the environment decides which fd `accept` returns and who wakes up. */
  predicate Enabled(s: State, step: Step)
    requires ShapeOk(s)
  {
    var p := At(s, step.worker);
    !s.aborted &&
    match step
    case Accept(_, fd) => p.Waiting? && ValidFd(fd) && fd !in s.open && fd !in s.backend
    case Choose(_) => p.Accepted?
    case ReserveFree(_) => p.Chosen?
    case TakeFree(_) => p.Popping?
    case LinkTcp(_) => p.Holding?
    case LinkUnix(_) => p.Linked?
    case Register(_) => p.Ready?
    case Wake(_, fd) => p.Waiting? && fd in s.registered && ValidFd(fd)
    case Route(_) => p.Woken?
    case Forward(_) => p.Serving?
    case Rearm(_) => p.Forwarded?
    case HangUp(_) => p.Serving?
    case Lookup(_) => p.Releasing?
    case UnlinkUnix(_) => p.Unlinking?
    case UnlinkTcp(_) => p.HalfUnlinked?
    case ReserveSlot(_) => p.Unlinked?
    case Publish(_) => p.Pushing?
    case Close(_) => p.Published?
    case WakeUnix(_, unix) => p.Waiting? && unix in s.armed && unix in s.backend
    case RouteUnix(_) => p.WokenUnix?
    case Deliver(_) => p.Relaying?
    case RearmUnix(_) => p.Delivered?
    case HangUpUnix(_) => p.Relaying?
    case LookupUnix(_) => p.ReleasingUnix?
    case ErrorEvent(_) => p.Waiting?
    case ReadError(_) => p.Serving? || p.Relaying?
    case BrokenPipe(_) => p.Serving? || p.Relaying?
    case CallFails(_) => p.Waiting? || p.Accepted? || p.Ready? || p.Forwarded? || p.Delivered?
    case DataAndEnd(_) => p.Forwarded?
    case DataAndEndUnix(_) => p.Delivered?
    case FailCheck(_) => p.Doomed?
  }

  /** The accept branch. */
  predicate Leases(step: Step) {
    step.Accept? || step.Choose? || step.ReserveFree? || step.TakeFree? || step.LinkTcp? || step.LinkUnix? || step.Register?
  }

  /** The data branch and `erase_from_maps` for a backend connection, and the failures. */
  predicate Backends(step: Step) {
    || step.WakeUnix? || step.RouteUnix? || step.Deliver? || step.RearmUnix? || step.HangUpUnix? || step.LookupUnix?
    || step.DataAndEndUnix? || step.ErrorEvent? || step.ReadError? || step.BrokenPipe? || step.CallFails? || step.FailCheck?
  }

  function Take(s: State, step: Step): (s': State)
    requires ShapeOk(s) && Enabled(s, step)
    ensures s'.backend == s.backend
  {
    if Leases(step) then TakeLease(s, step)
    else if Backends(step) then TakeBackend(s, step)
    else TakeRelease(s, step)
  }

  function TakeLease(s: State, step: Step): (s': State)
    requires ShapeOk(s) && Enabled(s, step) && Leases(step)
    ensures s'.backend == s.backend
    ensures s'.open == if step.Accept? then s.open + {step.fd} else s.open
  {
    var w := step.worker;
    var p := At(s, w);
    match step
    case Accept(_, fd) => s.(workers := s.workers[w := Accepted(fd)], open := s.open + {fd})
    case Choose(_) => s.(workers := s.workers[w := Chosen(p.fd, s.rounds % 2)], rounds := s.rounds + 1)
    case ReserveFree(_) =>
      var pool := s.pools[p.pool];
      s.(workers := s.workers[w := Popping(p.fd, p.pool, pool.start)], pools := s.pools[p.pool := pool.(start := pool.start + 1)])
    case TakeFree(_) => TakeTakeFree(s, w)
    case LinkTcp(_) => s.(workers := s.workers[w := Linked(p.fd, p.unix)], tcpToUnix := s.tcpToUnix[p.fd := p.unix])
    case LinkUnix(_) => s.(workers := s.workers[w := Ready(p.fd, p.unix)], unixToTcp := s.unixToTcp[p.unix := p.fd])
    case Register(_) => Return(s, w, p.fd, p.unix, Waiting)
  }

  /** The data branch and `erase_from_maps` for a client. */
  function TakeRelease(s: State, step: Step): (s': State)
    requires ShapeOk(s) && Enabled(s, step) && !Leases(step) && !Backends(step)
    ensures s'.backend == s.backend
    ensures s'.open == if step.Close? then s.open - {At(s, step.worker).fd} else s.open
  {
    var w := step.worker;
    var p := At(s, w);
    match step
    case Wake(_, fd) =>
      var unix := s.tcpToUnix[fd];
      s.(workers := s.workers[w := Woken(fd)], registered := s.registered - {fd}, place := s.place[unix := Held(w)])
    case Route(_) =>
      var target := Destination(s, p.fd);
      if target != -1 then s.(workers := s.workers[w := Serving(p.fd, target)]) else Abort(s)
    case Forward(_) => s.(workers := s.workers[w := Forwarded(p.fd, p.unix)])
    case Rearm(_) => Return(s, w, p.fd, p.unix, Waiting)
    case DataAndEnd(_) => Return(s, w, p.fd, p.unix, Doomed)
    case HangUp(_) => s.(workers := s.workers[w := Releasing(p.fd)])
    case Lookup(_) => TakeLookup(s, w, p.fd)
    case UnlinkUnix(_) => s.(workers := s.workers[w := HalfUnlinked(p.fd, p.unix)], unixToTcp := s.unixToTcp[p.unix := -1])
    case UnlinkTcp(_) => s.(workers := s.workers[w := Unlinked(p.fd, p.unix)], tcpToUnix := s.tcpToUnix[p.fd := -1])
    case ReserveSlot(_) =>
      var b := PoolOf(s, p.unix);
      var pool := s.pools[b];
      s.(workers := s.workers[w := Pushing(p.fd, p.unix, b, pool.end)], pools := s.pools[b := pool.(end := pool.end + 1)],
        place := s.place[p.unix := Entering(pool.end, w)])
    case Publish(_) =>
      var pool := s.pools[p.pool];
      s.(workers := s.workers[w := Published(p.fd)], pools := s.pools[p.pool := pool.(ring := pool.ring[p.index % MAX_CONNECTIONS := p.unix])],
        place := s.place[p.unix := Free(p.index)])
    case Close(_) => s.(workers := s.workers[w := Waiting], open := s.open - {p.fd})
  }

  function TakeBackend(s: State, step: Step): (s': State)
    requires ShapeOk(s) && Enabled(s, step) && Backends(step)
    ensures s'.backend == s.backend
    ensures s'.open == s.open
  {
    var w := step.worker;
    var p := At(s, w);
    match step
    case WakeUnix(_, unix) => s.(workers := s.workers[w := WokenUnix(unix)], armed := s.armed - {unix})
    case RouteUnix(_) =>
      var target := Destination(s, p.unix);
      if target != -1 then s.(workers := s.workers[w := Relaying(p.unix, target)]) else Abort(s)
    case Deliver(_) => s.(workers := s.workers[w := Delivered(p.unix)])
    case RearmUnix(_) => s.(workers := s.workers[w := Waiting], armed := s.armed + {p.unix})
    case DataAndEndUnix(_) => s.(workers := s.workers[w := Doomed], armed := s.armed + {p.unix})
    case HangUpUnix(_) => s.(workers := s.workers[w := ReleasingUnix(p.unix)])
    case LookupUnix(_) => TakeLookup(s, w, p.unix)
    case ErrorEvent(_) => Abort(s)
    case ReadError(_) => Abort(s)
    case BrokenPipe(_) => Abort(s)
    case CallFails(_) => Abort(s)
    case FailCheck(_) => Abort(s)
  }

  function Abort(s: State): State {
    s.(aborted := true)
  }

  /** Where the data on a descriptor goes: its entry as a client first, as a connection second. */
  function Destination(s: State, fd: int): int
    requires ShapeOk(s) && ValidFd(fd)
  {
    if s.tcpToUnix[fd] != -1 then s.tcpToUnix[fd] else s.unixToTcp[fd]
  }

  /** The head of `erase_from_maps`: a descriptor that is no client's clears its pair, if any, on the way to a failed CHECK. */
  function TakeLookup(s: State, w: nat, fd: int): State
    requires ShapeOk(s) && ValidFd(fd)
  {
    var unix, tcp := s.tcpToUnix[fd], s.unixToTcp[fd];
    if unix != -1 then s.(workers := s.workers[w := Unlinking(fd, unix)])
    else if tcp != -1 then Abort(s.(tcpToUnix := s.tcpToUnix[tcp := -1], unixToTcp := s.unixToTcp[fd := -1]))
    else Abort(s)
  }

  function SlotRead(s: State, w: nat): int
    requires ShapeOk(s) && Enabled(s, TakeFree(w))
  {
    s.pools[s.workers[w].pool].ring[s.workers[w].index % MAX_CONNECTIONS]
  }

  /** Reads the reserved slot.  An empty slot fails the CHECK. */
  function TakeTakeFree(s: State, w: nat): State
    requires ShapeOk(s) && Enabled(s, TakeFree(w))
  {
    var p := At(s, w);
    var unix := SlotRead(s, w);
    if unix != -1 then s.(workers := s.workers[w := Holding(p.fd, unix)], place := s.place[unix := Held(w)])
    else Abort(s)
  }

  /** Hands the client's fd back to epoll. */
  function Return(s: State, w: nat, fd: int, unix: int, next: Position): State {
    s.(workers := s.workers[w := next], registered := s.registered + {fd}, place := s.place[unix := Leased(fd)])
  }

  // ----- Slots -----

  /** Some worker has reserved this index and not stored into it yet. */
  ghost predicate Storing(s: State, pool: int, index: nat) {
    exists w :: w in s.workers && StoresAt(s.workers[w], pool, index)
  }

  predicate StoresAt(p: Position, pool: int, index: nat) {
    p.Pushing? && p.pool == pool && p.index == index
  }

  ghost predicate IsPublished(s: State, pool: int, index: nat)
    requires ShapeOk(s) && 0 <= pool < 2
  {
    index < s.pools[pool].end && !Storing(s, pool, index)
  }

  /** The same physical slot has meanwhile been filled for a later round of the ring. */
  ghost predicate Superseded(s: State, pool: int, index: nat)
    requires ShapeOk(s) && 0 <= pool < 2
  {
    exists later: nat ::
      index < later && later % MAX_CONNECTIONS == index % MAX_CONNECTIONS && IsPublished(s, pool, later)
  }

  /**
   * The hypothesis under which the lock-free free lists work: a slot is read only once it has been
   * stored (the pool is not drained), and nobody sleeps between reserving an index and using it
   * while the ring goes all the way round.
   */
  ghost predicate Timely(s: State, step: Step)
    requires ShapeOk(s) && Enabled(s, step)
  {
    var p := At(s, step.worker);
    && (step.TakeFree? ==> IsPublished(s, p.pool, p.index) && !Superseded(s, p.pool, p.index))
    && (step.Publish? ==> !Superseded(s, p.pool, p.index))
  }

  /** A client's entry and the connection's entry name each other. */
  ghost predicate HasClient(s: State, unix: int)
    requires ShapeOk(s) && ValidFd(unix)
  {
    exists fd :: IsClientOf(s, fd, unix)
  }

  predicate IsClientOf(s: State, fd: int, unix: int)
    requires ShapeOk(s) && ValidFd(unix)
  {
    ValidFd(fd) && s.tcpToUnix[fd] == unix && s.unixToTcp[unix] == fd
  }

  /**
   * The steps that end the process while the free lists are used in time: an error on a descriptor, a
   * failed read, a write to a peer that has closed, a failed `accept`, `fcntl` or `epoll_ctl`, the CHECK
   * after data and end of stream in one read, a backend that closed its connection, and data from a
   * backend connection that no client has leased.
   */
  ghost predicate Fatal(s: State, step: Step)
    requires ShapeOk(s) && Enabled(s, step)
  {
    || step.ErrorEvent? || step.ReadError? || step.BrokenPipe? || step.CallFails? || step.FailCheck? || step.LookupUnix?
    || (step.RouteUnix? && !HasClient(s, At(s, step.worker).unix))
  }

  // ----- Initialisation -----

  ghost predicate DistinctFds(first: seq<int>, second: seq<int>) {
    && |first| == INITIAL_UNIX_CONNECTIONS
    && |second| == INITIAL_UNIX_CONNECTIONS
    && (forall i :: 0 <= i < INITIAL_UNIX_CONNECTIONS ==> ValidFd(first[i]) && ValidFd(second[i]))
    && (forall i, j :: 0 <= i < j < INITIAL_UNIX_CONNECTIONS ==> first[i] != first[j] && second[i] != second[j])
    && (forall i, j :: 0 <= i < INITIAL_UNIX_CONNECTIONS && 0 <= j < INITIAL_UNIX_CONNECTIONS ==> first[i] != second[j])
  }

  function Filled(fds: seq<int>): Pool
    requires |fds| == INITIAL_UNIX_CONNECTIONS
  {
    Pool(fds + seq(MAX_CONNECTIONS - INITIAL_UNIX_CONNECTIONS, _ => -1), 0, INITIAL_UNIX_CONNECTIONS)
  }

  function IndexIn(fds: seq<int>, fd: int): (i: nat)
    requires fd in fds
    ensures i < |fds| && fds[i] == fd
  {
    if fds[0] == fd then 0 else 1 + IndexIn(fds[1..], fd)
  }

  /** The router once `first` and `second` are connected to the two backends. */
  ghost function Initial(first: seq<int>, second: seq<int>): State
    requires DistinctFds(first, second)
  {
    var all := (set u <- first) + (set u <- second);
    State(
      seq(MAX_CONNECTIONS, _ => -1),
      seq(MAX_CONNECTIONS, _ => -1),
      [Filled(first), Filled(second)],
      0,
      map u <- all :: if u in first then 0 else 1,
      {}, {}, all, false, map[],
      map u <- all :: Free(if u in first then IndexIn(first, u) else IndexIn(second, u)))
  }
}
