/** The invariant of the connection router and the frame of a worker's step. */
module RouterInvariant {
  import opened Router

  ghost predicate Holds(s: State, w: nat, unix: int) {
    unix in s.backend && unix in s.place && s.place[unix] == Held(w)
  }

  /** Whether the two map entries of a client and a connection are set. */
  predicate Links(s: State, fd: int, unix: int, tcpSet: bool, unixSet: bool)
    requires ShapeOk(s) && ValidFd(fd) && ValidFd(unix)
  {
    && s.tcpToUnix[fd] == (if tcpSet then unix else -1)
    && s.unixToTcp[unix] == (if unixSet then fd else -1)
  }

  ghost predicate WorkerOk(s: State, w: nat, p: Position)
    requires ShapeOk(s) && PositionShape(p)
  {
    match p
    case Waiting => true
    case Accepted(fd) => s.tcpToUnix[fd] == -1
    case Chosen(fd, _) => s.tcpToUnix[fd] == -1
    case Popping(fd, pool, index) => s.tcpToUnix[fd] == -1 && index < s.pools[pool].start
    case Holding(fd, unix) => Holds(s, w, unix) && Links(s, fd, unix, false, false)
    case Linked(fd, unix) => Holds(s, w, unix) && Links(s, fd, unix, true, false)
    case Ready(fd, unix) => Holds(s, w, unix) && Links(s, fd, unix, true, true)
    case Woken(fd) => LinkedClient(s, w, fd)
    case Serving(fd, unix) => Holds(s, w, unix) && Links(s, fd, unix, true, true)
    case Forwarded(fd, unix) => Holds(s, w, unix) && Links(s, fd, unix, true, true)
    case Releasing(fd) => LinkedClient(s, w, fd)
    case Unlinking(fd, unix) => Holds(s, w, unix) && Links(s, fd, unix, true, true)
    case HalfUnlinked(fd, unix) => Holds(s, w, unix) && Links(s, fd, unix, true, false)
    case Unlinked(fd, unix) => Holds(s, w, unix) && Links(s, fd, unix, false, false)
    case Pushing(fd, unix, pool, index) =>
      && unix in s.backend && s.backend[unix] == pool
      && unix in s.place && s.place[unix] == Entering(index, w)
      && Links(s, fd, unix, false, false)
    case Published(fd) => s.tcpToUnix[fd] == -1
    case WokenUnix(unix) => unix in s.backend
    case Relaying(unix, _) => unix in s.backend
    case Delivered(unix) => unix in s.backend
    case ReleasingUnix(unix) => unix in s.backend
    case Doomed => true
  }

  ghost predicate LinkedClient(s: State, w: nat, fd: int)
    requires ShapeOk(s) && ValidFd(fd)
  {
    s.tcpToUnix[fd] != -1 && Holds(s, w, s.tcpToUnix[fd]) && s.unixToTcp[s.tcpToUnix[fd]] == fd
  }

  ghost predicate FdsOk(s: State)
    requires ShapeOk(s)
  {
    && s.registered <= s.open
    && (forall fd <- s.open :: ValidFd(fd) && fd !in s.backend)
    && (forall w <- s.workers :: OwnsFd(s.workers[w]) ==> s.workers[w].fd in s.open - s.registered)
    && (forall v, w :: v in s.workers && w in s.workers && v != w && OwnsFd(s.workers[v]) && OwnsFd(s.workers[w]) ==>
          s.workers[v].fd != s.workers[w].fd)
    && (forall fd :: ValidFd(fd) && fd !in s.open ==> s.tcpToUnix[fd] == -1)
    && (forall u :: ValidFd(u) && u !in s.backend ==> s.unixToTcp[u] == -1)
    && (forall fd <- s.open :: fd in s.registered || Served(s, fd))
    && (forall fd <- s.registered :: RegisteredOk(s, fd))
  }

  ghost predicate Served(s: State, fd: int) {
    exists w :: w in s.workers && ServesClient(s.workers[w], fd)
  }

  predicate ServesClient(p: Position, fd: int) {
    OwnsFd(p) && p.fd == fd
  }

  /** A client at rest: both maps lead to the connection leased to it. */
  ghost predicate RegisteredOk(s: State, fd: int)
    requires ShapeOk(s)
  {
    && ValidFd(fd)
    && var unix := s.tcpToUnix[fd];
       unix in s.backend && unix in s.place && s.place[unix] == Leased(fd) && s.unixToTcp[unix] == fd
  }

  ghost predicate WorkersOk(s: State)
    requires ShapeOk(s)
  {
    forall w <- s.workers :: WorkerOk(s, w, s.workers[w])
  }

  /** The connection a worker has in hand. */
  predicate Carries(s: State, p: Position, unix: int)
    requires ShapeOk(s) && PositionShape(p)
  {
    match p
    case Holding(_, u) => u == unix
    case Linked(_, u) => u == unix
    case Ready(_, u) => u == unix
    case Woken(fd) => s.tcpToUnix[fd] == unix
    case Serving(_, u) => u == unix
    case Forwarded(_, u) => u == unix
    case Releasing(fd) => s.tcpToUnix[fd] == unix
    case Unlinking(_, u) => u == unix
    case HalfUnlinked(_, u) => u == unix
    case Unlinked(_, u) => u == unix
    case _ => false
  }

  predicate PopsAt(p: Position, pool: int, index: nat) {
    p.Popping? && p.pool == pool && p.index == index
  }

  ghost predicate Popped(s: State, pool: int, index: nat) {
    exists w :: w in s.workers && PopsAt(s.workers[w], pool, index)
  }

  /** An index somebody will still read: in the window, or reserved by a pop under way. */
  ghost predicate Live(s: State, pool: int, index: nat)
    requires ShapeOk(s) && 0 <= pool < 2
  {
    index < s.pools[pool].end && (s.pools[pool].start <= index || Popped(s, pool, index))
  }

  ghost predicate PlaceOk(s: State, unix: int)
    requires ShapeOk(s) && unix in s.backend
  {
    && unix in s.place
    && var pool := s.backend[unix];
       match s.place[unix]
       case Free(index) =>
         && Live(s, pool, index)
         && !Storing(s, pool, index)
         && s.unixToTcp[unix] == -1
         && (s.pools[pool].ring[index % MAX_CONNECTIONS] == unix <==> !Superseded(s, pool, index))
       case Entering(index, w) =>
         && Live(s, pool, index)
         && w in s.workers && StoresAt(s.workers[w], pool, index) && s.workers[w].unix == unix
       case Held(w) => w in s.workers && Carries(s, s.workers[w], unix)
       case Leased(fd) => fd in s.registered && ValidFd(fd) && s.tcpToUnix[fd] == unix
  }

  ghost predicate PlacesOk(s: State)
    requires ShapeOk(s)
  {
    s.place.Keys == s.backend.Keys && forall unix <- s.backend :: PlaceOk(s, unix)
  }

  predicate InSlot(s: State, unix: int, index: nat) {
    unix in s.place && (s.place[unix].Free? || s.place[unix].Entering?) && s.place[unix].index == index
  }

  ghost predicate IndicesOk(s: State)
    requires ShapeOk(s)
  {
    && (forall u, v, index: nat |
          u in s.backend && v in s.backend && s.backend[u] == s.backend[v] && InSlot(s, u, index) && InSlot(s, v, index) ::
          u == v)
    && (forall v, w, pool, index: nat |
          v in s.workers && w in s.workers && PopsAt(s.workers[v], pool, index) && PopsAt(s.workers[w], pool, index) ::
          v == w)
    && (forall pool, index: nat :: 0 <= pool < 2 && Live(s, pool, index) ==> Occupied(s, pool, index))
    && (forall pool, index: nat :: 0 <= pool < 2 && s.pools[pool].end <= index < s.pools[pool].start ==>
          Popped(s, pool, index))
  }

  ghost predicate Occupied(s: State, pool: int, index: nat) {
    exists u :: u in s.backend && s.backend[u] == pool && InSlot(s, u, index)
  }

  ghost predicate Inv(s: State) {
    !s.aborted && ShapeOk(s) && FdsOk(s) && WorkersOk(s) && PlacesOk(s) && IndicesOk(s)
  }

  // ----- The frame of one worker's step -----

  /** A step of `w` writes at most the entry of its client `fd`, and the entry and place of `unix`. */
  ghost predicate Touches(s: State, s': State, w: nat, fd: int, unix: int)
    requires ShapeOk(s) && ShapeOk(s')
  {
    && s'.backend == s.backend
    && (forall f :: ValidFd(f) && f != fd ==> s'.tcpToUnix[f] == s.tcpToUnix[f])
    && (forall u :: ValidFd(u) && u != unix ==> s'.unixToTcp[u] == s.unixToTcp[u])
    && (forall u <- s.place :: u in s'.place && (u != unix ==> s'.place[u] == s.place[u]))
    && (forall b :: 0 <= b < 2 ==> s.pools[b].start <= s'.pools[b].start && s.pools[b].end <= s'.pools[b].end)
    && (forall v <- s.workers :: v != w ==> v in s'.workers && s'.workers[v] == s.workers[v])
    && (forall v <- s'.workers :: v != w ==> v in s.workers)
  }

  /** No other worker has a claim on the connection. */
  ghost predicate NotOthers(s: State, w: nat, unix: int) {
    unix in s.place ==> match s.place[unix]
      case Held(v) => v == w
      case Entering(_, v) => v == w
      case Free(_) => true
      case Leased(_) => true
  }

  lemma OtherWorkers(s: State, s': State, w: nat, fd: int, unix: int)
    requires Inv(s) && ShapeOk(s') && Touches(s, s', w, fd, unix) && NotOthers(s, w, unix)
    requires forall v :: v in s.workers && v != w && OwnsFd(s.workers[v]) ==> s.workers[v].fd != fd
    requires w in s'.workers && WorkerOk(s', w, s'.workers[w])
    ensures WorkersOk(s')
  {
    forall v <- s'.workers ensures WorkerOk(s', v, s'.workers[v]) {
      if v != w {
        OtherWorker(s, s', w, fd, unix, v, s.workers[v]);
      }
    }
  }

  lemma OtherWorker(s: State, s': State, w: nat, fd: int, unix: int, v: nat, p: Position)
    requires ShapeOk(s) && ShapeOk(s') && Touches(s, s', w, fd, unix) && NotOthers(s, w, unix)
    requires v != w && PositionShape(p) && WorkerOk(s, v, p) && (OwnsFd(p) ==> p.fd != fd)
    ensures WorkerOk(s', v, p)
  {
    hide Entries;
  }

  /** A registered client other than the one being worked on keeps its lease. */
  lemma OtherRegistered(s: State, s': State, w: nat, fd: int, unix: int, other: int)
    requires ShapeOk(s) && ShapeOk(s') && Touches(s, s', w, fd, unix)
    requires RegisteredOk(s, other) && other != fd && s.tcpToUnix[other] != unix
    ensures RegisteredOk(s', other)
  {
  }

  /** Workers outside the free-list code leave every slot's status alone. */
  ghost predicate QuietMove(s: State, s': State, w: nat)
    requires ShapeOk(s) && ShapeOk(s')
  {
    && s'.pools == s.pools
    && s'.backend == s.backend
    && w in s'.workers && !s'.workers[w].Popping? && !s'.workers[w].Pushing?
    && (w in s.workers ==> !s.workers[w].Popping? && !s.workers[w].Pushing?)
    && (forall v <- s.workers :: v != w ==> v in s'.workers && s'.workers[v] == s.workers[v])
    && (forall v <- s'.workers :: v != w ==> v in s.workers)
  }

  lemma QuietSlots(s: State, s': State, w: nat)
    requires ShapeOk(s) && ShapeOk(s') && QuietMove(s, s', w)
    ensures forall pool, index: nat :: Storing(s', pool, index) == Storing(s, pool, index)
    ensures forall pool, index: nat :: Popped(s', pool, index) == Popped(s, pool, index)
    ensures forall pool, index: nat :: 0 <= pool < 2 ==> Live(s', pool, index) == Live(s, pool, index)
    ensures forall pool, index: nat :: 0 <= pool < 2 ==> Superseded(s', pool, index) == Superseded(s, pool, index)
  {
    forall pool, index: nat
      ensures Storing(s', pool, index) == Storing(s, pool, index) && Popped(s', pool, index) == Popped(s, pool, index)
    {
      if Storing(s, pool, index) {
        var v :| v in s.workers && StoresAt(s.workers[v], pool, index);
        assert StoresAt(s'.workers[v], pool, index);
      }
      if Storing(s', pool, index) {
        var v :| v in s'.workers && StoresAt(s'.workers[v], pool, index);
        assert StoresAt(s.workers[v], pool, index);
      }
      if Popped(s, pool, index) {
        var v :| v in s.workers && PopsAt(s.workers[v], pool, index);
        assert PopsAt(s'.workers[v], pool, index);
      }
      if Popped(s', pool, index) {
        var v :| v in s'.workers && PopsAt(s'.workers[v], pool, index);
        assert PopsAt(s.workers[v], pool, index);
      }
    }
    SupersededFrame(s, s');
  }

  lemma SupersededFrame(s: State, s': State)
    requires ShapeOk(s) && ShapeOk(s')
    requires forall pool, index: nat :: 0 <= pool < 2 ==> IsPublished(s', pool, index) == IsPublished(s, pool, index)
    ensures forall pool, index: nat :: 0 <= pool < 2 ==> Superseded(s', pool, index) == Superseded(s, pool, index)
  {
    forall pool, index: nat | 0 <= pool < 2
      ensures Superseded(s', pool, index) == Superseded(s, pool, index)
    {
      if Superseded(s, pool, index) {
        var later: nat :| index < later && later % MAX_CONNECTIONS == index % MAX_CONNECTIONS && IsPublished(s, pool, later);
        assert IsPublished(s', pool, later);
      }
      if Superseded(s', pool, index) {
        var later: nat :| index < later && later % MAX_CONNECTIONS == index % MAX_CONNECTIONS && IsPublished(s', pool, later);
        assert IsPublished(s, pool, later);
      }
    }
  }

  lemma QuietPlace(s: State, s': State, w: nat, fd: int, unix: int, u: int)
    requires ShapeOk(s) && ShapeOk(s') && QuietMove(s, s', w) && Touches(s, s', w, fd, unix)
    requires u in s.backend && u != unix && PlaceOk(s, u)
    requires s.registered - {fd} <= s'.registered
    requires forall v :: v in s.workers && v != w && OwnsFd(s.workers[v]) ==> s.workers[v].fd != fd
    requires s.place[u] != Leased(fd) && s.place[u] != Held(w)
    ensures PlaceOk(s', u)
  {
    hide Entries, Storing, Superseded, Live;
    QuietSlots(s, s', w);
  }

  /** The places after a quiet step that only passes one connection on. */
  lemma QuietPlaces(s: State, s': State, w: nat, fd: int, unix: int)
    requires ShapeOk(s) && PlacesOk(s) && ShapeOk(s') && QuietMove(s, s', w) && Touches(s, s', w, fd, unix)
    requires unix in s.backend ==> PlaceOk(s', unix)
    requires s.registered - {fd} <= s'.registered
    requires s'.place.Keys == s.place.Keys
    requires forall v :: v in s.workers && v != w && OwnsFd(s.workers[v]) ==> s.workers[v].fd != fd
    requires forall u :: u in s.backend && u != unix ==> s.place[u] != Leased(fd) && s.place[u] != Held(w)
    ensures PlacesOk(s')
  {
    hide PlaceOk, Entries, Backed, PositionShape;
    forall u <- s'.backend ensures PlaceOk(s', u) {
      if u != unix {
        assert PlaceOk(s, u);
        QuietPlace(s, s', w, fd, unix, u);
      }
    }
  }

  lemma QuietIndices(s: State, s': State, w: nat, fd: int, unix: int)
    requires ShapeOk(s) && IndicesOk(s) && ShapeOk(s') && QuietMove(s, s', w) && Touches(s, s', w, fd, unix)
    requires s.place.Keys == s.backend.Keys == s'.place.Keys
    requires unix in s.place ==> !s.place[unix].Free? && !s.place[unix].Entering?
    requires unix in s'.place ==> !s'.place[unix].Free? && !s'.place[unix].Entering?
    ensures IndicesOk(s')
  {
    QuietSlots(s, s', w);
    forall pool, index: nat | 0 <= pool < 2 && Live(s', pool, index) ensures Occupied(s', pool, index) {
      assert Occupied(s, pool, index);
      var u :| u in s.backend && s.backend[u] == pool && InSlot(s, u, index);
      assert InSlot(s', u, index);
    }
    assert forall u, index: nat :: u in s.backend && InSlot(s', u, index) ==> InSlot(s, u, index);
    assert forall v, pool, index: nat :: v in s'.workers && PopsAt(s'.workers[v], pool, index) ==>
             v in s.workers && PopsAt(s.workers[v], pool, index);
  }
}
