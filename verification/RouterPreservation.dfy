/** Each step of the router keeps the invariant, provided the free lists are used in time. */
module RouterPreservation {
  import opened Router
  import opened RouterInvariant

  lemma ShapeKeeps(s: State, step: Step)
    requires ShapeOk(s) && Enabled(s, step)
    ensures ShapeOk(Take(s, step))
  {
    hide ShapeOk, Enabled, TakeLease, TakeBackend, TakeRelease;
    if Leases(step) {
      LeaseKeepsShape(s, step);
    } else if Backends(step) {
      BackendKeepsShape(s, step);
    } else {
      ReleaseKeepsShape(s, step);
    }
  }

  lemma EntriesKept(table: seq<int>, i: int, value: int)
    requires Entries(table) && 0 <= i < |table| && (value == -1 || ValidFd(value))
    ensures Entries(table[i := value])
  {
  }

  lemma EntryAt(table: seq<int>, i: int)
    requires Entries(table) && 0 <= i < |table|
    ensures table[i] == -1 || ValidFd(table[i])
  {
  }

  lemma LeaseKeepsShape(s: State, step: Step)
    requires ShapeOk(s) && Enabled(s, step) && Leases(step)
    ensures ShapeOk(TakeLease(s, step))
  {
    hide Backed, Entries;
    var p := At(s, step.worker);
    if step.LinkTcp? {
      EntriesKept(s.tcpToUnix, p.fd, p.unix);
    } else if step.LinkUnix? {
      EntriesKept(s.unixToTcp, p.unix, p.fd);
    } else if step.TakeFree? {
      EntryAt(s.pools[p.pool].ring, p.index % MAX_CONNECTIONS);
    }
  }

  lemma ReleaseKeepsShape(s: State, step: Step)
    requires ShapeOk(s) && Enabled(s, step) && !Leases(step) && !Backends(step)
    ensures ShapeOk(TakeRelease(s, step))
  {
    hide ShapeOk, Enabled, TakeRelease;
    if step.UnlinkUnix? || step.UnlinkTcp? || step.Publish? {
      StoreKeepsShape(s, step);
    } else {
      MoveKeepsShape(s, step);
    }
  }

  lemma StoreKeepsShape(s: State, step: Step)
    requires ShapeOk(s) && Enabled(s, step) && (step.UnlinkUnix? || step.UnlinkTcp? || step.Publish?)
    ensures ShapeOk(TakeRelease(s, step))
  {
    hide Entries, TakeLookup, Destination;
    var p := At(s, step.worker);
    if step.UnlinkUnix? {
      EntriesKept(s.unixToTcp, p.unix, -1);
    } else if step.UnlinkTcp? {
      EntriesKept(s.tcpToUnix, p.fd, -1);
    } else {
      EntriesKept(s.pools[p.pool].ring, p.index % MAX_CONNECTIONS, p.unix);
    }
  }

  lemma MoveKeepsShape(s: State, step: Step)
    requires ShapeOk(s) && Enabled(s, step) && !Leases(step) && !Backends(step)
    requires !step.UnlinkUnix? && !step.UnlinkTcp? && !step.Publish?
    ensures ShapeOk(TakeRelease(s, step))
  {
    hide Entries, TakeLookup, Destination;
    var p := At(s, step.worker);
    if step.Route? {
      DestinationShape(s, p.fd);
    } else if step.Lookup? {
      LookupShape(s, step.worker, p.fd);
    }
  }

  lemma BackendKeepsShape(s: State, step: Step)
    requires ShapeOk(s) && Enabled(s, step) && Backends(step)
    ensures ShapeOk(TakeBackend(s, step))
  {
    hide Entries, Destination, TakeLookup;
    var p := At(s, step.worker);
    if step.RouteUnix? {
      DestinationShape(s, p.unix);
    } else if step.LookupUnix? {
      LookupShape(s, step.worker, p.unix);
    }
  }

  lemma DestinationShape(s: State, fd: int)
    requires ShapeOk(s) && ValidFd(fd)
    ensures Destination(s, fd) == -1 || ValidFd(Destination(s, fd))
  {
    EntryAt(s.tcpToUnix, fd);
    EntryAt(s.unixToTcp, fd);
  }

  lemma LookupShape(s: State, w: nat, fd: int)
    requires ShapeOk(s) && ValidFd(fd)
    ensures ShapeOk(TakeLookup(s, w, fd))
  {
    hide Entries;
    EntryAt(s.tcpToUnix, fd);
    EntryAt(s.unixToTcp, fd);
    var tcp := s.unixToTcp[fd];
    if tcp != -1 {
      EntriesKept(s.tcpToUnix, tcp, -1);
      EntriesKept(s.unixToTcp, fd, -1);
    }
  }

  /** Only `fd` changes hands: what the sets of descriptors need from the step. */
  ghost predicate HandsOn(s: State, s': State, w: nat, fd: int, unix: int)
    requires ShapeOk(s) && ShapeOk(s')
  {
    && Touches(s, s', w, fd, unix)
    && NotOthers(s, w, unix)
    && (unix in s.place && s.place[unix].Leased? ==> s.place[unix].fd == fd)
    && ValidFd(fd) && fd !in s.backend
    && (unix == -1 || unix in s.backend)
    && (w in s.workers && OwnsFd(s.workers[w]) ==> s.workers[w].fd == fd)
    && (fd in s'.open ==> fd in s'.registered || (w in s'.workers && ServesClient(s'.workers[w], fd)))
    && s'.open - {fd} == s.open - {fd}
    && s'.registered - {fd} == s.registered - {fd}
    && w in s'.workers
    && (OwnsFd(s'.workers[w]) ==> s'.workers[w].fd == fd && fd in s'.open && fd !in s'.registered)
    && (fd in s'.registered ==> fd in s'.open && RegisteredOk(s', fd))
    && (fd !in s'.open ==> s'.tcpToUnix[fd] == -1)
  }

  /** The worker's client is its own, or nobody's yet. */
  ghost predicate Exclusive(s: State, w: nat, fd: int) {
    forall v :: v in s.workers && v != w && OwnsFd(s.workers[v]) ==> s.workers[v].fd != fd
  }

  lemma ServedFrame(s: State, s': State, w: nat, fd: int, unix: int)
    requires ShapeOk(s) && FdsOk(s) && ShapeOk(s') && HandsOn(s, s', w, fd, unix)
    ensures forall f <- s'.open :: f in s'.registered || Served(s', f)
  {
    hide RegisteredOk, PositionShape, Entry;
    forall f | f in s'.open && f !in s'.registered ensures Served(s', f) {
      if f != fd {
        assert f in s.open - {fd} && f !in s.registered - {fd};
        var v :| v in s.workers && ServesClient(s.workers[v], f);
        assert ServesClient(s'.workers[v], f);
      }
    }
  }

  lemma FdsFrame(s: State, s': State, w: nat, fd: int, unix: int)
    requires ShapeOk(s) && FdsOk(s) && ShapeOk(s') && HandsOn(s, s', w, fd, unix) && Exclusive(s, w, fd)
    ensures FdsOk(s')
  {
    hide PositionShape, Entry, Served;
    forall f <- s'.registered ensures RegisteredOk(s', f) {
      if f != fd {
        assert f in s.registered - {fd};
        assert RegisteredOk(s, f);
        OtherRegistered(s, s', w, fd, unix, f);
      }
    }
    forall v | v in s'.workers && OwnsFd(s'.workers[v]) ensures s'.workers[v].fd in s'.open - s'.registered {
      if v != w {
        assert s.workers[v].fd in s.open - {fd};
        assert s.workers[v].fd !in s.registered - {fd};
      }
    }
    forall f | ValidFd(f) && f !in s'.open ensures s'.tcpToUnix[f] == -1 {
      if f != fd {
        assert f !in s.open - {fd};
      }
    }
    forall f <- s'.open ensures ValidFd(f) && f !in s'.backend {
      assert f == fd || f in s.open - {fd};
    }
    ServedFrame(s, s', w, fd, unix);
    assert s'.registered <= s'.open by {
      forall f <- s'.registered ensures f in s'.open {
        assert f == fd || f in s.open - {fd};
      }
    }
  }

  lemma StepFrame(s: State, s': State, w: nat, fd: int, unix: int)
    requires Inv(s) && ShapeOk(s') && HandsOn(s, s', w, fd, unix) && Exclusive(s, w, fd)
    requires WorkerOk(s', w, s'.workers[w])
    ensures FdsOk(s') && WorkersOk(s')
  {
    FdsFrame(s, s', w, fd, unix);
    OtherWorkers(s, s', w, fd, unix);
  }

  lemma OwnFd(s: State, w: nat)
    requires Inv(s) && w in s.workers && OwnsFd(s.workers[w])
    ensures var fd := s.workers[w].fd;
            fd in s.open && fd !in s.registered && fd !in s.backend && Exclusive(s, w, fd)
    ensures WorkerOk(s, w, s.workers[w])
  {
  }

  lemma FreshFd(s: State, w: nat, fd: int)
    requires Inv(s) && ValidFd(fd) && fd !in s.open
    ensures s.tcpToUnix[fd] == -1 && fd !in s.registered && Exclusive(s, w, fd)
    ensures w in s.workers && OwnsFd(s.workers[w]) ==> s.workers[w].fd != fd
  {
  }

  lemma NoConnection(s: State)
    requires Inv(s)
    ensures -1 !in s.backend && s.place.Keys == s.backend.Keys
  {
  }

  /** The places of the connections a worker without a free-list step does not carry. */
  ghost predicate Untouched(s: State, w: nat, fd: int, unix: int)
    requires s.place.Keys == s.backend.Keys
  {
    forall u :: u in s.backend && u != unix ==> s.place[u] != Leased(fd) && s.place[u] != Held(w)
  }

  lemma OwnPlaces(s: State, w: nat, fd: int, unix: int)
    requires Inv(s)
    requires w in s.workers ==> forall u :: Carries(s, s.workers[w], u) ==> u == unix
    requires fd in s.registered ==> s.tcpToUnix[fd] == unix
    ensures Untouched(s, w, fd, unix)
  {
    forall u | u in s.backend && u != unix ensures s.place[u] != Leased(fd) && s.place[u] != Held(w) {
      assert PlaceOk(s, u);
    }
  }

  /** A step outside the free lists. */
  lemma QuietKeeps(s: State, s': State, w: nat, fd: int, unix: int)
    requires Inv(s) && ShapeOk(s') && !s'.aborted && QuietMove(s, s', w) && HandsOn(s, s', w, fd, unix) && Exclusive(s, w, fd)
    requires s'.place.Keys == s.place.Keys && Untouched(s, w, fd, unix)
    requires unix in s.backend ==> !s.place[unix].Free? && !s.place[unix].Entering? && PlaceOk(s', unix)
    requires unix in s'.place ==> !s'.place[unix].Free? && !s'.place[unix].Entering?
    requires WorkerOk(s', w, s'.workers[w])
    ensures Inv(s')
  {
    StepFrame(s, s', w, fd, unix);
    QuietPlaces(s, s', w, fd, unix);
    QuietIndices(s, s', w, fd, unix);
  }

  lemma AcceptKeeps(s: State, w: nat, fd: int)
    requires Inv(s) && Enabled(s, Accept(w, fd))
    ensures Inv(Take(s, Accept(w, fd)))
  {
    hide FdsOk, WorkersOk, PlacesOk, IndicesOk, Entries, Backed, TakeRelease, TakeBackend;
    var s' := Take(s, Accept(w, fd));
    ShapeKeeps(s, Accept(w, fd));
    FreshFd(s, w, fd);
    NoConnection(s);
    OwnPlaces(s, w, fd, -1);
    QuietKeeps(s, s', w, fd, -1);
  }

  lemma ChooseKeeps(s: State, w: nat)
    requires Inv(s) && Enabled(s, Choose(w))
    ensures Inv(Take(s, Choose(w)))
  {
    hide FdsOk, WorkersOk, PlacesOk, IndicesOk, Entries, Backed, TakeRelease, TakeBackend;
    var s' := Take(s, Choose(w));
    ShapeKeeps(s, Choose(w));
    NoConnection(s);
    OwnFd(s, w);
    OwnPlaces(s, w, s.workers[w].fd, -1);
    QuietKeeps(s, s', w, s.workers[w].fd, -1);
  }

  predicate Carrying(p: Position) {
    p.Holding? || p.Linked? || p.Ready? || p.Woken? || p.Serving? || p.Forwarded? || p.Releasing? || p.Unlinking?
    || p.HalfUnlinked? || p.Unlinked?
  }

  /** Steps of a worker that has connection `unix` in hand and keeps it. */
  lemma CarrierKeeps(s: State, s': State, w: nat, unix: int)
    requires Inv(s) && w in s.workers && Carrying(s.workers[w]) && Carries(s, s.workers[w], unix)
    requires ShapeOk(s') && !s'.aborted && QuietMove(s, s', w) && Touches(s, s', w, s.workers[w].fd, unix)
    requires s'.place == s.place && s'.open == s.open && s'.registered == s.registered
    requires OwnsFd(s'.workers[w]) && s'.workers[w].fd == s.workers[w].fd
    requires Carries(s', s'.workers[w], unix)
    requires WorkerOk(s', w, s'.workers[w])
    ensures Inv(s')
  {
    OwnFd(s, w);
    OwnPlaces(s, w, s.workers[w].fd, unix);
    QuietKeeps(s, s', w, s.workers[w].fd, unix);
  }

  lemma LinkKeeps(s: State, step: Step)
    requires Inv(s) && Enabled(s, step) && (step.LinkTcp? || step.LinkUnix?)
    ensures Inv(Take(s, step))
  {
    hide FdsOk, PlacesOk, IndicesOk, Entries, Backed, TakeRelease, TakeBackend;
    OwnFd(s, step.worker);
    ShapeKeeps(s, step);
    CarrierKeeps(s, Take(s, step), step.worker, s.workers[step.worker].unix);
  }

  /** Where the steps between the wake-up and the release take the worker. */
  function ServePosition(step: Step, fd: int, unix: int): Position {
    if step.Route? then Serving(fd, unix) else if step.HangUp? then Releasing(fd) else Unlinking(fd, unix)
  }

  lemma ServeMoves(s: State, step: Step)
    requires ShapeOk(s) && Enabled(s, step) && (step.Route? || step.HangUp? || step.Lookup?)
    ensures var p := At(s, step.worker);
            && step.worker in s.workers && (p.Woken? || p.Serving? || p.Releasing?)
            && (s.tcpToUnix[p.fd] != -1 ==>
                  Take(s, step) == s.(workers := s.workers[step.worker := ServePosition(step, p.fd, s.tcpToUnix[p.fd])]))
  {
  }

  lemma ServeKeeps(s: State, step: Step)
    requires Inv(s) && Enabled(s, step) && (step.Route? || step.HangUp? || step.Lookup?)
    ensures Inv(Take(s, step))
  {
    hide FdsOk, PlacesOk, IndicesOk, Entries, Backed, Take, Enabled;
    ServeMoves(s, step);
    OwnFd(s, step.worker);
    ShapeKeeps(s, step);
    CarrierKeeps(s, Take(s, step), step.worker, s.tcpToUnix[s.workers[step.worker].fd]);
  }

  function HolderPosition(step: Step, fd: int, unix: int): Position {
    if step.Forward? then Forwarded(fd, unix) else if step.UnlinkUnix? then HalfUnlinked(fd, unix) else Unlinked(fd, unix)
  }

  lemma HolderMoves(s: State, step: Step)
    requires ShapeOk(s) && Enabled(s, step) && (step.Forward? || step.UnlinkUnix? || step.UnlinkTcp?)
    ensures var p := At(s, step.worker);
            && step.worker in s.workers && (p.Serving? || p.Unlinking? || p.HalfUnlinked?)
            && (p.Serving? <==> step.Forward?) && (p.Unlinking? <==> step.UnlinkUnix?)
            && Take(s, step) == s.(workers := s.workers[step.worker := HolderPosition(step, p.fd, p.unix)],
                                   unixToTcp := if step.UnlinkUnix? then s.unixToTcp[p.unix := -1] else s.unixToTcp,
                                   tcpToUnix := if step.UnlinkTcp? then s.tcpToUnix[p.fd := -1] else s.tcpToUnix)
  {
  }

  /** A worker with the connection of its client in hand goes on with it. */
  lemma HolderKeeps(s: State, step: Step)
    requires Inv(s) && Enabled(s, step) && (step.Forward? || step.UnlinkUnix? || step.UnlinkTcp?)
    ensures Inv(Take(s, step))
  {
    hide FdsOk, PlacesOk, IndicesOk, Entries, Backed, Take, Enabled;
    HolderMoves(s, step);
    OwnFd(s, step.worker);
    ShapeKeeps(s, step);
    CarrierKeeps(s, Take(s, step), step.worker, s.workers[step.worker].unix);
  }

  predicate Returns(step: Step) {
    step.Register? || step.Rearm? || step.DataAndEnd?
  }

  lemma AllReturn(s: State, step: Step)
    requires ShapeOk(s) && Enabled(s, step) && Returns(step)
    ensures var p := At(s, step.worker);
            && Take(s, step) == Return(s, step.worker, p.fd, p.unix, if step.DataAndEnd? then Doomed else Waiting)
            && (p.Ready? || p.Forwarded?) && step.worker in s.workers
  {
  }

  /** The client is handed back to epoll. */
  lemma ReturnKeeps(s: State, step: Step)
    requires Inv(s) && Enabled(s, step) && Returns(step)
    ensures Inv(Take(s, step))
  {
    hide FdsOk, WorkersOk, PlacesOk, IndicesOk, Entries, Backed, Take, Enabled;
    AllReturn(s, step);
    NoConnection(s);
    var w := step.worker;
    var p := s.workers[w];
    OwnFd(s, w);
    ShapeKeeps(s, step);
    OwnPlaces(s, w, p.fd, p.unix);
    var s' := Return(s, w, p.fd, p.unix, if step.DataAndEnd? then Doomed else Waiting);
    assert PlaceOk(s', p.unix);
    QuietKeeps(s, s', w, p.fd, p.unix);
  }

  lemma WakeKeeps(s: State, w: nat, fd: int)
    requires Inv(s) && Enabled(s, Wake(w, fd))
    ensures Inv(Take(s, Wake(w, fd)))
  {
    hide IndicesOk, Entries, Backed, TakeLease, TakeBackend;
    var s' := Take(s, Wake(w, fd));
    var unix := s.tcpToUnix[fd];
    assert RegisteredOk(s, fd);
    ShapeKeeps(s, Wake(w, fd));
    NoConnection(s);
    OwnPlaces(s, w, fd, unix);
    assert PlaceOk(s', unix);
    QuietKeeps(s, s', w, fd, unix);
  }

  lemma CloseKeeps(s: State, w: nat)
    requires Inv(s) && Enabled(s, Close(w))
    ensures Inv(Take(s, Close(w)))
  {
    hide FdsOk, WorkersOk, PlacesOk, IndicesOk, Entries, Backed, TakeLease, TakeBackend;
    var s' := Take(s, Close(w));
    OwnFd(s, w);
    ShapeKeeps(s, Close(w));
    NoConnection(s);
    OwnPlaces(s, w, s.workers[w].fd, -1);
    QuietKeeps(s, s', w, s.workers[w].fd, -1);
  }

  // ----- The four steps on the free lists -----

  lemma ReserveFreeKeeps(s: State, w: nat)
    requires Inv(s) && Enabled(s, ReserveFree(w))
    ensures Inv(Take(s, ReserveFree(w)))
  {
    hide FdsOk, WorkersOk, PlacesOk, IndicesOk, Entries, Backed, TakeRelease, TakeBackend;
    var s' := Take(s, ReserveFree(w));
    OwnFd(s, w);
    ShapeKeeps(s, ReserveFree(w));
    NoConnection(s);
    StepFrame(s, s', w, s.workers[w].fd, -1);
    ReserveFreeSlots(s, s', w);
    ReserveFreePlaces(s, s', w);
    ReserveFreeIndices(s, s', w);
  }

  lemma ReserveFreePlaces(s: State, s': State, w: nat)
    requires ShapeOk(s) && PlacesOk(s) && Enabled(s, ReserveFree(w)) && s' == Take(s, ReserveFree(w)) && ShapeOk(s')
    requires forall pool, index: nat :: Storing(s', pool, index) == Storing(s, pool, index)
    requires forall pool, index: nat :: 0 <= pool < 2 ==> Live(s', pool, index) == Live(s, pool, index)
    requires forall pool, index: nat :: 0 <= pool < 2 ==> Superseded(s', pool, index) == Superseded(s, pool, index)
    ensures PlacesOk(s')
  {
    forall u <- s'.backend ensures PlaceOk(s', u) {
      assert PlaceOk(s, u);
    }
  }

  /** Only `w` moved: an index it neither enters nor leaves keeps its status. */
  lemma WorkersFrame(s: State, s': State, w: nat)
    requires w in s.workers && w in s'.workers
    requires forall v <- s.workers :: v != w ==> v in s'.workers && s'.workers[v] == s.workers[v]
    requires forall v <- s'.workers :: v != w ==> v in s.workers
    ensures forall b, i: nat :: !StoresAt(s.workers[w], b, i) && !StoresAt(s'.workers[w], b, i) ==>
              Storing(s', b, i) == Storing(s, b, i)
    ensures forall b, i: nat :: !PopsAt(s.workers[w], b, i) && !PopsAt(s'.workers[w], b, i) ==>
              Popped(s', b, i) == Popped(s, b, i)
    ensures forall b, i: nat :: StoresAt(s'.workers[w], b, i) ==> Storing(s', b, i)
    ensures forall b, i: nat :: PopsAt(s'.workers[w], b, i) ==> Popped(s', b, i)
    ensures forall b, i: nat :: StoresAt(s.workers[w], b, i) ==> Storing(s, b, i)
    ensures forall b, i: nat :: PopsAt(s.workers[w], b, i) ==> Popped(s, b, i)
  {
    forall b, i: nat | !StoresAt(s.workers[w], b, i) && !StoresAt(s'.workers[w], b, i)
      ensures Storing(s', b, i) == Storing(s, b, i)
    {
      if Storing(s, b, i) {
        var v :| v in s.workers && StoresAt(s.workers[v], b, i);
        assert StoresAt(s'.workers[v], b, i);
      }
      if Storing(s', b, i) {
        var v :| v in s'.workers && StoresAt(s'.workers[v], b, i);
        assert StoresAt(s.workers[v], b, i);
      }
    }
    forall b, i: nat | !PopsAt(s.workers[w], b, i) && !PopsAt(s'.workers[w], b, i)
      ensures Popped(s', b, i) == Popped(s, b, i)
    {
      if Popped(s, b, i) {
        var v :| v in s.workers && PopsAt(s.workers[v], b, i);
        assert PopsAt(s'.workers[v], b, i);
      }
      if Popped(s', b, i) {
        var v :| v in s'.workers && PopsAt(s'.workers[v], b, i);
        assert PopsAt(s.workers[v], b, i);
      }
    }
  }

  lemma ReserveFreeSlots(s: State, s': State, w: nat)
    requires ShapeOk(s) && IndicesOk(s) && Enabled(s, ReserveFree(w)) && s' == Take(s, ReserveFree(w)) && ShapeOk(s')
    ensures forall pool, index: nat :: Storing(s', pool, index) == Storing(s, pool, index)
    ensures forall pool, index: nat :: 0 <= pool < 2 ==> Live(s', pool, index) == Live(s, pool, index)
    ensures forall pool, index: nat :: 0 <= pool < 2 ==> Superseded(s', pool, index) == Superseded(s, pool, index)
    ensures forall pool, index: nat :: 0 <= pool < 2 && s'.pools[pool].end <= index < s'.pools[pool].start ==>
              Popped(s', pool, index)
  {
    WorkersFrame(s, s', w);
    var p := s.workers[w];
    assert PopsAt(s'.workers[w], p.pool, s.pools[p.pool].start);
    SupersededFrame(s, s');
  }

  lemma ReserveFreeIndices(s: State, s': State, w: nat)
    requires ShapeOk(s) && IndicesOk(s) && WorkersOk(s)
    requires Enabled(s, ReserveFree(w)) && s' == Take(s, ReserveFree(w)) && ShapeOk(s')
    requires forall pool, index: nat :: 0 <= pool < 2 ==> Live(s', pool, index) == Live(s, pool, index)
    requires forall pool, index: nat :: 0 <= pool < 2 && s'.pools[pool].end <= index < s'.pools[pool].start ==>
               Popped(s', pool, index)
    ensures IndicesOk(s')
  {
    SlotsFrame(s, s');
    forall v, x, pool, index: nat |
      v in s'.workers && x in s'.workers && PopsAt(s'.workers[v], pool, index) && PopsAt(s'.workers[x], pool, index)
      ensures v == x
    {
      if v != w {
        FreshPop(s, w, v, pool, index);
      }
      if x != w {
        FreshPop(s, w, x, pool, index);
      }
    }
  }

  /** Nobody else holds the index a new pop reserves. */
  lemma FreshPop(s: State, w: nat, v: nat, pool: int, index: nat)
    requires ShapeOk(s) && WorkersOk(s) && Enabled(s, ReserveFree(w))
    requires v in s.workers && v != w && PopsAt(s.workers[v], pool, index)
    ensures index < s.pools[pool].start
  {
    assert WorkerOk(s, v, s.workers[v]);
  }

  /** Slots occupied as before stay occupied. */
  lemma SlotsFrame(s: State, s': State)
    requires ShapeOk(s) && ShapeOk(s') && IndicesOk(s) && s'.backend == s.backend
    requires forall u, index: nat :: u in s.backend ==> InSlot(s', u, index) == InSlot(s, u, index)
    requires forall pool, index: nat :: 0 <= pool < 2 && Live(s', pool, index) ==> Live(s, pool, index)
    ensures forall pool, index: nat :: 0 <= pool < 2 && Live(s', pool, index) ==> Occupied(s', pool, index)
    ensures forall u, v, index: nat |
              u in s.backend && v in s.backend && s.backend[u] == s.backend[v] && InSlot(s', u, index) && InSlot(s', v, index) ::
              u == v
  {
    forall pool, index: nat | 0 <= pool < 2 && Live(s', pool, index) ensures Occupied(s', pool, index) {
      assert Occupied(s, pool, index);
      var u :| u in s.backend && s.backend[u] == pool && InSlot(s, u, index);
      assert InSlot(s', u, index);
    }
  }

  /** The connection is free in this slot and nobody's client has it. */
  ghost predicate FreeAt(s: State, unix: int, pool: int, index: nat)
    requires ShapeOk(s)
  {
    && unix in s.backend && s.backend[unix] == pool
    && unix in s.place && s.place[unix] == Free(index)
    && ValidFd(unix) && s.unixToTcp[unix] == -1
  }

  /** A slot read in time yields the connection that was free there. */
  lemma TimelyPop(s: State, w: nat)
    requires Inv(s) && Enabled(s, TakeFree(w)) && Timely(s, TakeFree(w))
    ensures FreeAt(s, SlotRead(s, w), s.workers[w].pool, s.workers[w].index)
  {
    var p := s.workers[w];
    assert PopsAt(p, p.pool, p.index);
    assert Live(s, p.pool, p.index);
    assert Occupied(s, p.pool, p.index);
    var u :| u in s.backend && s.backend[u] == p.pool && InSlot(s, u, p.index);
    assert PlaceOk(s, u);
  }

  lemma TakeFreeSlots(s: State, s': State, w: nat)
    requires ShapeOk(s) && IndicesOk(s) && WorkersOk(s)
    requires Enabled(s, TakeFree(w)) && s' == Take(s, TakeFree(w)) && ShapeOk(s') && s'.workers[w].Holding?
    ensures forall pool, index: nat :: Storing(s', pool, index) == Storing(s, pool, index)
    ensures forall pool, index: nat :: 0 <= pool < 2 && (pool, index) != (s.workers[w].pool, s.workers[w].index) ==>
              Popped(s', pool, index) == Popped(s, pool, index) && Live(s', pool, index) == Live(s, pool, index)
    ensures !Live(s', s.workers[w].pool, s.workers[w].index)
    ensures forall pool, index: nat :: 0 <= pool < 2 ==> Superseded(s', pool, index) == Superseded(s, pool, index)
  {
    WorkersFrame(s, s', w);
    var p := s.workers[w];
    assert WorkerOk(s, w, p);
    assert PopsAt(p, p.pool, p.index);
    assert forall v :: v in s.workers && v != w ==> !PopsAt(s.workers[v], p.pool, p.index);
    SupersededFrame(s, s');
  }

  /** The step takes `unix` out of the slot it was free in. */
  ghost predicate PopsFree(s: State, s': State, w: nat, unix: int)
    requires ShapeOk(s)
  {
    && Enabled(s, TakeFree(w)) && s' == Take(s, TakeFree(w)) && ShapeOk(s')
    && s'.workers[w] == Holding(s.workers[w].fd, unix)
    && FreeAt(s, unix, s.workers[w].pool, s.workers[w].index)
    && s.workers[w].index < s.pools[s.workers[w].pool].end
  }

  lemma TimelyPopsFree(s: State, w: nat) returns (unix: int)
    requires Inv(s) && Enabled(s, TakeFree(w)) && Timely(s, TakeFree(w))
    ensures PopsFree(s, Take(s, TakeFree(w)), w, unix)
  {
    unix := SlotRead(s, w);
    TimelyPop(s, w);
    ShapeKeeps(s, TakeFree(w));
  }

  lemma TakeFreePlaces(s: State, s': State, w: nat, unix: int)
    requires ShapeOk(s) && PlacesOk(s) && IndicesOk(s) && WorkersOk(s)
    requires PopsFree(s, s', w, unix)
    ensures PlacesOk(s')
  {
    var p := s.workers[w];
    TakeFreeSlots(s, s', w);
    assert InSlot(s, unix, p.index);
    forall u <- s'.backend ensures PlaceOk(s', u) {
      assert PlaceOk(s, u);
      if u != unix && (s.place[u].Free? || s.place[u].Entering?) {
        assert InSlot(s, u, s.place[u].index);
      }
    }
  }

  lemma TakeFreeIndices(s: State, s': State, w: nat, unix: int)
    requires ShapeOk(s) && IndicesOk(s) && WorkersOk(s)
    requires PopsFree(s, s', w, unix)
    ensures IndicesOk(s')
  {
    TakeFreeSlots(s, s', w);
    forall pool, index: nat | 0 <= pool < 2 && Live(s', pool, index) ensures Occupied(s', pool, index) {
      assert Occupied(s, pool, index);
      var u :| u in s.backend && s.backend[u] == pool && InSlot(s, u, index);
      assert InSlot(s', u, index);
    }
    assert forall u, index: nat :: InSlot(s', u, index) ==> InSlot(s, u, index);
    assert forall v, pool, index: nat :: v in s'.workers && PopsAt(s'.workers[v], pool, index) ==>
             v in s.workers && PopsAt(s.workers[v], pool, index);
  }

  lemma TakeFreeFrame(s: State, s': State, w: nat, unix: int)
    requires Inv(s) && PopsFree(s, s', w, unix)
    ensures FdsOk(s') && WorkersOk(s')
  {
    hide PlacesOk, Entries, Backed, TakeRelease, TakeBackend;
    OwnFd(s, w);
    StepFrame(s, s', w, s.workers[w].fd, unix);
  }

  lemma TakeFreeKeeps(s: State, w: nat)
    requires Inv(s) && Enabled(s, TakeFree(w)) && Timely(s, TakeFree(w))
    ensures Inv(Take(s, TakeFree(w)))
  {
    var s' := Take(s, TakeFree(w));
    var unix := TimelyPopsFree(s, w);
    TakeFreeFrame(s, s', w, unix);
    TakeFreePlaces(s, s', w, unix);
    TakeFreeIndices(s, s', w, unix);
  }

  lemma ReserveSlotSlots(s: State, s': State, w: nat)
    requires ShapeOk(s) && Enabled(s, ReserveSlot(w)) && s' == Take(s, ReserveSlot(w)) && ShapeOk(s')
    ensures var pool := PoolOf(s, s.workers[w].unix);
            && Storing(s', pool, s.pools[pool].end)
            && forall b, index: nat :: (b, index) != (pool, s.pools[pool].end) ==>
                 Storing(s', b, index) == Storing(s, b, index)
    ensures forall b, index: nat :: Popped(s', b, index) == Popped(s, b, index)
    ensures forall b, index: nat :: 0 <= b < 2 ==> Superseded(s', b, index) == Superseded(s, b, index)
  {
    WorkersFrame(s, s', w);
    var pool := PoolOf(s, s.workers[w].unix);
    assert StoresAt(s'.workers[w], pool, s.pools[pool].end);
    SupersededFrame(s, s');
  }

  lemma ReserveSlotPlaces(s: State, s': State, w: nat)
    requires ShapeOk(s) && PlacesOk(s) && IndicesOk(s)
    requires Enabled(s, ReserveSlot(w)) && s' == Take(s, ReserveSlot(w)) && ShapeOk(s')
    requires s.workers[w].unix in s.backend && s.place[s.workers[w].unix] == Held(w)
    ensures PlacesOk(s')
  {
    ReserveSlotSlots(s, s', w);
    var p := s.workers[w];
    forall u <- s'.backend ensures PlaceOk(s', u) {
      assert PlaceOk(s, u);
    }
  }

  lemma ReserveSlotIndices(s: State, s': State, w: nat)
    requires ShapeOk(s) && IndicesOk(s) && PlacesOk(s)
    requires Enabled(s, ReserveSlot(w)) && s' == Take(s, ReserveSlot(w)) && ShapeOk(s')
    requires s.workers[w].unix in s.backend && s.place[s.workers[w].unix] == Held(w)
    ensures IndicesOk(s')
  {
    hide PositionShape, Entry;
    ReserveSlotSlots(s, s', w);
    var p := s.workers[w];
    var pool := PoolOf(s, p.unix);
    var end := s.pools[pool].end;
    forall b, index: nat | 0 <= b < 2 && Live(s', b, index) ensures Occupied(s', b, index) {
      if (b, index) == (pool, end) {
        assert InSlot(s', p.unix, index);
      } else {
        assert Live(s, b, index);
        assert Occupied(s, b, index);
        var u :| u in s.backend && s.backend[u] == b && InSlot(s, u, index);
        assert InSlot(s', u, index);
      }
    }
    forall u, index: nat | u in s.backend && InSlot(s', u, index) && u != p.unix
      ensures InSlot(s, u, index) && index < s.pools[s.backend[u]].end
    {
      assert PlaceOk(s, u);
    }
    assert forall v, b, index: nat :: v in s'.workers && PopsAt(s'.workers[v], b, index) ==>
             v in s.workers && PopsAt(s.workers[v], b, index);
  }

  lemma ReserveSlotKeeps(s: State, w: nat)
    requires Inv(s) && Enabled(s, ReserveSlot(w))
    ensures Inv(Take(s, ReserveSlot(w)))
  {
    hide FdsOk, WorkersOk, PlacesOk, IndicesOk, Entries, TakeLease, TakeBackend;
    var s' := Take(s, ReserveSlot(w));
    OwnFd(s, w);
    ShapeKeeps(s, ReserveSlot(w));
    StepFrame(s, s', w, s.workers[w].fd, s.workers[w].unix);
    ReserveSlotPlaces(s, s', w);
    ReserveSlotIndices(s, s', w);
  }

  /** Nobody else stores into the index a worker is about to publish. */
  lemma SoleStorer(s: State, w: nat, v: nat)
    requires Inv(s) && Enabled(s, Publish(w)) && v in s.workers
    requires StoresAt(s.workers[v], s.workers[w].pool, s.workers[w].index)
    ensures v == w
  {
    hide FdsOk, PlacesOk, Entries, Backed;
    var p := s.workers[w];
    assert WorkerOk(s, v, s.workers[v]) && WorkerOk(s, w, p);
    assert InSlot(s, s.workers[v].unix, p.index) && InSlot(s, p.unix, p.index);
  }

  lemma PublishSlots(s: State, s': State, w: nat)
    requires Inv(s) && Enabled(s, Publish(w)) && s' == Take(s, Publish(w)) && ShapeOk(s')
    ensures var p := s.workers[w];
            && IsPublished(s', p.pool, p.index)
            && forall b, index: nat :: (b, index) != (p.pool, p.index) ==> Storing(s', b, index) == Storing(s, b, index)
    ensures forall b, index: nat :: Popped(s', b, index) == Popped(s, b, index)
  {
    hide FdsOk, WorkersOk, PlacesOk, IndicesOk, Entries, Backed, TakeLease, TakeBackend;
    WorkersFrame(s, s', w);
    var p := s.workers[w];
    assert StoresAt(p, p.pool, p.index);
    if Storing(s', p.pool, p.index) {
      var v :| v in s'.workers && StoresAt(s'.workers[v], p.pool, p.index);
      assert v != w;
      SoleStorer(s, w, v);
    }
    StoredInWindow(s, w);
  }

  lemma StoredInWindow(s: State, w: nat)
    requires Inv(s) && w in s.workers && s.workers[w].Pushing?
    ensures s.workers[w].index < s.pools[s.workers[w].pool].end
  {
    assert WorkerOk(s, w, s.workers[w]);
    assert PlaceOk(s, s.workers[w].unix);
  }

  lemma PublishSuperseded(s: State, s': State, w: nat, b: int, index: nat)
    requires Inv(s) && Enabled(s, Publish(w)) && s' == Take(s, Publish(w)) && ShapeOk(s') && 0 <= b < 2
    ensures var p := s.workers[w];
            Superseded(s', b, index) ==
              (Superseded(s, b, index)
               || (b == p.pool && index < p.index && p.index % MAX_CONNECTIONS == index % MAX_CONNECTIONS))
  {
    PublishSlots(s, s', w);
    var p := s.workers[w];
    if Superseded(s, b, index) {
      var later: nat :| index < later && later % MAX_CONNECTIONS == index % MAX_CONNECTIONS && IsPublished(s, b, later);
      assert IsPublished(s', b, later);
    }
    if Superseded(s', b, index) {
      var later: nat :| index < later && later % MAX_CONNECTIONS == index % MAX_CONNECTIONS && IsPublished(s', b, later);
      assert (b, later) == (p.pool, p.index) || IsPublished(s, b, later);
    }
  }

  lemma PublishedPlace(s: State, s': State, w: nat)
    requires Inv(s) && Enabled(s, Publish(w)) && Timely(s, Publish(w)) && s' == Take(s, Publish(w)) && ShapeOk(s')
    ensures PlaceOk(s', s.workers[w].unix)
  {
    var p := s.workers[w];
    assert WorkerOk(s, w, p);
    assert PlaceOk(s, p.unix);
    PublishSlots(s, s', w);
    PublishSuperseded(s, s', w, p.pool, p.index);
  }

  lemma OtherPublishPlace(s: State, s': State, w: nat, u: int)
    requires Inv(s) && Enabled(s, Publish(w)) && Timely(s, Publish(w)) && s' == Take(s, Publish(w)) && ShapeOk(s')
    requires u in s.backend && u != s.workers[w].unix
    ensures PlaceOk(s', u)
  {
    hide PositionShape, Entry, FdsOk, IndicesOk;
    var p := s.workers[w];
    assert WorkerOk(s, w, p);
    assert PlaceOk(s, u);
    PublishSlots(s, s', w);
    assert InSlot(s, p.unix, p.index);
    if s.place[u].Free? {
      var index := s.place[u].index;
      assert InSlot(s, u, index);
      PublishSuperseded(s, s', w, s.backend[u], index);
      assert IsPublished(s, s.backend[u], index);
      assert !(s.backend[u] == p.pool && index > p.index && index % MAX_CONNECTIONS == p.index % MAX_CONNECTIONS);
    } else if s.place[u].Entering? {
      assert InSlot(s, u, s.place[u].index);
    }
  }

  lemma PublishIndices(s: State, s': State, w: nat)
    requires ShapeOk(s) && IndicesOk(s) && WorkersOk(s)
    requires Enabled(s, Publish(w)) && s' == Take(s, Publish(w)) && ShapeOk(s')
    requires forall b, index: nat :: Popped(s', b, index) == Popped(s, b, index)
    ensures IndicesOk(s')
  {
    assert WorkerOk(s, w, s.workers[w]);
    SlotsFrame(s, s');
    assert forall v, b, index: nat :: v in s'.workers && PopsAt(s'.workers[v], b, index) ==>
             v in s.workers && PopsAt(s.workers[v], b, index);
  }

  lemma PublishFrame(s: State, s': State, w: nat)
    requires Inv(s) && Enabled(s, Publish(w)) && s' == Take(s, Publish(w)) && ShapeOk(s')
    ensures FdsOk(s') && WorkersOk(s')
  {
    hide PlacesOk, IndicesOk, Entries, Backed, TakeLease, TakeBackend;
    OwnFd(s, w);
    StepFrame(s, s', w, s.workers[w].fd, s.workers[w].unix);
  }

  lemma PublishPlaces(s: State, s': State, w: nat)
    requires Inv(s) && Enabled(s, Publish(w)) && Timely(s, Publish(w)) && s' == Take(s, Publish(w)) && ShapeOk(s')
    ensures PlacesOk(s')
  {
    OwnFd(s, w);
    forall u <- s'.backend ensures PlaceOk(s', u) {
      if u == s.workers[w].unix {
        PublishedPlace(s, s', w);
      } else {
        OtherPublishPlace(s, s', w, u);
      }
    }
  }

  lemma PublishKeeps(s: State, w: nat)
    requires Inv(s) && Enabled(s, Publish(w)) && Timely(s, Publish(w))
    ensures Inv(Take(s, Publish(w)))
  {
    var s' := Take(s, Publish(w));
    ShapeKeeps(s, Publish(w));
    PublishFrame(s, s', w);
    PublishPlaces(s, s', w);
    PublishSlots(s, s', w);
    PublishIndices(s, s', w);
  }

  // ----- Steps for a backend connection -----

  /** The worker is busy with a backend before or after, and nothing but its position and the wake-up changes. */
  ghost predicate BackendMove(s: State, s': State, w: nat) {
    && s'.tcpToUnix == s.tcpToUnix && s'.unixToTcp == s.unixToTcp && s'.pools == s.pools && s'.backend == s.backend
    && s'.open == s.open && s'.registered == s.registered && s'.place == s.place && s'.aborted == s.aborted
    && w in s'.workers && !OwnsFd(s'.workers[w]) && (w in s.workers ==> !OwnsFd(s.workers[w]))
    && s'.workers == s.workers[w := s'.workers[w]]
  }

  lemma BackendFds(s: State, s': State, w: nat)
    requires ShapeOk(s) && FdsOk(s) && ShapeOk(s') && BackendMove(s, s', w)
    ensures FdsOk(s')
  {
    hide PositionShape, Entry;
    forall fd <- s'.open ensures fd in s'.registered || Served(s', fd) {
      if fd !in s.registered {
        var v :| v in s.workers && ServesClient(s.workers[v], fd);
        assert ServesClient(s'.workers[v], fd);
      }
    }
    forall fd <- s'.registered ensures RegisteredOk(s', fd) {
      assert RegisteredOk(s, fd);
    }
  }

  lemma BackendWorkers(s: State, s': State, w: nat)
    requires ShapeOk(s) && WorkersOk(s) && ShapeOk(s') && BackendMove(s, s', w) && WorkerOk(s', w, s'.workers[w])
    ensures WorkersOk(s')
  {
    forall v <- s'.workers ensures WorkerOk(s', v, s'.workers[v]) {
      if v != w {
        assert WorkerOk(s, v, s.workers[v]);
      }
    }
  }

  lemma BackendPlaces(s: State, s': State, w: nat)
    requires ShapeOk(s) && PlacesOk(s) && ShapeOk(s') && BackendMove(s, s', w)
    ensures PlacesOk(s')
  {
    QuietSlots(s, s', w);
    forall u <- s'.backend ensures PlaceOk(s', u) {
      assert PlaceOk(s, u);
    }
  }

  lemma BackendIndices(s: State, s': State, w: nat)
    requires ShapeOk(s) && IndicesOk(s) && ShapeOk(s') && BackendMove(s, s', w)
    ensures IndicesOk(s')
  {
    QuietSlots(s, s', w);
    forall pool, index: nat | 0 <= pool < 2 && Live(s', pool, index) ensures Occupied(s', pool, index) {
      assert Occupied(s, pool, index);
      var u :| u in s.backend && s.backend[u] == pool && InSlot(s, u, index);
      assert InSlot(s', u, index);
    }
    assert forall u, index: nat :: u in s.backend && InSlot(s', u, index) ==> InSlot(s, u, index);
    assert forall v, pool, index: nat :: v in s'.workers && PopsAt(s'.workers[v], pool, index) ==>
             v in s.workers && PopsAt(s.workers[v], pool, index);
  }

  lemma BackendMoves(s: State, step: Step)
    requires ShapeOk(s) && Enabled(s, step) && Backends(step) && !Fatal(s, step)
    requires step.RouteUnix? ==> Destination(s, At(s, step.worker).unix) != -1
    ensures ShapeOk(Take(s, step)) && BackendMove(s, Take(s, step), step.worker)
    ensures var p, p' := At(s, step.worker), Take(s, step).workers[step.worker];
            && (!step.WakeUnix? ==> ForBackend(p))
            && (p'.Waiting? || p'.Doomed?
                || (ForBackend(p') && p'.unix == if step.WakeUnix? then step.unix else p.unix))
  {
    hide Entries, Backed, Destination, HasClient;
    ShapeKeeps(s, step);
  }

  lemma WorkerIsOk(s: State, w: nat)
    requires Inv(s)
    ensures w in s.workers ==> WorkerOk(s, w, s.workers[w])
  {
  }

  lemma BackendStepKeeps(s: State, step: Step)
    requires Inv(s) && Enabled(s, step) && Backends(step) && !Fatal(s, step)
    ensures Inv(Take(s, step))
  {
    hide FdsOk, WorkersOk, PlacesOk, IndicesOk, PositionShape, Entries, Backed, Take;
    var w := step.worker;
    var s' := Take(s, step);
    WorkerIsOk(s, w);
    if step.RouteUnix? {
      ClientIsDestination(s, s.workers[w].unix);
    }
    BackendMoves(s, step);
    BackendFds(s, s', w);
    BackendWorkers(s, s', w);
    BackendPlaces(s, s', w);
    BackendIndices(s, s', w);
  }

  /** A connection's own descriptor is nobody's client, so its data goes by its own entry. */
  lemma ClientIsDestination(s: State, unix: int)
    requires Inv(s) && unix in s.backend
    ensures ValidFd(unix) && s.tcpToUnix[unix] == -1 && Destination(s, unix) == s.unixToTcp[unix]
  {
  }

  lemma StepKeepsInvariant(s: State, step: Step)
    requires Inv(s) && Enabled(s, step) && Timely(s, step) && !Fatal(s, step)
    ensures Inv(Take(s, step))
  {
    hide FdsOk, WorkersOk, PlacesOk, IndicesOk, Take;
    match step
    case Accept(w, fd) => AcceptKeeps(s, w, fd);
    case Choose(w) => ChooseKeeps(s, w);
    case ReserveFree(w) => ReserveFreeKeeps(s, w);
    case TakeFree(w) => TakeFreeKeeps(s, w);
    case Wake(w, fd) => WakeKeeps(s, w, fd);
    case Register(_) => ReturnKeeps(s, step);
    case Rearm(_) => ReturnKeeps(s, step);
    case DataAndEnd(_) => ReturnKeeps(s, step);
    case Forward(_) => HolderKeeps(s, step);
    case ReserveSlot(w) => ReserveSlotKeeps(s, w);
    case Publish(w) => PublishKeeps(s, w);
    case Close(w) => CloseKeeps(s, w);
    case LinkTcp(_) => LinkKeeps(s, step);
    case LinkUnix(_) => LinkKeeps(s, step);
    case UnlinkUnix(_) => HolderKeeps(s, step);
    case UnlinkTcp(_) => HolderKeeps(s, step);
    case Route(_) => ServeKeeps(s, step);
    case HangUp(_) => ServeKeeps(s, step);
    case Lookup(_) => ServeKeeps(s, step);
    case _ => BackendStepKeeps(s, step);
  }
}
