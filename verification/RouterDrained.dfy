/**
 * Why the free lists must not be drained: executions of a single worker, so without any race, in
 * which the fifty-first simultaneous client of one backend aborts the router, or, once the ring has
 * gone round, is given a connection another client is using.
 */
module RouterDrained {
  import opened Router
  import opened RouterPreservation
  import opened RouterTheorems

  ghost predicate Run(trace: seq<State>, steps: seq<Step>, from: State, to: State) {
    && |trace| == |steps| + 1
    && trace[0] == from
    && trace[|steps|] == to
    && forall i :: 0 <= i < |steps| ==> Follows(trace[i], steps[i], trace[i + 1])
  }

  lemma Join(t1: seq<State>, s1: seq<Step>, a: State, b: State, t2: seq<State>, s2: seq<Step>, c: State)
    requires Run(t1, s1, a, b) && Run(t2, s2, b, c)
    ensures Run(t1 + t2[1..], s1 + s2, a, c)
  {
    hide Follows;
    var t, s := t1 + t2[1..], s1 + s2;
    forall i | 0 <= i < |s| ensures Follows(t[i], s[i], t[i + 1]) {
      if i < |s1| {
        assert t[i] == t1[i] && t[i + 1] == t1[i + 1] && s[i] == s1[i];
        assert Follows(t1[i], s1[i], t1[i + 1]);
      } else {
        var k := i - |s1|;
        assert t[i] == t2[k] && t[i + 1] == t2[k + 1] && s[i] == s2[k];
        assert Follows(t2[k], s2[k], t2[k + 1]);
      }
    }
  }

  lemma Extend(t1: seq<State>, s1: seq<Step>, a: State, b: State, step: Step, c: State)
    requires Run(t1, s1, a, b) && Follows(b, step, c)
    ensures Run(t1 + [c], s1 + [step], a, c)
  {
    assert Run([b, c], [step], b, c);
    Join(t1, s1, a, b, [b, c], [step], c);
    assert [b, c][1..] == [c];
  }

  // ----- One client coming, and going -----

  ghost predicate AtRest(s: State, fd: int) {
    && ShapeOk(s) && !s.aborted && At(s, 0).Waiting?
    && ValidFd(fd) && fd !in s.open && fd !in s.backend
  }

  /** The connection the next client is given. */
  function Next(s: State): int
    requires ShapeOk(s)
  {
    var pool := s.pools[s.rounds % 2];
    pool.ring[pool.start % MAX_CONNECTIONS]
  }

  lemma OneStep(s: State, step: Step) returns (s': State)
    requires ShapeOk(s) && Enabled(s, step)
    ensures s' == Take(s, step) && ShapeOk(s') && Run([s, s'], [step], s, s') && OnlyMoves(s, s', step.worker)
  {
    hide ShapeOk, Enabled, Take;
    ShapeKeeps(s, step);
    OthersStay(s, step);
    s' := Take(s, step);
    assert Follows(s, step, s');
  }

  lemma TwoSteps(s: State, a: Step, b: Step) returns (trace: seq<State>, steps: seq<Step>, s': State)
    requires ShapeOk(s) && Enabled(s, a)
    requires ShapeOk(Take(s, a)) ==> Enabled(Take(s, a), b)
    ensures ShapeOk(Take(s, a)) && s' == Take(Take(s, a), b) && ShapeOk(s') && Run(trace, steps, s, s') && steps == [a, b]
    ensures a.worker == b.worker ==> OnlyMoves(s, s', a.worker)
  {
    var s1 := OneStep(s, a);
    s' := OneStep(s1, b);
    Extend([s, s1], [a], s, s1, b, s');
    trace, steps := [s, s1] + [s'], [a] + [b];
  }

  /** Accept, choose a backend and reserve the head of its free list. */
  lemma Arrive(s: State, fd: int) returns (trace: seq<State>, steps: seq<Step>, s': State)
    requires AtRest(s, fd)
    ensures Run(trace, steps, s, s') && ShapeOk(s') && |trace| == 4
    ensures steps == [Accept(0, fd), Choose(0), ReserveFree(0)] && OnlyMoves(s, s', 0)
    ensures var b := s.rounds % 2;
            && At(s', 0) == Popping(fd, b, s.pools[b].start)
            && s' == s.(workers := s'.workers, rounds := s.rounds + 1, open := s.open + {fd},
                        pools := s.pools[b := s.pools[b].(start := s.pools[b].start + 1)])
  {
    hide Entries, Backed, PositionShape, TakeRelease, TakeBackend, Follows;
    var t, l, s2 := TwoSteps(s, Accept(0, fd), Choose(0));
    s' := OneStep(s2, ReserveFree(0));
    Extend(t, l, s, s2, ReserveFree(0), s');
    trace, steps := t + [s'], l + [ReserveFree(0)];
  }

  /** Read the slot and set both map entries. */
  lemma Settle(s: State) returns (trace: seq<State>, steps: seq<Step>, s': State)
    requires ShapeOk(s) && !s.aborted && At(s, 0).Popping?
    requires s.pools[At(s, 0).pool].ring[At(s, 0).index % MAX_CONNECTIONS] != -1
    ensures Run(trace, steps, s, s') && ShapeOk(s')
    ensures steps == [TakeFree(0), LinkTcp(0), LinkUnix(0), Register(0)] && OnlyMoves(s, s', 0)
    ensures var p := At(s, 0);
            var unix := s.pools[p.pool].ring[p.index % MAX_CONNECTIONS];
            && At(s', 0).Waiting? && ValidFd(unix)
            && s' == s.(workers := s'.workers, place := s'.place, registered := s.registered + {p.fd},
                        tcpToUnix := s.tcpToUnix[p.fd := unix], unixToTcp := s.unixToTcp[unix := p.fd])
  {
    var t1, l1, s2 := TwoSteps(s, TakeFree(0), LinkTcp(0));
    var t2, l2, s4 := TwoSteps(s2, LinkUnix(0), Register(0));
    Join(t1, l1, s, s2, t2, l2, s4);
    trace, steps, s' := t1 + t2[1..], l1 + l2, s4;
  }

  lemma Lease(s: State, fd: int) returns (trace: seq<State>, steps: seq<Step>, s': State)
    requires AtRest(s, fd) && Next(s) != -1
    ensures Run(trace, steps, s, s') && ShapeOk(s') && !s'.aborted && At(s', 0).Waiting?
    ensures steps == [Accept(0, fd), Choose(0), ReserveFree(0), TakeFree(0), LinkTcp(0), LinkUnix(0), Register(0)]
    ensures OnlyMoves(s, s', 0)
    ensures s'.rounds == s.rounds + 1 && s'.backend == s.backend && s'.armed == s.armed
    ensures s'.open == s.open + {fd} && s'.registered == s.registered + {fd}
    ensures ValidFd(Next(s)) && s'.tcpToUnix == s.tcpToUnix[fd := Next(s)] && s'.unixToTcp == s.unixToTcp[Next(s) := fd]
    ensures var b := s.rounds % 2;
            s'.pools == s.pools[b := s.pools[b].(start := s.pools[b].start + 1)]
  {
    var t1, l1, s1 := Arrive(s, fd);
    var t2, l2, s2 := Settle(s1);
    Join(t1, l1, s, s1, t2, l2, s2);
    trace, steps, s' := t1 + t2[1..], l1 + l2, s2;
  }

  /** Something to read from the client. */
  lemma Arouse(s: State, fd: int) returns (trace: seq<State>, steps: seq<Step>, s': State)
    requires ShapeOk(s) && !s.aborted && At(s, 0).Waiting? && ValidFd(fd) && fd in s.registered && s.tcpToUnix[fd] != -1
    ensures Run(trace, steps, s, s') && ShapeOk(s') && steps == [Wake(0, fd), Route(0)] && |trace| == 3 && OnlyMoves(s, s', 0)
    ensures At(s', 0) == Serving(fd, s.tcpToUnix[fd])
    ensures s' == s.(workers := s'.workers, place := s'.place, registered := s.registered - {fd})
  {
    hide Entries, Backed, PositionShape, TakeLease, TakeBackend;
    trace, steps, s' := TwoSteps(s, Wake(0, fd), Route(0));
  }

  /** The end of the client's stream, up to the point where both map entries are to be cleared. */
  lemma Depart(s: State, fd: int) returns (trace: seq<State>, steps: seq<Step>, s': State)
    requires ShapeOk(s) && !s.aborted && At(s, 0).Waiting? && ValidFd(fd) && fd in s.registered && s.tcpToUnix[fd] != -1
    ensures Run(trace, steps, s, s') && ShapeOk(s')
    ensures steps == [Wake(0, fd), Route(0), HangUp(0), Lookup(0)] && OnlyMoves(s, s', 0)
    ensures At(s', 0) == Unlinking(fd, s.tcpToUnix[fd])
    ensures s' == s.(workers := s'.workers, place := s'.place, registered := s.registered - {fd})
  {
    hide Entries, Backed, PositionShape, TakeLease, TakeBackend, Run;
    var t1, l1, s2 := Arouse(s, fd);
    var t2, l2, s4 := TwoSteps(s2, HangUp(0), Lookup(0));
    Join(t1, l1, s, s2, t2, l2, s4);
    trace, steps, s' := t1 + t2[1..], l1 + l2, s4;
  }

  lemma Unlink(s: State) returns (trace: seq<State>, steps: seq<Step>, s': State)
    requires ShapeOk(s) && !s.aborted && At(s, 0).Unlinking?
    ensures Run(trace, steps, s, s') && ShapeOk(s')
    ensures At(s', 0) == Unlinked(At(s, 0).fd, At(s, 0).unix)
    ensures steps == [UnlinkUnix(0), UnlinkTcp(0)] && OnlyMoves(s, s', 0)
    ensures var p := At(s, 0);
            s' == s.(workers := s'.workers, tcpToUnix := s.tcpToUnix[p.fd := -1], unixToTcp := s.unixToTcp[p.unix := -1])
  {
    trace, steps, s' := TwoSteps(s, UnlinkUnix(0), UnlinkTcp(0));
  }

  lemma GiveBack(s: State) returns (trace: seq<State>, steps: seq<Step>, s': State)
    requires ShapeOk(s) && !s.aborted && At(s, 0).Unlinked?
    ensures Run(trace, steps, s, s') && ShapeOk(s') && steps == [ReserveSlot(0), Publish(0), Close(0)]
    ensures OnlyMoves(s, s', 0)
    ensures var p := At(s, 0);
            var b := PoolOf(s, p.unix);
            var pool := s.pools[b];
            && At(s', 0).Waiting?
            && s' == s.(workers := s'.workers, place := s'.place, open := s.open - {p.fd},
                        pools := s.pools[b := Pool(pool.ring[pool.end % MAX_CONNECTIONS := p.unix], pool.start, pool.end + 1)])
  {
    hide Entries, Backed, PositionShape, TakeLease, TakeBackend, Follows;
    var t, l, s2 := TwoSteps(s, ReserveSlot(0), Publish(0));
    s' := OneStep(s2, Close(0));
    Extend(t, l, s, s2, Close(0), s');
    trace, steps := t + [s'], l + [Close(0)];
  }

  lemma Release(s: State, fd: int) returns (trace: seq<State>, steps: seq<Step>, s': State)
    requires ShapeOk(s) && !s.aborted && At(s, 0).Waiting? && ValidFd(fd) && fd in s.registered && s.tcpToUnix[fd] != -1
    ensures Run(trace, steps, s, s') && ShapeOk(s') && !s'.aborted && At(s', 0).Waiting?
    ensures steps == [Wake(0, fd), Route(0), HangUp(0), Lookup(0), UnlinkUnix(0), UnlinkTcp(0), ReserveSlot(0), Publish(0), Close(0)]
    ensures OnlyMoves(s, s', 0)
    ensures s'.rounds == s.rounds && s'.backend == s.backend && s'.armed == s.armed
    ensures s'.tcpToUnix == s.tcpToUnix[fd := -1] && s'.unixToTcp == s.unixToTcp[s.tcpToUnix[fd] := -1]
    ensures s'.open == s.open - {fd} && s'.registered == s.registered - {fd}
    ensures var unix := s.tcpToUnix[fd];
            var b := PoolOf(s, unix);
            var pool := s.pools[b];
            s'.pools == s.pools[b := Pool(pool.ring[pool.end % MAX_CONNECTIONS := unix], pool.start, pool.end + 1)]
  {
    var t1, l1, s1 := Depart(s, fd);
    var t2, l2, s2 := Unlink(s1);
    var t3, l3, s3 := GiveBack(s2);
    Join(t1, l1, s, s1, t2, l2, s2);
    Join(t1 + t2[1..], l1 + l2, s, s2, t3, l3, s3);
    trace, steps, s' := t1 + t2[1..] + t3[1..], l1 + l2 + l3, s3;
  }

  // ----- Clients one after the other -----

  /** Connection descriptors 0..49 to the first backend, 50..99 to the second; clients get 100 and up. */
  const FIRST: seq<int> := seq(INITIAL_UNIX_CONNECTIONS, i => i)
  const SECOND: seq<int> := seq(INITIAL_UNIX_CONNECTIONS, i => 50 + i)

  function Connection(pool: int, index: int): int {
    50 * pool + index % 50
  }

  /** Both lists have been gone through in order: index `i` holds connection `i % 50`. */
  ghost predicate InOrder(s: State, pool: int)
    requires ShapeOk(s) && 0 <= pool < 2
  {
    forall j :: 0 <= j < MAX_CONNECTIONS ==>
      s.pools[pool].ring[j] == if j < s.pools[pool].end then Connection(pool, j) else -1
  }

  ghost predicate OnBackends(backend: map<int, int>) {
    forall u :: (u in backend <==> 0 <= u < 100) && (u in backend ==> backend[u] == if u < 50 then 0 else 1)
  }

  /** No connection's own descriptor has an entry as a client. */
  ghost predicate NoClients(s: State)
    requires ShapeOk(s)
  {
    forall u :: 0 <= u < 100 ==> s.tcpToUnix[u] == -1
  }

  ghost predicate Cycled(s: State, k: nat) {
    && ShapeOk(s) && !s.aborted && At(s, 0).Waiting?
    && (forall v :: v != 0 ==> At(s, v).Waiting?)
    && OnBackends(s.backend) && s.armed == s.backend.Keys && NoClients(s)
    && s.rounds == k && s.open == {} && s.registered == {}
    && s.pools[0].start == (k + 1) / 2 && s.pools[0].end == 50 + (k + 1) / 2
    && s.pools[1].start == k / 2 && s.pools[1].end == 50 + k / 2
    && InOrder(s, 0) && InOrder(s, 1)
  }

  lemma RoundTheRing(i: nat)
    ensures (i + 50) % MAX_CONNECTIONS % 50 == i % 50
    ensures i % MAX_CONNECTIONS % 50 == i % 50
  {
    Rounds(20 * (i / 1000), i % 1000);
    Rounds(20 * ((i + 50) / 1000), (i + 50) % 1000);
    assert i == 50 * (20 * (i / 1000)) + i % 1000;
    assert i + 50 == 50 * (20 * ((i + 50) / 1000)) + (i + 50) % 1000;
  }

  lemma {:induction false} Rounds(rounds: nat, rest: nat)
    ensures (50 * rounds + rest) % 50 == rest % 50
  {
    if rounds > 0 {
      Rounds(rounds - 1, rest);
      assert 50 * rounds + rest == 50 * (rounds - 1) + rest + 50;
    }
  }

  lemma SlotInOrder(s: State, pool: int, index: nat)
    requires ShapeOk(s) && 0 <= pool < 2 && InOrder(s, pool) && index < s.pools[pool].end
    ensures s.pools[pool].ring[index % MAX_CONNECTIONS] == Connection(pool, index)
  {
    RoundTheRing(index);
    var j := index % MAX_CONNECTIONS;
    assert 0 <= j < MAX_CONNECTIONS && j <= index;
    assert s.pools[pool].ring[j] == Connection(pool, j);
  }

  lemma PushedInOrder(s: State, s': State, pool: int)
    requires ShapeOk(s) && ShapeOk(s') && 0 <= pool < 2 && InOrder(s, pool)
    requires var p := s.pools[pool];
             s'.pools[pool].ring == p.ring[p.end % MAX_CONNECTIONS := Connection(pool, p.end)] && s'.pools[pool].end == p.end + 1
    ensures InOrder(s', pool)
  {
    hide Entries, Backed, PositionShape, Connection;
    var end := s.pools[pool].end;
    SameSlot(pool, end);
    var slot := end % MAX_CONNECTIONS;
    assert slot <= end && (end < MAX_CONNECTIONS ==> slot == end);
    forall j | 0 <= j < MAX_CONNECTIONS
      ensures s'.pools[pool].ring[j] == if j < end + 1 then Connection(pool, j) else -1
    {
      if j != slot {
        assert s'.pools[pool].ring[j] == s.pools[pool].ring[j];
      }
    }
  }

  lemma SameSlot(pool: int, index: nat)
    ensures Connection(pool, index % MAX_CONNECTIONS) == Connection(pool, index)
  {
    RoundTheRing(index);
  }

  lemma FirstState()
    ensures DistinctFds(FIRST, SECOND) && Cycled(Initial(FIRST, SECOND), 0)
  {
    FirstFds();
    InitialShape(FIRST, SECOND);
    FirstBackends();
    FirstPools();
  }

  lemma FilledInOrder(fds: seq<int>, pool: int, j: nat)
    requires |fds| == 50 && j < MAX_CONNECTIONS && forall i :: 0 <= i < 50 ==> fds[i] == 50 * pool + i
    ensures |Filled(fds).ring| == MAX_CONNECTIONS
    ensures Filled(fds).ring[j] == if j < 50 then Connection(pool, j) else -1
  {
  }

  lemma FirstPools()
    requires DistinctFds(FIRST, SECOND)
    ensures ShapeOk(Initial(FIRST, SECOND)) && InOrder(Initial(FIRST, SECOND), 0) && InOrder(Initial(FIRST, SECOND), 1)
  {
    InitialShape(FIRST, SECOND);
    forall pool, j: nat | 0 <= pool < 2 && j < MAX_CONNECTIONS
      ensures Initial(FIRST, SECOND).pools[pool].ring[j] == if j < 50 then Connection(pool, j) else -1
    {
      FilledInOrder(if pool == 0 then FIRST else SECOND, pool, j);
    }
  }

  lemma FirstFds()
    ensures DistinctFds(FIRST, SECOND)
    ensures forall u :: u in FIRST <==> 0 <= u < 50
    ensures forall u :: u in SECOND <==> 50 <= u < 100
  {
    forall u | 0 <= u < 50 ensures u in FIRST {
      assert FIRST[u] == u;
    }
    forall u | 50 <= u < 100 ensures u in SECOND {
      assert SECOND[u - 50] == u;
    }
  }

  lemma FirstBackends()
    requires DistinctFds(FIRST, SECOND)
    ensures OnBackends(Initial(FIRST, SECOND).backend)
  {
    FirstFds();
  }

  /** What one client leaves behind: its connection moved from the head of its list to the tail. */
  ghost predicate MovedOn(s: State, s': State)
    requires ShapeOk(s) && ShapeOk(s')
  {
    var b := s.rounds % 2;
    var p := s.pools[b];
    && s'.rounds == s.rounds + 1 && s'.backend == s.backend
    && s'.open == s.open && s'.registered == s.registered && s'.armed == s.armed && OnlyMoves(s, s', 0)
    && (forall u :: 0 <= u < 100 ==> s'.tcpToUnix[u] == s.tcpToUnix[u])
    && s'.pools == s.pools[b := Pool(p.ring[p.end % MAX_CONNECTIONS := p.ring[p.start % MAX_CONNECTIONS]], p.start + 1, p.end + 1)]
  }

  /** Worker 0's steps, without a request and without a backend that closes its connection. */
  predicate NoRequests(steps: seq<Step>) {
    forall step <- steps :: step.worker == 0 && !step.Forward? && !step.LookupUnix?
  }

  lemma ComeAndGo(s: State) returns (trace: seq<State>, steps: seq<Step>, s': State)
    requires AtRest(s, 100) && 100 !in s.registered
    requires Next(s) in s.backend && s.backend[Next(s)] == s.rounds % 2
    ensures Run(trace, steps, s, s') && ShapeOk(s') && !s'.aborted && At(s', 0).Waiting? && MovedOn(s, s')
    ensures NoRequests(steps) && |steps| == 16
  {
    hide Follows, Entries, PositionShape, Take, MovedOn, NoRequests;
    var t1, s1, mid := Lease(s, 100);
    var t2, s2, after := Release(mid, 100);
    Join(t1, s1, s, mid, t2, s2, after);
    trace, steps, s' := t1 + t2[1..], s1 + s2, after;
    NoneAtLease(100);
    NoneAtRelease(100);
    NoneJoined(s1, s2);
    BothEnds(s, mid, after);
  }

  lemma NoneJoined(a: seq<Step>, b: seq<Step>)
    requires NoRequests(a) && NoRequests(b)
    ensures NoRequests(a + b)
  {
  }

  lemma NoneAtLease(fd: int)
    ensures NoRequests([Accept(0, fd), Choose(0), ReserveFree(0), TakeFree(0), LinkTcp(0), LinkUnix(0), Register(0)])
  {
  }

  lemma NoneAtRelease(fd: int)
    ensures NoRequests([Wake(0, fd), Route(0), HangUp(0), Lookup(0), UnlinkUnix(0), UnlinkTcp(0), ReserveSlot(0), Publish(0), Close(0)])
  {
  }

  /** The connection taken at the head of its list comes back to the tail of the same list. */
  lemma BothEnds(s: State, mid: State, after: State)
    requires ShapeOk(s) && ShapeOk(mid) && ShapeOk(after) && ValidFd(Next(s))
    requires Next(s) in s.backend && s.backend[Next(s)] == s.rounds % 2
    requires 100 !in s.open && 100 !in s.registered
    requires mid.rounds == s.rounds + 1 && mid.backend == s.backend && mid.armed == s.armed && OnlyMoves(s, mid, 0)
    requires mid.open == s.open + {100} && mid.registered == s.registered + {100}
    requires mid.tcpToUnix == s.tcpToUnix[100 := Next(s)]
    requires var b := s.rounds % 2;
             mid.pools == s.pools[b := s.pools[b].(start := s.pools[b].start + 1)]
    requires after.rounds == mid.rounds && after.backend == mid.backend && after.armed == mid.armed && OnlyMoves(mid, after, 0)
    requires after.open == mid.open - {100} && after.registered == mid.registered - {100}
    requires after.tcpToUnix == mid.tcpToUnix[100 := -1]
    requires var b := PoolOf(mid, Next(s));
             var pool := mid.pools[b];
             after.pools == mid.pools[b := Pool(pool.ring[pool.end % MAX_CONNECTIONS := Next(s)], pool.start, pool.end + 1)]
    ensures MovedOn(s, after)
  {
    hide Entries, Backed, PositionShape;
  }

  lemma MovedOnInOrder(s: State, s': State, k: nat, pool: int)
    requires Cycled(s, k) && ShapeOk(s') && MovedOn(s, s') && 0 <= pool < 2
    ensures InOrder(s', pool)
  {
    hide InOrder, OnBackends, Connection;
    var p := s.pools[pool];
    assert p.end == p.start + 50;
    if pool == k % 2 {
      SlotInOrder(s, pool, p.start);
      SameConnection(pool, p.start);
      PushedInOrder(s, s', pool);
    } else {
      KeptInOrder(s, s', pool);
    }
  }

  lemma SameConnection(pool: int, index: nat)
    ensures Connection(pool, index + 50) == Connection(pool, index)
  {
  }

  lemma MovedOnCycled(s: State, s': State, k: nat)
    requires Cycled(s, k) && ShapeOk(s') && !s'.aborted && At(s', 0).Waiting? && MovedOn(s, s')
    ensures Cycled(s', k + 1)
  {
    MovedOnInOrder(s, s', k, 0);
    MovedOnInOrder(s, s', k, 1);
  }

  lemma Cycle(s: State, k: nat) returns (trace: seq<State>, steps: seq<Step>, s': State)
    requires Cycled(s, k)
    ensures Run(trace, steps, s, s') && Cycled(s', k + 1)
    ensures NoRequests(steps) && |steps| == 16
  {
    SlotInOrder(s, k % 2, s.pools[k % 2].start);
    trace, steps, s' := ComeAndGo(s);
    MovedOnCycled(s, s', k);
  }

  lemma Cycles(k: nat) returns (trace: seq<State>, steps: seq<Step>, s: State)
    ensures DistinctFds(FIRST, SECOND)
    ensures Run(trace, steps, Initial(FIRST, SECOND), s) && Cycled(s, k)
  {
    hide Cycled, Initial, Follows;
    FirstState();
    if k == 0 {
      s := Initial(FIRST, SECOND);
      trace, steps := [s], [];
    } else {
      var t1, s1, before := Cycles(k - 1);
      var t2, s2, after := Cycle(before, k - 1);
      Join(t1, s1, Initial(FIRST, SECOND), before, t2, s2, after);
      trace, steps, s := t1 + t2[1..], s1 + s2, after;
    }
  }

  // ----- Clients all at once -----

  /** After `2 * m` clients have come and gone, `k` have come and stayed. */
  ghost predicate Crowded(s: State, m: nat, k: nat) {
    && ShapeOk(s) && !s.aborted && At(s, 0).Waiting?
    && OnBackends(s.backend)
    && s.rounds == 2 * m + k
    && (forall fd :: fd in s.open <==> 100 <= fd < 100 + k) && s.registered == s.open
    && s.pools[0].start == m + (k + 1) / 2 && s.pools[0].end == 50 + m
    && s.pools[1].start == m + k / 2 && s.pools[1].end == 50 + m
    && InOrder(s, 0) && InOrder(s, 1)
    && k <= 100
    && forall fd :: 100 <= fd < 100 + k ==> s.tcpToUnix[fd] == Connection(fd % 2, m + (fd - 100) / 2)
  }

  lemma CrowdGrows(s: State, s': State, m: nat, k: nat)
    requires Crowded(s, m, k) && k < 100 && ShapeOk(s') && !s'.aborted && At(s', 0).Waiting?
    requires s'.rounds == s.rounds + 1 && s'.backend == s.backend
    requires s'.open == s.open + {100 + k} && s'.registered == s.registered + {100 + k}
    requires var b := k % 2;
             && s'.tcpToUnix == s.tcpToUnix[100 + k := Connection(b, s.pools[b].start)]
             && s'.pools == s.pools[b := s.pools[b].(start := s.pools[b].start + 1)]
    ensures Crowded(s', m, k + 1)
  {
    hide InOrder, OnBackends, Connection;
    KeptInOrder(s, s', 0);
    KeptInOrder(s, s', 1);
  }

  lemma KeptInOrder(s: State, s': State, pool: int)
    requires ShapeOk(s) && ShapeOk(s') && 0 <= pool < 2 && InOrder(s, pool)
    requires s'.pools[pool].ring == s.pools[pool].ring && s'.pools[pool].end == s.pools[pool].end
    ensures InOrder(s', pool)
  {
  }

  lemma Crowd(m: nat, k: nat) returns (trace: seq<State>, steps: seq<Step>, s: State)
    requires k <= 100
    ensures DistinctFds(FIRST, SECOND)
    ensures Run(trace, steps, Initial(FIRST, SECOND), s) && Crowded(s, m, k)
  {
    if k == 0 {
      trace, steps, s := Cycles(2 * m);
    } else {
      var t1, s1, before := Crowd(m, k - 1);
      var b := (k - 1) % 2;
      assert before.rounds % 2 == b;
      SlotInOrder(before, b, before.pools[b].start);
      var t2, s2, after := Lease(before, 100 + k - 1);
      CrowdGrows(before, after, m, k - 1);
      Join(t1, s1, Initial(FIRST, SECOND), before, t2, s2, after);
      trace, steps, s := t1 + t2[1..], s1 + s2, after;
    }
  }

  lemma RunIsExecution(trace: seq<State>, steps: seq<Step>, last: State)
    requires DistinctFds(FIRST, SECOND) && Run(trace, steps, Initial(FIRST, SECOND), last)
    ensures Execution(FIRST, SECOND, trace, steps) && trace[|steps|] == last
  {
  }

  /** The fifty-first client of the first backend, before the ring has gone round: the CHECK fails. */
  lemma DrainedPoolAborts() returns (trace: seq<State>, steps: seq<Step>)
    ensures Execution(FIRST, SECOND, trace, steps)
    ensures trace[|steps|].aborted
  {
    hide Initial, Follows, Execution, Run;
    var t1, l1, full := Crowd(0, 100);
    var t2, l2, popping := Arrive(full, 200);
    Join(t1, l1, Initial(FIRST, SECOND), full, t2, l2, popping);
    var last := OneStep(popping, TakeFree(0));
    Extend(t1 + t2[1..], l1 + l2, Initial(FIRST, SECOND), popping, TakeFree(0), last);
    trace, steps := t1 + t2[1..] + [last], l1 + l2 + [TakeFree(0)];
    RunIsExecution(trace, steps, last);
  }

  /** After 1900 clients have come and gone, the fifty-first client of a backend shares the first one's connection. */
  lemma DrainedPoolSharesAConnection() returns (trace: seq<State>, steps: seq<Step>)
    ensures Execution(FIRST, SECOND, trace, steps)
    ensures var s := trace[|steps|];
            ShapeOk(s) && !NoSharedConnection(s) && {100, 200} <= s.registered && s.tcpToUnix[100] == s.tcpToUnix[200] != -1
  {
    hide Initial, Follows, Execution, Run;
    var t1, s1, full := Crowd(950, 100);
    HeadOfTheRing(full, 950, 100);
    var t2, s2, after := Lease(full, 200);
    Join(t1, s1, Initial(FIRST, SECOND), full, t2, s2, after);
    trace, steps := t1 + t2[1..], s1 + s2;
    RunIsExecution(trace, steps, after);
    assert after.tcpToUnix[100] == after.tcpToUnix[200] == 0;
  }

  /** The ring has gone round when the crowd is complete: the head of the first list is its first slot again. */
  lemma HeadOfTheRing(s: State, m: nat, k: nat)
    requires Crowded(s, m, k) && k == 100 && (m + 50) % MAX_CONNECTIONS == 0
    ensures Next(s) == s.tcpToUnix[100] == 0
    ensures AtRest(s, 200) && 100 in s.registered
  {
    hide Crowded, InOrder, OnBackends;
    RoundTheRing(m);
    CrowdHead(s, m, k);
    CrowdFirst(s, m, k);
    CrowdRests(s, m, k);
  }

  lemma CrowdHead(s: State, m: nat, k: nat)
    requires Crowded(s, m, k) && k == 100
    ensures ShapeOk(s) && Next(s) == s.pools[0].ring[(m + 50) % MAX_CONNECTIONS]
  {
    hide InOrder, OnBackends, ShapeOk;
    assert s.rounds % 2 == 0;
  }

  lemma CrowdFirst(s: State, m: nat, k: nat)
    requires Crowded(s, m, k) && k == 100
    ensures ShapeOk(s) && s.tcpToUnix[100] == m % 50 && s.pools[0].ring[0] == 0
  {
    hide Entries, Backed, PositionShape, Connection;
    assert s.tcpToUnix[100] == Connection(0, m);
    assert s.pools[0].ring[0] == Connection(0, 0);
    FirstConnections(m);
  }

  lemma FirstConnections(m: nat)
    ensures Connection(0, m) == m % 50 && Connection(0, 0) == 0
  {
  }

  lemma CrowdRests(s: State, m: nat, k: nat)
    requires Crowded(s, m, k) && k == 100
    ensures AtRest(s, 200) && 100 in s.registered
  {
  }
}
