/**
 * The router's global arrays and counters, and the code over them one shared access at a time: each
 * access is one step of the router, so every interleaving of these methods' accesses is an execution
 * of the step system.
 */
module RouterTables {
  import opened Router
  import opened RouterDrained
  import opened RouterPreservation
  import opened RouterTheorems

  lemma One(s: State, step: Step, s': State)
    requires Follows(s, step, s')
    ensures Run([s, s'], [step], s, s')
  {
  }

  lemma InitialTables(first: seq<int>, second: seq<int>, table: seq<int>)
    requires DistinctFds(first, second) && |table| == MAX_CONNECTIONS && forall i :: 0 <= i < |table| ==> table[i] == -1
    ensures var s := Initial(first, second);
            table == s.tcpToUnix == s.unixToTcp && s.rounds == 0
  {
  }

  lemma InitialList(first: seq<int>, second: seq<int>, pool: int, list: seq<int>)
    requires DistinctFds(first, second) && 0 <= pool < 2 && |list| == MAX_CONNECTIONS
    requires var fds := if pool == 0 then first else second;
             forall k :: 0 <= k < |list| ==> list[k] == if k < INITIAL_UNIX_CONNECTIONS then fds[k] else -1
    ensures |Initial(first, second).pools| == 2 && Pool(list, 0, INITIAL_UNIX_CONNECTIONS) == Initial(first, second).pools[pool]
  {
  }

  lemma InitialMarks(first: seq<int>, second: seq<int>, marks: seq<int>)
    requires DistinctFds(first, second) && |marks| == MAX_CONNECTIONS
    requires forall u :: 0 <= u < |marks| ==> (marks[u] != -1 <==> u in first)
    ensures forall u :: 0 <= u < |marks| ==> (marks[u] != -1 <==> PoolOf(Initial(first, second), u) == 0)
  {
  }

  /** The step of `erase_from_maps` for a client's or a backend's descriptor. */
  function LookupOf(s: State, w: nat): Step {
    if At(s, w).Releasing? then Lookup(w) else LookupUnix(w)
  }

  class Tables {
    const tcpToUnix: array<int>
    const unixToTcp: array<int>
    const connection1Fds: array<int>
    const available1: array<int>
    const available2: array<int>
    var start1: nat
    var end1: nat
    var start2: nat
    var end2: nat
    var roundRobinCounter: nat

    /** The step system's state, which the arrays and counters show. */
    ghost var state: State

    ghost predicate Distinct()
      reads this
    {
      && tcpToUnix != unixToTcp && tcpToUnix != available1 && tcpToUnix != available2 && tcpToUnix != connection1Fds
      && unixToTcp != available1 && unixToTcp != available2 && unixToTcp != connection1Fds
      && available1 != available2 && available1 != connection1Fds && available2 != connection1Fds
    }

    ghost predicate Valid()
      reads this, tcpToUnix, unixToTcp, connection1Fds, available1, available2
    {
      && Distinct() && ShapeOk(state)
      && tcpToUnix[..] == state.tcpToUnix && unixToTcp[..] == state.unixToTcp
      && connection1Fds.Length == MAX_CONNECTIONS
      && (forall u :: ValidFd(u) ==> (connection1Fds[u] != -1 <==> PoolOf(state, u) == 0))
      && Pool(available1[..], start1, end1) == state.pools[0]
      && Pool(available2[..], start2, end2) == state.pools[1]
      && roundRobinCounter == state.rounds
    }

    /** `first` and `second` are the descriptors connected to the two backends, in turn. */
    constructor (first: seq<int>, second: seq<int>)
      requires DistinctFds(first, second)
      ensures Valid() && state == Initial(first, second)
    {
      tcpToUnix := new int[MAX_CONNECTIONS](_ => -1);
      unixToTcp := new int[MAX_CONNECTIONS](_ => -1);
      connection1Fds := new int[MAX_CONNECTIONS](_ => -1);
      available1 := new int[MAX_CONNECTIONS](_ => -1);
      available2 := new int[MAX_CONNECTIONS](_ => -1);
      start1, end1, start2, end2, roundRobinCounter := 0, 0, 0, 0, 0;
      new;
      hide Initial, Filled, ShapeOk, PoolOf;
      Connect(first, second);
      state := Initial(first, second);
      InitialShape(first, second);
      ShowsInitial(first, second);
    }

    lemma ShowsInitial(first: seq<int>, second: seq<int>)
      requires DistinctFds(first, second) && Distinct() && Connected(first, second, INITIAL_UNIX_CONNECTIONS)
      requires tcpToUnix.Length == unixToTcp.Length == MAX_CONNECTIONS
      requires forall i :: 0 <= i < MAX_CONNECTIONS ==> tcpToUnix[i] == unixToTcp[i] == -1
      requires start1 == start2 == roundRobinCounter == 0 && state == Initial(first, second) && ShapeOk(state)
      ensures Valid()
    {
      hide Initial, Filled, PoolOf, Entries, Backed, PositionShape;
      assert first[..INITIAL_UNIX_CONNECTIONS] == first;
      InitialTables(first, second, tcpToUnix[..]);
      InitialTables(first, second, unixToTcp[..]);
      InitialList(first, second, 0, available1[..]);
      InitialList(first, second, 1, available2[..]);
      InitialMarks(first, second, connection1Fds[..]);
    }

    /** What the initialisation loop has done after `i` rounds. */
    ghost predicate Connected(first: seq<int>, second: seq<int>, i: nat)
      requires i <= |first| && i <= |second|
      reads this, connection1Fds, available1, available2
    {
      && connection1Fds.Length == available1.Length == available2.Length == MAX_CONNECTIONS
      && end1 == end2 == i
      && (forall u :: ValidFd(u) ==> (connection1Fds[u] != -1 <==> u in first[..i]))
      && (forall k :: 0 <= k < MAX_CONNECTIONS ==> available1[k] == if k < i then first[k] else -1)
      && (forall k :: 0 <= k < MAX_CONNECTIONS ==> available2[k] == if k < i then second[k] else -1)
    }

    method Connect(first: seq<int>, second: seq<int>)
      requires DistinctFds(first, second) && Distinct() && Connected(first, second, 0)
      modifies this`end1, this`end2, connection1Fds, available1, available2
      ensures Connected(first, second, INITIAL_UNIX_CONNECTIONS)
    {
      for i := 0 to INITIAL_UNIX_CONNECTIONS
        invariant Connected(first, second, i)
      {
        assert first[..i + 1] == first[..i] + [first[i]];
        connection1Fds[first[i]] := 1;
        available1[end1] := first[i];
        end1 := end1 + 1;
        available2[end2] := second[i];
        end2 := end2 + 1;
      }
    }

    // ----- One shared access each -----

    /** The descriptor `erase_from_maps` has been called with: a client's, or a backend connection's. */
    ghost predicate Erases(w: nat, fd: int)
      reads this
    {
      !state.aborted && (At(state, w) == Releasing(fd) || At(state, w) == ReleasingUnix(fd))
    }

    /** The lookups of `erase_from_maps`: a client's lease is found, or the pair, if any, is cleared and the CHECK fails. */
    method FindLease(w: nat, fd: int) returns (unix: int)
      requires Valid() && Erases(w, fd)
      modifies this`state, tcpToUnix, unixToTcp
      ensures Valid() && Follows(old(state), LookupOf(old(state), w), state) && unix == old(tcpToUnix[fd])
      ensures if unix != -1 then !state.aborted && At(state, w) == Unlinking(fd, unix) else state.aborted
      ensures unix != -1 || old(unixToTcp[fd]) == -1 ==> tcpToUnix[..] == old(tcpToUnix[..]) && unixToTcp[..] == old(unixToTcp[..])
      ensures unix == -1 && old(unixToTcp[fd]) != -1 ==>
                && ValidFd(old(unixToTcp[fd]))
                && tcpToUnix[..] == old(tcpToUnix[..])[old(unixToTcp[fd]) := -1] && unixToTcp[..] == old(unixToTcp[..])[fd := -1]
    {
      ghost var step := LookupOf(state, w);
      ShapeKeeps(state, step);
      unix := tcpToUnix[fd];
      if unix == -1 {
        var tcp := unixToTcp[fd];
        if tcp != -1 {
          tcpToUnix[tcp] := -1;
          unixToTcp[fd] := -1;
        }
      }
      state := Take(state, step);
    }

    method ClearUnix(w: nat, unix: int)
      requires Valid() && !state.aborted && At(state, w).Unlinking? && At(state, w).unix == unix
      modifies this`state, unixToTcp
      ensures Valid() && Follows(old(state), UnlinkUnix(w), state)
      ensures !state.aborted && At(state, w) == HalfUnlinked(old(At(state, w)).fd, unix)
    {
      ShapeKeeps(state, UnlinkUnix(w));
      unixToTcp[unix] := -1;
      state := Take(state, UnlinkUnix(w));
    }

    method ClearTcp(w: nat, fd: int)
      requires Valid() && !state.aborted && At(state, w).HalfUnlinked? && At(state, w).fd == fd
      modifies this`state, tcpToUnix
      ensures Valid() && Follows(old(state), UnlinkTcp(w), state)
      ensures !state.aborted && At(state, w) == Unlinked(fd, old(At(state, w)).unix)
    {
      ShapeKeeps(state, UnlinkTcp(w));
      tcpToUnix[fd] := -1;
      state := Take(state, UnlinkTcp(w));
    }

    /** `fetch_add` on the end counter of the connection's own list. */
    method NextEnd(w: nat, unix: int) returns (first: bool, index: nat)
      requires Valid() && !state.aborted && At(state, w).Unlinked? && At(state, w).unix == unix
      modifies this`state, this`end1, this`end2
      ensures Valid() && Follows(old(state), ReserveSlot(w), state)
      ensures !state.aborted && At(state, w) == Pushing(old(At(state, w)).fd, unix, if first then 0 else 1, index)
    {
      ShapeKeeps(state, ReserveSlot(w));
      first := connection1Fds[unix] != -1;
      if first {
        index := end1;
        end1 := end1 + 1;
      } else {
        index := end2;
        end2 := end2 + 1;
      }
      state := Take(state, ReserveSlot(w));
    }

    method StoreFree(w: nat, first: bool, index: nat, unix: int)
      requires Valid() && !state.aborted && At(state, w).Pushing?
      requires At(state, w).pool == (if first then 0 else 1) && At(state, w).index == index && At(state, w).unix == unix
      modifies this`state, available1, available2
      ensures Valid() && Follows(old(state), Publish(w), state)
      ensures !state.aborted && At(state, w) == Published(old(At(state, w)).fd)
    {
      ShapeKeeps(state, Publish(w));
      if first {
        available1[index % MAX_CONNECTIONS] := unix;
      } else {
        available2[index % MAX_CONNECTIONS] := unix;
      }
      state := Take(state, Publish(w));
    }

    method CloseClient(w: nat)
      requires Valid() && !state.aborted && At(state, w).Published?
      modifies this`state
      ensures Valid() && Follows(old(state), Close(w), state)
      ensures !state.aborted && At(state, w).Waiting?
    {
      ShapeKeeps(state, Close(w));
      state := Take(state, Close(w));
    }

    method ChooseBackend(w: nat) returns (first: bool)
      requires Valid() && !state.aborted && At(state, w).Accepted?
      modifies this`state, this`roundRobinCounter
      ensures Valid() && Follows(old(state), Choose(w), state)
      ensures !state.aborted && At(state, w) == Chosen(old(At(state, w)).fd, if first then 0 else 1)
    {
      ShapeKeeps(state, Choose(w));
      first := roundRobinCounter % 2 == 0;
      roundRobinCounter := roundRobinCounter + 1;
      state := Take(state, Choose(w));
    }

    method NextStart(w: nat, first: bool) returns (index: nat)
      requires Valid() && !state.aborted && At(state, w).Chosen? && At(state, w).pool == (if first then 0 else 1)
      modifies this`state, this`start1, this`start2
      ensures Valid() && Follows(old(state), ReserveFree(w), state)
      ensures !state.aborted && At(state, w) == Popping(old(At(state, w)).fd, if first then 0 else 1, index)
    {
      ShapeKeeps(state, ReserveFree(w));
      if first {
        index := start1;
        start1 := start1 + 1;
      } else {
        index := start2;
        start2 := start2 + 1;
      }
      state := Take(state, ReserveFree(w));
    }

    /** An empty slot fails the CHECK. */
    method LoadFree(w: nat, first: bool, index: nat) returns (unix: int)
      requires Valid() && !state.aborted && At(state, w).Popping? && At(state, w).pool == (if first then 0 else 1) && At(state, w).index == index
      modifies this`state
      ensures Valid() && Follows(old(state), TakeFree(w), state)
      ensures if unix == -1 then state.aborted else !state.aborted && At(state, w) == Holding(old(At(state, w)).fd, unix)
    {
      ShapeKeeps(state, TakeFree(w));
      unix := if first then available1[index % MAX_CONNECTIONS] else available2[index % MAX_CONNECTIONS];
      state := Take(state, TakeFree(w));
    }

    method SetTcp(w: nat, fd: int, unix: int)
      requires Valid() && !state.aborted && At(state, w) == Holding(fd, unix)
      modifies this`state, tcpToUnix
      ensures Valid() && Follows(old(state), LinkTcp(w), state)
      ensures !state.aborted && At(state, w) == Linked(fd, unix) && state.tcpToUnix[fd] == unix
    {
      ShapeKeeps(state, LinkTcp(w));
      tcpToUnix[fd] := unix;
      state := Take(state, LinkTcp(w));
    }

    method SetUnix(w: nat, fd: int, unix: int)
      requires Valid() && !state.aborted && At(state, w) == Linked(fd, unix)
      modifies this`state, unixToTcp
      ensures Valid() && Follows(old(state), LinkUnix(w), state)
      ensures !state.aborted && At(state, w) == Ready(fd, unix) && state.unixToTcp[unix] == fd && state.tcpToUnix == old(state).tcpToUnix
    {
      ShapeKeeps(state, LinkUnix(w));
      unixToTcp[unix] := fd;
      state := Take(state, LinkUnix(w));
    }

    method AddToEpoll(w: nat)
      requires Valid() && !state.aborted && At(state, w).Ready?
      modifies this`state
      ensures Valid() && Follows(old(state), Register(w), state)
      ensures !state.aborted && At(state, w).Waiting? && state.tcpToUnix == old(state).tcpToUnix && state.unixToTcp == old(state).unixToTcp
    {
      ShapeKeeps(state, Register(w));
      state := Take(state, Register(w));
    }

    // ----- The branches of the code -----

    /**
     * `erase_from_maps`: a client's lease is undone and its connection given back; any other descriptor
     * ends in a failed CHECK, after clearing the pair when it is a leased connection's.
     */
    method EraseFromMaps(w: nat, fd: int) returns (ok: bool, ghost trace: seq<State>, ghost steps: seq<Step>)
      requires Valid() && Erases(w, fd)
      modifies this`state, this`end1, this`end2, tcpToUnix, unixToTcp, available1, available2
      ensures Valid() && Run(trace, steps, old(state), state)
      ensures ok <==> old(tcpToUnix[fd]) != -1
      ensures if ok
              then && steps == [LookupOf(old(state), w), UnlinkUnix(w), UnlinkTcp(w), ReserveSlot(w), Publish(w), Close(w)]
                   && !state.aborted && At(state, w).Waiting?
              else steps == [LookupOf(old(state), w)] && state.aborted
      ensures !ok && old(unixToTcp[fd]) != -1 ==>
                && ValidFd(old(unixToTcp[fd]))
                && tcpToUnix[..] == old(tcpToUnix[..])[old(unixToTcp[fd]) := -1] && unixToTcp[..] == old(unixToTcp[..])[fd := -1]
    {
      hide Take, Enabled, Follows, Run, PoolOf, PositionShape;
      ghost var s0 := state;
      ghost var lookup := LookupOf(state, w);
      var unix := FindLease(w, fd);
      ghost var s1 := state;
      trace, steps := [s0, s1], [lookup];
      One(s0, lookup, s1);
      if unix == -1 {
        return false, trace, steps;
      }
      ClearUnix(w, unix);
      ghost var s2 := state;
      Extend(trace, steps, s0, s1, UnlinkUnix(w), s2);
      ClearTcp(w, fd);
      ghost var s3 := state;
      Extend(trace + [s2], steps + [UnlinkUnix(w)], s0, s2, UnlinkTcp(w), s3);
      trace, steps := trace + [s2] + [s3], steps + [UnlinkUnix(w)] + [UnlinkTcp(w)];
      ghost var t2, l2 := GiveBackTo(w, unix);
      Join(trace, steps, s0, s3, t2, l2, state);
      trace, steps := trace + t2[1..], steps + l2;
      ok := true;
    }

    method GiveBackTo(w: nat, unix: int) returns (ghost trace: seq<State>, ghost steps: seq<Step>)
      requires Valid() && !state.aborted && At(state, w).Unlinked? && At(state, w).unix == unix
      modifies this`state, this`end1, this`end2, available1, available2
      ensures Valid() && Run(trace, steps, old(state), state)
      ensures steps == [ReserveSlot(w), Publish(w), Close(w)] && !state.aborted && At(state, w).Waiting?
      ensures |trace| == |steps| + 1
    {
      hide Take, Enabled, Follows, Run, PoolOf, PositionShape;
      ghost var s0 := state;
      var first, index := NextEnd(w, unix);
      ghost var s1 := state;
      StoreFree(w, first, index, unix);
      ghost var s2 := state;
      CloseClient(w);
      One(s0, ReserveSlot(w), s1);
      Extend([s0, s1], [ReserveSlot(w)], s0, s1, Publish(w), s2);
      Extend([s0, s1] + [s2], [ReserveSlot(w)] + [Publish(w)], s0, s2, Close(w), state);
      trace, steps := [s0, s1] + [s2] + [state], [ReserveSlot(w)] + [Publish(w)] + [Close(w)];
    }

    /** The accept branch once a client has been accepted; an empty slot ends in a failed CHECK. */
    method Lease(w: nat, fd: int) returns (unix: int, ghost trace: seq<State>, ghost steps: seq<Step>)
      requires Valid() && !state.aborted && At(state, w) == Accepted(fd)
      modifies this`state, this`roundRobinCounter, this`start1, this`start2, tcpToUnix, unixToTcp
      ensures Valid() && Run(trace, steps, old(state), state)
      ensures if unix != -1
              then && steps == [Choose(w), ReserveFree(w), TakeFree(w), LinkTcp(w), LinkUnix(w), Register(w)]
                   && !state.aborted && At(state, w).Waiting? && state.tcpToUnix[fd] == unix && state.unixToTcp[unix] == fd
              else steps == [Choose(w), ReserveFree(w), TakeFree(w)] && state.aborted
    {
      hide Take, Enabled, Follows, Run, PoolOf, PositionShape;
      ghost var s0 := state;
      unix, trace, steps := Pop(w, fd);
      ghost var s3 := state;
      if unix == -1 {
        return;
      }
      ghost var t2, l2 := LinkUp(w, fd, unix);
      Join(trace, steps, s0, s3, t2, l2, state);
      trace, steps := trace + t2[1..], steps + l2;
    }

    method LinkUp(w: nat, fd: int, unix: int) returns (ghost trace: seq<State>, ghost steps: seq<Step>)
      requires Valid() && !state.aborted && At(state, w) == Holding(fd, unix)
      modifies this`state, tcpToUnix, unixToTcp
      ensures Valid() && Run(trace, steps, old(state), state) && |trace| == |steps| + 1
      ensures steps == [LinkTcp(w), LinkUnix(w), Register(w)] && !state.aborted && At(state, w).Waiting?
      ensures state.tcpToUnix[fd] == unix && state.unixToTcp[unix] == fd
    {
      hide Take, Enabled, Follows, Run, PoolOf, PositionShape;
      ghost var s0 := state;
      SetTcp(w, fd, unix);
      ghost var s1 := state;
      SetUnix(w, fd, unix);
      ghost var s2 := state;
      AddToEpoll(w);
      One(s0, LinkTcp(w), s1);
      Extend([s0, s1], [LinkTcp(w)], s0, s1, LinkUnix(w), s2);
      Extend([s0, s1] + [s2], [LinkTcp(w)] + [LinkUnix(w)], s0, s2, Register(w), state);
      trace, steps := [s0, s1] + [s2] + [state], [LinkTcp(w)] + [LinkUnix(w)] + [Register(w)];
    }

    method Pop(w: nat, fd: int) returns (unix: int, ghost trace: seq<State>, ghost steps: seq<Step>)
      requires Valid() && !state.aborted && At(state, w) == Accepted(fd)
      modifies this`state, this`roundRobinCounter, this`start1, this`start2
      ensures Valid() && Run(trace, steps, old(state), state)
      ensures steps == [Choose(w), ReserveFree(w), TakeFree(w)]
      ensures if unix == -1 then state.aborted else !state.aborted && At(state, w) == Holding(fd, unix)
    {
      hide Take, Enabled, Follows, Run, PoolOf, PositionShape;
      ghost var s0 := state;
      var first := ChooseBackend(w);
      ghost var s1 := state;
      var index := NextStart(w, first);
      ghost var s2 := state;
      unix := LoadFree(w, first, index);
      One(s0, Choose(w), s1);
      Extend([s0, s1], [Choose(w)], s0, s1, ReserveFree(w), s2);
      Extend([s0, s1] + [s2], [Choose(w)] + [ReserveFree(w)], s0, s2, TakeFree(w), state);
      trace, steps := [s0, s1] + [s2] + [state], [Choose(w)] + [ReserveFree(w)] + [TakeFree(w)];
    }

    /** Where the data on a descriptor goes: the client's map first, the connection's second; neither fails the CHECK. */
    method Dispatch(w: nat, fd: int) returns (target: int)
      requires Valid() && !state.aborted && (At(state, w) == Woken(fd) || At(state, w) == WokenUnix(fd))
      modifies this`state
      ensures Valid() && Follows(old(state), if old(At(state, w)).Woken? then Route(w) else RouteUnix(w), state)
      ensures target == if tcpToUnix[fd] != -1 then tcpToUnix[fd] else unixToTcp[fd]
      ensures if target == -1 then state.aborted
              else !state.aborted && At(state, w) == if old(At(state, w)).Woken? then Serving(fd, target) else Relaying(fd, target)
    {
      ghost var step := if At(state, w).Woken? then Route(w) else RouteUnix(w);
      ShapeKeeps(state, step);
      target := tcpToUnix[fd];
      if target == -1 {
        target := unixToTcp[fd];
      }
      state := Take(state, step);
    }
  }
}
