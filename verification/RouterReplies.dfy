/**
 * Replies and clients that do not wait for them: an execution of a single worker, with the free lists
 * used in time, in which one client that leaves before its reply arrives ends the process.
 */
module RouterReplies {
  import opened Router
  import opened RouterDrained
  import opened RouterPreservation
  import opened RouterTheorems

  // ----- Short runs use the free lists in time -----

  /** Nobody but worker 0 is busy with a client, and each list has fifty connections or more in its window. */
  ghost predicate Poised(s: State) {
    && ShapeOk(s) && At(s, 0).Waiting? && OthersNoClient(s)
    && forall b :: 0 <= b < 2 ==> s.pools[b].start + 50 <= s.pools[b].end <= 900
  }

  ghost predicate OthersNoClient(s: State) {
    forall v :: v != 0 ==> !OwnsFd(At(s, v))
  }

  /** At most `n` steps of worker 0 after `s0`: at most that many reservations at either end of a list. */
  ghost predicate Early(s0: State, s: State, n: nat)
    requires ShapeOk(s0) && ShapeOk(s)
  {
    && OthersNoClient(s)
    && (forall b :: 0 <= b < 2 ==>
          s.pools[b].start <= s0.pools[b].start + n && s0.pools[b].end <= s.pools[b].end <= s0.pools[b].end + n)
    && (At(s, 0).Popping? ==> At(s, 0).index < s0.pools[At(s, 0).pool].start + n)
  }

  /** Worker 0 does anything, the others see to backend connections; no backend closes its connection. */
  predicate Casual(step: Step) {
    (step.worker == 0 || Backends(step)) && !step.LookupUnix?
  }

  lemma EarlyStep(s0: State, s: State, step: Step, n: nat)
    requires ShapeOk(s0) && ShapeOk(s) && Early(s0, s, n) && Enabled(s, step) && Casual(step)
    ensures ShapeOk(Take(s, step)) && Early(s0, Take(s, step), n + 1)
  {
    hide ShapeOk, Enabled, Early, TakeLease, TakeRelease, TakeBackend;
    ShapeKeeps(s, step);
    if Leases(step) {
      EarlyLease(s0, s, step, n);
    } else if Backends(step) {
      EarlyBackend(s0, s, step, n);
    } else {
      EarlyRelease(s0, s, step, n);
    }
  }

  lemma EarlyLease(s0: State, s: State, step: Step, n: nat)
    requires ShapeOk(s0) && ShapeOk(s) && Early(s0, s, n) && Enabled(s, step) && step.worker == 0 && Leases(step)
    ensures ShapeOk(TakeLease(s, step)) ==> Early(s0, TakeLease(s, step), n + 1)
  {
    hide Entries, Backed;
    OthersStayLease(s, step);
  }

  lemma EarlyRelease(s0: State, s: State, step: Step, n: nat)
    requires ShapeOk(s0) && ShapeOk(s) && Early(s0, s, n) && Enabled(s, step) && step.worker == 0
    requires !Leases(step) && !Backends(step)
    ensures ShapeOk(TakeRelease(s, step)) ==> Early(s0, TakeRelease(s, step), n + 1)
  {
    hide Entries, Backed, PositionShape, Destination;
    OthersStayRelease(s, step);
  }

  lemma EarlyBackend(s0: State, s: State, step: Step, n: nat)
    requires ShapeOk(s0) && ShapeOk(s) && Early(s0, s, n) && Enabled(s, step) && Backends(step) && Casual(step)
    ensures ShapeOk(TakeBackend(s, step)) ==> Early(s0, TakeBackend(s, step), n + 1)
  {
    hide Entries, Backed, PositionShape, Destination, TakeLookup;
    OthersStayBackend(s, step);
  }

  lemma EarlyIsTimely(s0: State, s: State, step: Step, n: nat)
    requires Poised(s0) && ShapeOk(s) && Early(s0, s, n) && Enabled(s, step) && Casual(step) && n <= 50
    ensures Timely(s, step)
  {
    hide Entries, Backed;
    if step.TakeFree? {
      forall pool, index: nat ensures !Storing(s, pool, index) {
        assert forall v <- s.workers :: s.workers[v] == At(s, v);
      }
    }
    forall pool, index: nat | 0 <= pool < 2 ensures !Superseded(s, pool, index) {
      if Superseded(s, pool, index) {
        var later: nat :| index < later && later % MAX_CONNECTIONS == index % MAX_CONNECTIONS && IsPublished(s, pool, later);
        CloseIndicesDiffer(index, later);
      }
    }
  }

  ghost predicate InTime(trace: seq<State>, steps: seq<Step>)
    requires |trace| == |steps| + 1
  {
    forall i :: 0 <= i < |steps| ==> Follows(trace[i], steps[i], trace[i + 1]) && Timely(trace[i], steps[i])
  }

  lemma {:induction false} EarlyRun(trace: seq<State>, steps: seq<Step>, from: State, to: State, i: nat)
    requires Poised(from) && Run(trace, steps, from, to) && i <= |steps| <= 50
    requires forall step <- steps :: Casual(step)
    ensures ShapeOk(trace[i]) && Early(from, trace[i], i)
  {
    hide Early, Enabled, Take, Casual;
    if i == 0 {
      EarlyStart(from);
    } else {
      EarlyRun(trace, steps, from, to, i - 1);
      assert Follows(trace[i - 1], steps[i - 1], trace[i]);
      EarlyStep(from, trace[i - 1], steps[i - 1], i - 1);
    }
  }

  lemma EarlyStart(s: State)
    requires Poised(s)
    ensures Early(s, s, 0)
  {
  }

  lemma ShortRunInTime(trace: seq<State>, steps: seq<Step>, from: State, to: State)
    requires Poised(from) && Run(trace, steps, from, to) && |steps| <= 50
    requires forall step <- steps :: Casual(step)
    ensures InTime(trace, steps)
  {
    hide Early, Poised, Timely, Take, Enabled, Casual;
    forall i | 0 <= i < |steps| ensures Follows(trace[i], steps[i], trace[i + 1]) && Timely(trace[i], steps[i]) {
      assert Follows(trace[i], steps[i], trace[i + 1]);
      EarlyRun(trace, steps, from, to, i);
      EarlyIsTimely(from, trace[i], steps[i], i);
    }
  }

  lemma CycledIsPoised(s: State, k: nat)
    requires Cycled(s, k) && k <= 1000
    ensures Poised(s)
  {
    hide Entries, Backed, PositionShape, InOrder, OnBackends;
  }

  lemma InTimeIsTimely(trace: seq<State>, steps: seq<Step>, last: State)
    requires DistinctFds(FIRST, SECOND) && Run(trace, steps, Initial(FIRST, SECOND), last) && InTime(trace, steps)
    ensures TimelyExecution(FIRST, SECOND, trace, steps) && trace[|steps|] == last
  {
    hide Initial, Follows, Timely;
  }

  // ----- A client that does not wait -----

  /** The client's request is passed on and the client handed back to epoll. */
  lemma Send(s: State, fd: int) returns (trace: seq<State>, steps: seq<Step>, s': State)
    requires ShapeOk(s) && !s.aborted && At(s, 0).Waiting? && ValidFd(fd) && fd in s.registered && s.tcpToUnix[fd] != -1
    ensures Run(trace, steps, s, s') && ShapeOk(s') && At(s', 0).Waiting?
    ensures steps == [Wake(0, fd), Route(0), Forward(0), Rearm(0)] && OnlyMoves(s, s', 0)
    ensures At(trace[2], 0) == Serving(fd, s.tcpToUnix[fd]) && trace[2].open == s.open
    ensures s' == s.(workers := s'.workers, place := s'.place)
  {
    var t1, l1, s2 := Arouse(s, fd);
    var t2, l2, s4 := TwoSteps(s2, Forward(0), Rearm(0));
    Join(t1, l1, s, s2, t2, l2, s4);
    trace, steps, s' := t1 + t2[1..], l1 + l2, s4;
    assert s.registered - {fd} + {fd} == s.registered;
  }

  /** The reply to nobody: the connection has been given back. */
  lemma StaleReply(s: State, unix: int) returns (trace: seq<State>, steps: seq<Step>, s': State)
    requires ShapeOk(s) && !s.aborted && At(s, 0).Waiting?
    requires unix in s.armed && unix in s.backend && ValidFd(unix) && s.tcpToUnix[unix] == -1 == s.unixToTcp[unix]
    ensures Run(trace, steps, s, s') && steps == [WakeUnix(0, unix), RouteUnix(0)] && s'.aborted
  {
    hide Entries, Backed, PositionShape, TakeLease, TakeRelease;
    trace, steps, s' := TwoSteps(s, WakeUnix(0, unix), RouteUnix(0));
  }

  const IMPATIENT: seq<Step> := [
    Accept(0, 100), Choose(0), ReserveFree(0), TakeFree(0), LinkTcp(0), LinkUnix(0), Register(0),
    Wake(0, 100), Route(0), Forward(0), Rearm(0),
    Wake(0, 100), Route(0), HangUp(0), Lookup(0), UnlinkUnix(0), UnlinkTcp(0), ReserveSlot(0), Publish(0), Close(0),
    WakeUnix(0, 0), RouteUnix(0)]

  lemma Starting()
    ensures DistinctFds(FIRST, SECOND)
    ensures var s := Initial(FIRST, SECOND);
            Poised(s) && AtRest(s, 100) && Next(s) == 0 && 0 in s.armed && 0 in s.backend && s.tcpToUnix[0] == -1 == s.unixToTcp[0]
  {
    hide Initial, Cycled, AtRest, Poised;
    FirstState();
    Started(Initial(FIRST, SECOND));
    CycledIsPoised(Initial(FIRST, SECOND), 0);
    NoEntries(FIRST, SECOND, 0);
  }

  lemma Started(s: State)
    requires Cycled(s, 0)
    ensures AtRest(s, 100) && Next(s) == 0 && 0 in s.backend
  {
    hide Entries, Backed, PositionShape, Connection;
    assert s.pools[0].ring[0] == Connection(0, 0);
    FirstConnections(0);
  }

  lemma NoEntries(first: seq<int>, second: seq<int>, unix: int)
    requires DistinctFds(first, second) && ShapeOk(Initial(first, second)) && unix in Initial(first, second).backend
    ensures var s := Initial(first, second);
            ValidFd(unix) && unix in s.armed && s.tcpToUnix[unix] == -1 == s.unixToTcp[unix]
  {
    hide IndexIn, Filled;
  }

  /**
   * One client, one request, and the client leaves before the reply: the reply finds neither map
   * entry, and the failed CHECK ends the process for everybody.
   */
  lemma ReplyAborts() returns (trace: seq<State>)
    ensures TimelyExecution(FIRST, SECOND, trace, IMPATIENT)
    ensures trace[|IMPATIENT|].aborted
  {
    hide Initial, Follows, Poised, InTime;
    Starting();
    var s0 := Initial(FIRST, SECOND);
    var t1, l1, s1 := Lease(s0, 100);
    var t2, l2, s2 := Send(s1, 100);
    Join(t1, l1, s0, s1, t2, l2, s2);
    var t3, l3, s3 := Release(s2, 100);
    Join(t1 + t2[1..], l1 + l2, s0, s2, t3, l3, s3);
    var t4, l4, s4 := StaleReply(s3, 0);
    Join(t1 + t2[1..] + t3[1..], l1 + l2 + l3, s0, s3, t4, l4, s4);
    trace := t1 + t2[1..] + t3[1..] + t4[1..];
    assert l1 + l2 + l3 + l4 == IMPATIENT;
    ShortRunInTime(trace, IMPATIENT, s0, s4);
    InTimeIsTimely(trace, IMPATIENT, s4);
  }
}
