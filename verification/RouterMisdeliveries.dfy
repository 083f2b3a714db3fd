/**
 * Two executions with the free lists used in time in which a client is sent the reply to another
 * client's request: once because its descriptor was another's at the lookup, and once because its
 * connection was another's at the request.
 */
module RouterMisdeliveries {
  import opened Router
  import opened RouterDeliveries
  import opened RouterDrained
  import opened RouterReplies
  import opened RouterTheorems

  /** A backend connection has data, and its client is looked up. */
  lemma LookUp(s: State, w: nat, unix: int) returns (trace: seq<State>, steps: seq<Step>, s': State)
    requires ShapeOk(s) && !s.aborted && At(s, w).Waiting?
    requires unix in s.armed && unix in s.backend && ValidFd(unix) && s.tcpToUnix[unix] == -1 != s.unixToTcp[unix]
    ensures Run(trace, steps, s, s') && ShapeOk(s') && !s'.aborted && OnlyMoves(s, s', w)
    ensures steps == [WakeUnix(w, unix), RouteUnix(w)]
    ensures At(s', w) == Relaying(unix, s.unixToTcp[unix])
    ensures s' == s.(workers := s'.workers, armed := s.armed - {unix})
  {
    hide Entries, Backed, PositionShape, TakeLease, TakeRelease;
    trace, steps, s' := TwoSteps(s, WakeUnix(w, unix), RouteUnix(w));
  }

  lemma AcceptOfIs(steps: seq<Step>, i: nat, fd: int, a: nat)
    requires a < i <= |steps| && steps[a].Accept? && steps[a].fd == fd
    requires forall k :: a < k < i && steps[k].Accept? ==> steps[k].fd != fd
    ensures AcceptOf(steps, i, fd) == a
  {
    if i - 1 > a {
      AcceptOfIs(steps, i - 1, fd, a);
    }
  }

  const FIRST_REQUEST: seq<Step> := [
    Accept(0, 100), Choose(0), ReserveFree(0), TakeFree(0), LinkTcp(0), LinkUnix(0), Register(0),
    Wake(0, 100), Route(0), Forward(0), Rearm(0)]

  /** The first client comes and sends a request. */
  lemma Ask() returns (trace: seq<State>, s: State)
    ensures DistinctFds(FIRST, SECOND) && ShapeOk(Initial(FIRST, SECOND))
    ensures Cycled(Initial(FIRST, SECOND), 0) && Poised(Initial(FIRST, SECOND))
    ensures Run(trace, FIRST_REQUEST, Initial(FIRST, SECOND), s) && ShapeOk(s) && !s.aborted && At(s, 0).Waiting?
    ensures At(trace[9], 0) == Serving(100, 0) && 100 in trace[9].open
    ensures Asked(Initial(FIRST, SECOND), s)
  {
    hide Initial, Follows, Poised, Cycled;
    Starting();
    FirstState();
    var s0 := Initial(FIRST, SECOND);
    var t1, l1, s1 := Lease(s0, 100);
    var t2, l2, s2 := Send(s1, 100);
    Join(t1, l1, s0, s1, t2, l2, s2);
    trace, s := t1 + t2[1..], s2;
    assert l1 + l2 == FIRST_REQUEST;
    assert trace[9] == t2[2];
  }

  /** The first client is leased connection 0 and has sent its request; nothing else has happened since `s0`. */
  ghost predicate Asked(s0: State, s: State)
    requires ShapeOk(s0) && ShapeOk(s)
  {
    && s.rounds == s0.rounds + 1 && s.backend == s0.backend && s.armed == s0.armed && OnlyMoves(s0, s, 0)
    && 0 in s.armed && 0 in s.backend
    && s.open == s0.open + {100} && s.registered == s0.registered + {100}
    && s.tcpToUnix == s0.tcpToUnix[100 := 0] && s.unixToTcp == s0.unixToTcp[0 := 100]
    && s.tcpToUnix[0] == -1
    && s.pools == s0.pools[0 := s0.pools[0].(start := s0.pools[0].start + 1)]
  }

  // ----- The descriptor of one client becomes another's -----

  /** Worker 1 looks up the client of a reply; before it writes, worker 0 sees the client off and welcomes another. */
  const OVERTAKEN: seq<Step> := FIRST_REQUEST + [
    WakeUnix(1, 0), RouteUnix(1),
    Wake(0, 100), Route(0), HangUp(0), Lookup(0), UnlinkUnix(0), UnlinkTcp(0), ReserveSlot(0), Publish(0), Close(0),
    Accept(0, 100), Deliver(1)]

  lemma Welcome(s: State) returns (trace: seq<State>, steps: seq<Step>, s': State)
    requires ShapeOk(s) && !s.aborted && At(s, 0).Waiting? && 100 !in s.backend && 100 !in s.open
    requires At(s, 1) == Relaying(0, 100)
    ensures Run(trace, steps, s, s') && steps == [Accept(0, 100), Deliver(1)]
    ensures At(trace[1], 1) == Relaying(0, 100) && 100 in trace[1].open
  {
    hide Entries, Backed, PositionShape;
    var s1 := OneStep(s, Accept(0, 100));
    s' := OneStep(s1, Deliver(1));
    Extend([s, s1], [Accept(0, 100)], s, s1, Deliver(1), s');
    trace, steps := [s, s1] + [s'], [Accept(0, 100)] + [Deliver(1)];
  }

  lemma Overtake(s: State) returns (trace: seq<State>, steps: seq<Step>, s': State)
    requires ShapeOk(s) && !s.aborted && At(s, 0).Waiting? && At(s, 1).Waiting?
    requires 0 in s.armed && 0 in s.backend && 100 !in s.backend && 100 in s.open && 100 in s.registered
    requires s.tcpToUnix[0] == -1 && s.unixToTcp[0] == 100 && s.tcpToUnix[100] == 0
    ensures Run(trace, steps, s, s')
    ensures steps == OVERTAKEN[11..]
    ensures At(trace[12], 1) == Relaying(0, 100) && 100 in trace[12].open
  {
    hide Follows, Entries, Backed, PositionShape, Take, Enabled;
    var t1, l1, s1 := LookUp(s, 1, 0);
    var t2, l2, s2 := Release(s1, 100);
    Join(t1, l1, s, s1, t2, l2, s2);
    var t3, l3, s4 := Welcome(s2);
    Join(t1 + t2[1..], l1 + l2, s, s2, t3, l3, s4);
    trace, steps, s' := t1 + t2[1..] + t3[1..], l1 + l2 + l3, s4;
    assert trace[12] == t3[1];
  }

  lemma OvertakenIsCasual()
    ensures forall step <- OVERTAKEN :: Casual(step)
    ensures |OVERTAKEN| == 24 && FIRST_REQUEST + OVERTAKEN[11..] == OVERTAKEN
  {
  }

  lemma OvertakenAccepts()
    ensures |OVERTAKEN| == 24 && AcceptOf(OVERTAKEN, 9, 100) == 0 && AcceptOf(OVERTAKEN, 23, 100) == 22
  {
    AcceptOfIs(OVERTAKEN, 9, 100, 0);
    AcceptOfIs(OVERTAKEN, 23, 100, 22);
  }

  lemma OvertakenLookup()
    ensures |OVERTAKEN| == 24 && LookedUp(OVERTAKEN, 12, 23, 1) && OVERTAKEN[23] == Deliver(1) && OVERTAKEN[9] == Forward(0)
  {
  }

  lemma OvertakenRun() returns (trace: seq<State>)
    ensures |trace| == 25 && TimelyExecution(FIRST, SECOND, trace, OVERTAKEN)
    ensures At(trace[9], 0) == Serving(100, 0) && 100 in trace[9].open
    ensures At(trace[23], 1) == Relaying(0, 100) && 100 in trace[23].open
  {
    hide Initial, Follows, Poised, InTime, Cycled, Casual;
    var s0 := Initial(FIRST, SECOND);
    var t1, s1 := Ask();
    AskedAtRest(s0, s1);
    var t2, l2, s2 := Overtake(s1);
    Join(t1, FIRST_REQUEST, s0, s1, t2, l2, s2);
    OvertakenIsCasual();
    trace := t1 + t2[1..];
    assert trace[9] == t1[9] && trace[23] == t2[12];
    ShortRunInTime(trace, OVERTAKEN, s0, s2);
    InTimeIsTimely(trace, OVERTAKEN, s2);
  }

  /** The first client's request (step 9) is answered to the second client (step 22). */
  lemma ReplyToTheNextHolder() returns (trace: seq<State>)
    ensures TimelyExecution(FIRST, SECOND, trace, OVERTAKEN)
    ensures Requests(trace, OVERTAKEN, 9, 0) && AskerAt(trace, OVERTAKEN, 9) == 0
    ensures LookedUp(OVERTAKEN, 12, 23, 1) && OVERTAKEN[23] == Deliver(1) && At(trace[23], 1) == Relaying(0, 100)
    ensures ClientAt(trace, OVERTAKEN, 23, 100) == 22
  {
    hide TimelyExecution, LookedUp, AcceptOf;
    trace := OvertakenRun();
    OvertakenAccepts();
    OvertakenLookup();
  }

  lemma AskedAtRest(s0: State, s: State)
    requires ShapeOk(s0) && ShapeOk(s) && Cycled(s0, 0) && Asked(s0, s)
    ensures At(s, 1).Waiting? && 100 !in s.backend
  {
    hide ShapeOk, InOrder;
  }

  // ----- The connection of one client becomes another's -----

  lemma JoinInTime(t1: seq<State>, s1: seq<Step>, a: State, b: State, t2: seq<State>, s2: seq<Step>, c: State)
    requires Run(t1, s1, a, b) && Run(t2, s2, b, c) && InTime(t1, s1) && InTime(t2, s2)
    ensures Run(t1 + t2[1..], s1 + s2, a, c) && InTime(t1 + t2[1..], s1 + s2)
  {
    hide Take, Enabled, Timely;
    Join(t1, s1, a, b, t2, s2, c);
    var t, s := t1 + t2[1..], s1 + s2;
    forall i | 0 <= i < |s| ensures Follows(t[i], s[i], t[i + 1]) && Timely(t[i], s[i]) {
      assert Follows(t[i], s[i], t[i + 1]);
      if i < |s1| {
        assert t[i] == t1[i] && s[i] == s1[i];
        assert Follows(t1[i], s1[i], t1[i + 1]) && Timely(t1[i], s1[i]);
      } else {
        var k := i - |s1|;
        assert t[i] == t2[k] && s[i] == s2[k];
        assert Follows(t2[k], s2[k], t2[k + 1]) && Timely(t2[k], s2[k]);
      }
    }
  }

  lemma NoRequestsIsCasual(steps: seq<Step>)
    requires NoRequests(steps)
    ensures forall step <- steps :: Casual(step)
  {
  }

  /** Clients come and go without a request. */
  lemma {:induction false} Visits(s: State, k: nat, n: nat) returns (trace: seq<State>, steps: seq<Step>, s': State)
    requires Cycled(s, k) && k + n <= 1000
    ensures Run(trace, steps, s, s') && InTime(trace, steps) && NoRequests(steps) && Cycled(s', k + n)
    decreases n
  {
    hide Cycled, Follows, NoRequests, Casual, Poised;
    if n == 0 {
      trace, steps, s' := [s], [], s;
      NothingAsked();
    } else {
      var t1, s1, next := Cycle(s, k);
      CycledIsPoised(s, k);
      NoRequestsIsCasual(s1);
      ShortRunInTime(t1, s1, s, next);
      var t2, s2, last := Visits(next, k + 1, n - 1);
      JoinInTime(t1, s1, s, next, t2, s2, last);
      NoneJoined(s1, s2);
      trace, steps, s' := t1 + t2[1..], s1 + s2, last;
    }
  }

  lemma NothingAsked()
    ensures NoRequests([])
  {
  }

  const DEPARTURE: seq<Step> :=
    [Wake(0, 100), Route(0), HangUp(0), Lookup(0), UnlinkUnix(0), UnlinkTcp(0), ReserveSlot(0), Publish(0), Close(0)]

  /** The first client asks and leaves. */
  lemma AskAndGo() returns (trace: seq<State>, s: State)
    ensures DistinctFds(FIRST, SECOND)
    ensures Run(trace, FIRST_REQUEST + DEPARTURE, Initial(FIRST, SECOND), s) && InTime(trace, FIRST_REQUEST + DEPARTURE)
    ensures Cycled(s, 1)
    ensures At(trace[9], 0) == Serving(100, 0) && 100 in trace[9].open
  {
    hide Initial, Follows, Poised, InTime, Cycled, Casual, MovedOn;
    var s0 := Initial(FIRST, SECOND);
    var t1, s1 := Ask();
    var t2, l2, s2 := LeaveAfterAsking(s0, s1);
    Join(t1, FIRST_REQUEST, s0, s1, t2, l2, s2);
    trace, s := t1 + t2[1..], s2;
    assert trace[9] == t1[9];
    AskAndGoIsCasual();
    ShortRunInTime(trace, FIRST_REQUEST + DEPARTURE, s0, s2);
    MovedOnCycled(s0, s2, 0);
  }

  lemma AskAndGoIsCasual()
    ensures |FIRST_REQUEST| == 11 && |DEPARTURE| == 9
    ensures forall step <- FIRST_REQUEST + DEPARTURE :: Casual(step)
  {
  }

  lemma LeaveAfterAsking(s0: State, s: State) returns (trace: seq<State>, steps: seq<Step>, s': State)
    requires ShapeOk(s0) && ShapeOk(s) && Cycled(s0, 0) && Asked(s0, s) && !s.aborted && At(s, 0).Waiting?
    ensures Run(trace, steps, s, s') && steps == DEPARTURE
    ensures ShapeOk(s') && !s'.aborted && At(s', 0).Waiting? && MovedOn(s0, s')
  {
    hide Run, Follows, Entries, Backed, PositionShape, MovedOn;
    trace, steps, s' := Release(s, 100);
    NextIsFirst(s0);
    BothEnds(s0, s, s');
  }

  lemma NextIsFirst(s: State)
    requires Cycled(s, 0)
    ensures Next(s) == 0 && 0 in s.backend && s.backend[0] == 0 && ValidFd(0)
  {
    Started(s);
  }

  const ANSWERED: seq<Step> := [
    Accept(0, 100), Choose(0), ReserveFree(0), TakeFree(0), LinkTcp(0), LinkUnix(0), Register(0),
    WakeUnix(0, 0), RouteUnix(0), Deliver(0)]

  /** The hundredth client after the first has its connection, and data arrives on it. */
  lemma AnswerStranger(s: State) returns (trace: seq<State>, s': State)
    requires Cycled(s, 100)
    ensures Run(trace, ANSWERED, s, s') && InTime(trace, ANSWERED)
    ensures At(trace[9], 0) == Relaying(0, 100) && 100 in trace[9].open
  {
    hide Follows, Poised, InTime, Cycled, Casual, Take, Enabled;
    ConnectionIsBack(s);
    CycledIsPoised(s, 100);
    var t1, l1, s1 := Lease(s, 100);
    var t2, l2, s2 := LookUp(s1, 0, 0);
    Join(t1, l1, s, s1, t2, l2, s2);
    var last := DeliverOnce(s2);
    Extend(t1 + t2[1..], l1 + l2, s, s2, Deliver(0), last);
    trace, s' := t1 + t2[1..] + [last], last;
    assert l1 + l2 + [Deliver(0)] == ANSWERED;
    assert trace[9] == t2[2] == s2;
    AnsweredIsCasual();
    ShortRunInTime(trace, ANSWERED, s, last);
  }

  lemma DeliverOnce(s: State) returns (s': State)
    requires ShapeOk(s) && !s.aborted && At(s, 0).Relaying?
    ensures Follows(s, Deliver(0), s')
  {
    s' := Take(s, Deliver(0));
  }

  lemma AnsweredIsCasual()
    ensures |ANSWERED| == 10 && NoRequests(ANSWERED)
    ensures forall step <- ANSWERED :: Casual(step)
  {
    NoRequestsIsCasual(ANSWERED);
  }

  lemma AnsweredSteps()
    ensures |ANSWERED| == 10
    ensures ANSWERED[0] == Accept(0, 100) && ANSWERED[9] == Deliver(0) && ANSWERED[8] == RouteUnix(0)
    ensures forall k :: 0 < k < 10 ==> !ANSWERED[k].Accept?
  {
  }

  lemma ConnectionIsBack(s: State)
    requires Cycled(s, 100)
    ensures AtRest(s, 100) && Next(s) == 0 && 0 in s.backend && 0 in s.armed && s.tcpToUnix[0] == -1
  {
    hide Entries, Backed, PositionShape, Connection;
    SlotInOrder(s, 0, 50);
    FirstConnections(50);
    assert s.rounds % 2 == 0 && s.pools[0].start == 50;
  }

  /** The request of step 9 is the only one ever written to connection 0, and the last step answers it. */
  ghost predicate OnlyRequest(trace: seq<State>, steps: seq<Step>) {
    && Requests(trace, steps, 9, 0)
    && forall q :: Requests(trace, steps, q, 0) ==> q == 9
  }

  lemma OneRequest(trace: seq<State>, after: seq<Step>)
    requires NoRequests(after) && |trace| > 9 && At(trace[9], 0) == Serving(100, 0)
    ensures OnlyRequest(trace, FIRST_REQUEST + after)
  {
    OneForward();
    var steps := FIRST_REQUEST + after;
    assert steps[9] == FIRST_REQUEST[9];
    forall q | 0 <= q < |steps| && q != 9 ensures !steps[q].Forward? {
      if q < 11 {
        assert steps[q] == FIRST_REQUEST[q];
      } else {
        assert steps[q] == after[q - 11] && after[q - 11] in after;
      }
    }
  }

  lemma OneForward()
    ensures |FIRST_REQUEST| == 11 && FIRST_REQUEST[9] == Forward(0)
    ensures forall k :: 0 <= k < 11 && k != 9 ==> !FIRST_REQUEST[k].Forward?
  {
  }

  lemma LastAccept(before: seq<Step>)
    ensures var steps := before + ANSWERED;
            |steps| == |before| + 10 && AcceptOf(steps, |steps| - 1, 100) == |before|
            && LookedUp(steps, |steps| - 2, |steps| - 1, 0) && steps[|steps| - 1] == Deliver(0)
  {
    AnsweredSteps();
    var steps := before + ANSWERED;
    forall k | |before| < k < |steps| - 1 ensures !steps[k].Accept? {
      assert steps[k] == ANSWERED[k - |before|];
    }
    AcceptOfIs(steps, |steps| - 1, 100, |before|);
  }

  lemma FirstAccept(after: seq<Step>)
    ensures AcceptOf(FIRST_REQUEST + after, 9, 100) == 0
  {
    var steps := FIRST_REQUEST + after;
    assert forall k :: 0 <= k < 9 ==> steps[k] == FIRST_REQUEST[k];
    AcceptOfIs(steps, 9, 100, 0);
  }

  function Story(visits: seq<Step>): seq<Step> {
    FIRST_REQUEST + DEPARTURE + visits + ANSWERED
  }

  lemma StoryRun() returns (trace: seq<State>, visits: seq<Step>)
    ensures NoRequests(visits) && |Story(visits)| == 30 + |visits| == |trace| - 1
    ensures TimelyExecution(FIRST, SECOND, trace, Story(visits))
    ensures At(trace[9], 0) == Serving(100, 0) && 100 in trace[9].open
    ensures At(trace[29 + |visits|], 0) == Relaying(0, 100) && 100 in trace[29 + |visits|].open
  {
    hide Initial, InTime, Cycled, NoRequests, Follows;
    var t1, s1 := AskAndGo();
    var t2, s2;
    t2, visits, s2 := Visits(s1, 1, 99);
    JoinInTime(t1, FIRST_REQUEST + DEPARTURE, Initial(FIRST, SECOND), s1, t2, visits, s2);
    var t3, s3 := AnswerStranger(s2);
    JoinInTime(t1 + t2[1..], FIRST_REQUEST + DEPARTURE + visits, Initial(FIRST, SECOND), s2, t3, ANSWERED, s3);
    trace := t1 + t2[1..] + t3[1..];
    AskAndGoIsCasual();
    AnsweredIsCasual();
    Picked(t1, t2, t3);
    InTimeIsTimely(trace, Story(visits), s3);
  }

  lemma Regrouped(a: seq<Step>, b: seq<Step>, c: seq<Step>, d: seq<Step>)
    ensures a + b + c + d == a + (b + c + d)
  {
  }

  lemma Picked(t1: seq<State>, t2: seq<State>, t3: seq<State>)
    requires |t1| == 21 && |t2| > 0 && |t3| == 11
    ensures var trace := t1 + t2[1..] + t3[1..];
            |trace| == |t2| + 30 && trace[9] == t1[9] && trace[|t2| + 28] == t3[9]
  {
  }

  lemma StoryEnds(trace: seq<State>, visits: seq<Step>)
    requires NoRequests(visits) && |Story(visits)| == 30 + |visits| == |trace| - 1 && At(trace[9], 0) == Serving(100, 0)
    ensures OnlyRequest(trace, Story(visits)) && Story(visits)[9] == Forward(0) && AcceptOf(Story(visits), 9, 100) == 0
    ensures var i := 29 + |visits|;
            AcceptOf(Story(visits), i, 100) >= 20 && LookedUp(Story(visits), i - 1, i, 0) && Story(visits)[i] == Deliver(0)
  {
    hide NoRequests, LookedUp, OnlyRequest, AcceptOf;
    LastAccept(FIRST_REQUEST + DEPARTURE + visits);
    var after := DEPARTURE + visits + ANSWERED;
    NoneAtRelease(100);
    AnsweredIsCasual();
    AskAndGoIsCasual();
    NoneJoined(DEPARTURE, visits);
    NoneJoined(DEPARTURE + visits, ANSWERED);
    Regrouped(FIRST_REQUEST, DEPARTURE, visits, ANSWERED);
    OneRequest(trace, after);
    OneForward();
    FirstAccept(after);
  }

  /**
   * The first client asks and leaves; a hundred clients later its connection is leased again, and the
   * answer to the one request ever written to it goes to the client that has it then.
   */
  lemma ReplyToTheNextLease() returns (trace: seq<State>, steps: seq<Step>)
    ensures TimelyExecution(FIRST, SECOND, trace, steps) && |steps| > 20
    ensures OnlyRequest(trace, steps) && AskerAt(trace, steps, 9) == 0
    ensures var i := |steps| - 1;
            && LookedUp(steps, i - 1, i, 0) && steps[i] == Deliver(0) && At(trace[i], 0) == Relaying(0, 100)
            && ClientAt(trace, steps, i, 100) >= 20
  {
    hide TimelyExecution, LookedUp, AcceptOf, Story;
    var visits;
    trace, visits := StoryRun();
    StoryEnds(trace, visits);
    steps := Story(visits);
  }
}
