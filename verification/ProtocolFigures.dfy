/** What the transaction protocol answers and keeps, in the figures of the accounts: ids, limits, sums. */
module ProtocolFigures {
  import opened Ledger
  import opened ProtocolChanges
  import opened ProtocolInvariant
  import opened ProtocolStuck
  import opened ProtocolTheorems
  import opened TransactionProtocol

  function LimitOf(id: int): int
    requires 1 <= id <= 5
  {
    match id
    case 1 => 100000
    case 2 => 80000
    case 3 => 1000000
    case 4 => 10000000
    case 5 => 500000
  }

  lemma OpeningLimits(id: int)
    requires 1 <= id <= 5
    ensures CUSTOMERS == 5 && INITIAL_LIMITS[id - 1] == LimitOf(id)
  {
  }

  /** What the ledger answers to a request when the commits so far are `history`. */
  ghost predicate AnswersBy(id: int, operation: Operation, history: seq<Transaction>, outcome: Outcome) {
    if id < 1 || id > 5 then outcome.NotFound?
    else
      && !outcome.NotFound?
      && outcome.customer.limit == LimitOf(id)
      && match operation
         case Get => outcome.Success? && outcome.customer.balance == Total(history)
         case Execute(t) =>
           if Total(history) + t.value < -LimitOf(id)
           then outcome.LimitExceeded? && outcome.customer.balance == Total(history)
           else outcome.Success? && outcome.customer.balance == Total(history) + t.value
  }

  /** The sequential ledger, in figures: a debit down to the limit is accepted, and one below it is not. */
  lemma EntryInFigures(log: seq<Entry>, l: nat)
    requires Sequential(log) && l < |log|
    ensures AnswersBy(log[l].call.id, log[l].call.operation, History(log[..l], log[l].call.id - 1), log[l].outcome)
  {
    hide Fold, History, HoldsLatest;
    var id := log[l].call.id;
    assert log[l].outcome == Expected(log[..l], id, log[l].call.operation);
    if 1 <= id <= 5 {
      OpeningLimits(id);
      RingRefinesHistory(INITIAL_LIMITS[id - 1], History(log[..l], id - 1));
    }
  }

  /**
   * The answer to a call that met no fault is what the accounts allow, by the commits before one point
   * between the call and the answer.
   */
  lemma AnswerInFigures(trace: seq<State>, steps: seq<Step>, i: nat) returns (j: nat, l: nat)
    requires Execution(trace, steps) && i < |steps| && steps[i].Answer?
    requires Active(trace[i], steps[i].thread) && Faultless(trace, steps, trace[i].threads[steps[i].thread].call.number)
    ensures trace[i].threads[steps[i].thread].Returning?
    ensures var p := trace[i].threads[steps[i].thread];
            && j < i && InvokedAt(trace, steps, j, p.call) && |trace[j].log| <= l < |trace[i].log|
            && TakesEffectAt(trace[i].log, l, p.call, p.outcome)
            && AnswersBy(p.call.id, p.call.operation, History(trace[i].log[..l], p.call.id - 1), p.outcome)
  {
    hide InvokedAt, History, AnswersBy, LandedLate, Meets;
    j := Linearizability(trace, steps, i);
    var p := trace[i].threads[steps[i].thread];
    var log := trace[|steps|].log;
    l :| |trace[j].log| <= l < |trace[i].log| && TakesEffectAt(log, l, p.call, p.outcome) && OnlyEntry(log, l);
    LogGrows(trace, steps, i, |steps|);
    assert log[..l] == trace[i].log[..l] && log[l] == trace[i].log[l];
    EntryInFigures(log, l);
  }

  /** Not found is the answer for an id outside 1 to 5, and for a statement whose read failed; nothing else. */
  lemma NotFoundExactly(trace: seq<State>, steps: seq<Step>, i: nat)
    requires Execution(trace, steps) && i < |steps| && steps[i].Answer?
    ensures Active(trace[i], steps[i].thread) && trace[i].threads[steps[i].thread].Returning?
    ensures var p := trace[i].threads[steps[i].thread];
            p.outcome.NotFound? <==> p.call.id < 1 || p.call.id > 5 || Meets(trace, steps, p.call.number, ReadFailed)
  {
    hide InvokedAt, History, LandedLate, Meets;
    var j := Linearizability(trace, steps, i);
    var p := trace[i].threads[steps[i].thread];
    var n := p.call.number;
    if !Meets(trace, steps, n, ReadFailed) {
      if Meets(trace, steps, n, WriteRejected) || Meets(trace, steps, n, ReplyLost) {
        FoundIsKnown(trace, steps, i, steps[i].thread);
      } else {
        AllFaults(trace, steps, n);
        var k, l := AnswerInFigures(trace, steps, i);
      }
    }
  }

  lemma AllFaults(trace: seq<State>, steps: seq<Step>, number: nat)
    requires Execution(trace, steps)
    requires !Meets(trace, steps, number, ReadFailed) && !Meets(trace, steps, number, WriteRejected)
    requires !Meets(trace, steps, number, ReplyLost)
    ensures Faultless(trace, steps, number)
  {
    hide Meets;
    forall fault ensures !Meets(trace, steps, number, fault) {
      match fault
      case ReadFailed =>
      case WriteRejected =>
      case ReplyLost =>
    }
  }

  /** An answer other than "not found" is about one of the customers. */
  predicate KnownIfFound(p: Position) {
    p.Returning? && !p.outcome.NotFound? ==> 1 <= p.call.id <= 5
  }

  lemma FoundStep(s: State, step: Step, s': State, t: Thread)
    requires Follows(s, step, s') && KnownIfFound(At(s, t))
    ensures KnownIfFound(At(s', t))
  {
    hide ShapeOk, Take, KnownIfFound;
    if step.Land? || step.thread != t {
      OtherThread(s, step, s', t);
    } else {
      OwnFoundStep(s, step, s', t);
    }
  }

  lemma OwnFoundStep(s: State, step: Step, s': State, t: Thread)
    requires Follows(s, step, s') && !step.Land? && step.thread == t
    ensures KnownIfFound(At(s', t))
  {
    hide ShapeOk, Take, KnownIfFound;
    if step.Write? {
      WriteLoops(s, step, s', t);
      NotReturning(At(s', t));
    } else if step.Read? {
      ReadFound(s, step, s', t);
    } else if step.Invoke? {
      InvokeFound(s, step, s', t);
    } else {
      RestFound(s, step, s', t);
    }
  }

  lemma NotReturning(p: Position)
    requires !p.Returning?
    ensures KnownIfFound(p)
  {
  }

  lemma ShapeOfThread(s: State, t: Thread)
    requires ShapeOk(s) && t in s.threads
    ensures PositionShape(t, At(s, t))
  {
  }

  lemma ReadFound(s: State, step: Step, s': State, t: Thread)
    requires Follows(s, step, s') && step.Read? && step.thread == t
    ensures KnownIfFound(At(s', t))
  {
    hide ShapeOk, Exceeds, TakeWrite, TakeFailedWrite, TakeLand, TakeInvoke, TakeCheck;
    ShapeOfThread(s, t);
  }

  lemma InvokeFound(s: State, step: Step, s': State, t: Thread)
    requires Follows(s, step, s') && step.Invoke? && step.thread == t
    ensures KnownIfFound(At(s', t))
  {
    hide ShapeOk, Enabled, Exceeds, Apply, TakeInvoke, TakeLand, TakeRead, TakeFailedRead, TakeCheck, TakeWrite, TakeFailedWrite;
    if Known(step.id) {
      KnownInvoked(s, t, step.id, step.operation);
    } else {
      UnknownInvoked(s, t, step.id, step.operation);
    }
  }

  lemma KnownInvoked(s: State, t: Thread, id: int, operation: Operation)
    requires Known(id)
    ensures !At(TakeInvoke(s, t, id, operation), t).Returning?
  {
  }

  lemma UnknownInvoked(s: State, t: Thread, id: int, operation: Operation)
    requires !Known(id)
    ensures var p := At(TakeInvoke(s, t, id, operation), t);
            p.Returning? && p.outcome.NotFound?
  {
  }

  lemma RestFound(s: State, step: Step, s': State, t: Thread)
    requires Follows(s, step, s') && (step.Lock? || step.Check? || step.Unlock? || step.Answer?) && step.thread == t
    ensures KnownIfFound(At(s', t))
  {
    hide Exceeds, Apply, WellFormed, FlightShape, TakeLand, TakeInvoke, TakeRead, TakeFailedRead, TakeWrite, TakeFailedWrite;
  }

  lemma {:induction false} FoundIsKnown(trace: seq<State>, steps: seq<Step>, i: nat, t: Thread)
    requires Execution(trace, steps) && i <= |steps|
    ensures KnownIfFound(At(trace[i], t))
  {
    hide Follows, KnownIfFound;
    if i == 0 {
      NobodyReturns(t);
    } else {
      FoundIsKnown(trace, steps, i - 1, t);
      FollowsAt(trace, steps, i - 1);
      FoundStep(trace[i - 1], steps[i - 1], trace[i], t);
    }
  }

  lemma NobodyReturns(t: Thread)
    ensures KnownIfFound(At(Initial(), t))
  {
  }

  // ----- The accounts -----

  /** The accounts as they are opened: five customers, their limits, nothing on the balance, version 1. */
  lemma OpenedInFigures()
    ensures |Initial().rows| == 5
    ensures forall id :: 1 <= id <= 5 ==>
              var row := Initial().rows[id - 1];
              row.customer.limit == LimitOf(id) && row.customer.balance == 0 && row.version == 1
  {
    forall id | 1 <= id <= 5
      ensures INITIAL_LIMITS[id - 1] == LimitOf(id)
    {
      OpeningLimits(id);
    }
  }

  /** In every reachable state no customer owes more than the limit of the account. */
  lemma CreditInFigures(trace: seq<State>, steps: seq<Step>, i: nat, id: int)
    requires Execution(trace, steps) && i <= |steps| && 1 <= id <= 5
    ensures |trace[i].rows| == 5
    ensures var row := trace[i].rows[id - 1];
            && row.customer.limit == LimitOf(id)
            && row.customer.balance == Total(History(trace[i].log, id - 1)) >= -LimitOf(id)
            && row.version == 1 + |History(trace[i].log, id - 1)|
  {
    OpeningLimits(id);
    CreditSafety(trace, steps, i, id - 1);
  }

  // ----- The locks -----

  /** Between taking and giving back the lock of this customer. */
  predicate AtWorkOn(p: Position, id: int) {
    (p.Reading? || p.Checking? || p.Writing? || p.Unlocking?) && p.call.id == id
  }

  /** A thread gets the lock exactly when no other thread of its process is at work on the same customer. */
  lemma LockIsFree(trace: seq<State>, steps: seq<Step>, i: nat, t: Thread)
    requires Execution(trace, steps) && i <= |steps| && At(trace[i], t).Locking?
    ensures ShapeOk(trace[i])
    ensures Enabled(trace[i], Lock(t)) <==>
              forall u: Thread :: u.process == t.process ==> !AtWorkOn(At(trace[i], u), At(trace[i], t).call.id)
  {
    hide RowsMatch, Numbered, AnswersSettled, FlightsOk, RetriesCharged;
    ExecutionInvariant(trace, steps, i);
    var s := trace[i];
    OwnThread(s, t);
    var m := Mutex(At(s, t).call);
    if m in s.mutexes {
      var u := s.mutexes[m];
      assert AtWorkOn(At(s, u), At(s, t).call.id) && u.process == t.process;
    }
    forall u: Thread | u.process == t.process && AtWorkOn(At(s, u), At(s, t).call.id) ensures m in s.mutexes {
      HolderOwns(s, u);
      assert PositionShape(u, s.threads[u]);
    }
  }
}
