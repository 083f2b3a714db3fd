/**
 * What a fault leaves behind.  Every thread has one client for its reads and one for its writes, and a
 * client on which an exchange has failed answers every later one in the negative, without sending
 * anything: a failed read is followed by failed reads only, a failed write by unsent writes only.
 */
module ProtocolStuck {
  import opened Ledger
  import opened ProtocolChanges
  import opened ProtocolInvariant
  import opened ProtocolTheorems
  import opened TransactionProtocol

  predicate ReadFails(step: Step, t: Thread) {
    step.Read? && step.thread == t && !step.found
  }

  predicate WriteFails(step: Step, t: Thread) {
    step.Write? && step.thread == t && !step.reply.Counted?
  }

  /** No exchange on a thread's client succeeds after one that failed. */
  ghost predicate ClientsStick(steps: seq<Step>) {
    && (forall t, j, k :: 0 <= j < k < |steps| && ReadFails(steps[j], t) && steps[k].Read? && steps[k].thread == t ==>
          ReadFails(steps[k], t))
    && (forall t, j, k :: 0 <= j < k < |steps| && WriteFails(steps[j], t) && steps[k].Write? && steps[k].thread == t ==>
          steps[k].reply.Unsent?)
  }

  /** The thread answers nothing between these steps. */
  ghost predicate NoAnswer(steps: seq<Step>, t: Thread, m: nat, i: nat)
    requires i <= |steps|
  {
    forall k :: m <= k < i ==> steps[k] != Answer(t)
  }

  /** The thread unlocks nothing between these steps. */
  ghost predicate NoUnlock(steps: seq<Step>, t: Thread, m: nat, i: nat)
    requires i <= |steps|
  {
    forall k :: m <= k < i ==> steps[k] != Unlock(t)
  }

  // ----- A thread whose writes fail -----

  /** On a transaction, which has not been called a success. */
  predicate Unrewarded(p: Position) {
    match p
    case Idle => false
    case Fetching(_) => false
    case Unlocking(_, outcome) => !outcome.Success?
    case Returning(call, outcome) => call.operation.Execute? && !outcome.Success?
    case _ => true
  }

  lemma UnrewardedStep(s: State, step: Step, s': State, t: Thread)
    requires Follows(s, step, s') && Unrewarded(At(s, t)) && step != Answer(t)
    requires step.Write? && step.thread == t ==> step.reply.Unsent?
    ensures Unrewarded(At(s', t))
  {
    hide ShapeOk, Take, Unrewarded;
    if step.Land? || step.thread != t {
      OtherThread(s, step, s', t);
    } else if step.Read? {
      UnrewardedRead(s, step, s', t);
    } else {
      UnrewardedOther(s, step, s', t);
    }
  }

  lemma UnrewardedRead(s: State, step: Step, s': State, t: Thread)
    requires Follows(s, step, s') && Unrewarded(At(s, t)) && step.Read? && step.thread == t
    ensures Unrewarded(At(s', t))
  {
    hide Exceeds;
  }

  lemma UnrewardedOther(s: State, step: Step, s': State, t: Thread)
    requires Follows(s, step, s') && Unrewarded(At(s, t)) && !step.Land? && step.thread == t
    requires !step.Read? && !step.Answer? && (step.Write? ==> step.reply.Unsent?)
    ensures Unrewarded(At(s', t))
  {
    hide Exceeds, Apply, WellFormed, TakeWrite, TakeRead, TakeFailedRead, TakeLand, TakeInvoke;
  }

  lemma OtherThread(s: State, step: Step, s': State, t: Thread)
    requires Follows(s, step, s') && (step.Land? || step.thread != t)
    ensures At(s', t) == At(s, t)
  {
    hide ShapeOk, Enabled, Take;
    StepChanges(s, step, s');
  }

  lemma InvokedUnrewarded(s: State, t: Thread, id: int, transaction: Transaction, s': State)
    requires Follows(s, Invoke(t, id, Execute(transaction)), s')
    ensures Unrewarded(At(s', t))
  {
    hide ShapeOk, Exceeds, Apply, TakeLand, TakeRead, TakeFailedRead, TakeCheck, TakeWrite, TakeFailedWrite;
  }

  /** The transaction invoked at step `m`, up to its answer. */
  lemma {:induction false} StaysUnrewarded(trace: seq<State>, steps: seq<Step>, j: nat, m: nat, i: nat, t: Thread)
    requires Execution(trace, steps) && ClientsStick(steps) && j < m < i <= |steps|
    requires WriteFails(steps[j], t) && steps[m].Invoke? && steps[m].thread == t && steps[m].operation.Execute?
    requires NoAnswer(steps, t, m, i)
    ensures Unrewarded(At(trace[i], t))
  {
    hide Follows, Unrewarded;
    FollowsAt(trace, steps, i - 1);
    if m == i - 1 {
      InvokedUnrewarded(trace[m], t, steps[m].id, steps[m].operation.transaction, trace[i]);
    } else {
      StaysUnrewarded(trace, steps, j, m, i - 1, t);
      assert steps[i - 1] != Answer(t);
      UnrewardedStep(trace[i - 1], steps[i - 1], trace[i], t);
    }
  }

  /**
   * After a write that failed, none of the thread's later transactions succeeds: one is answered only
   * with a refusal, for an unknown customer or for a limit that a read found exceeded.
   */
  lemma StuckWriterNeverSucceeds(trace: seq<State>, steps: seq<Step>, j: nat, m: nat, i: nat, t: Thread)
    requires Execution(trace, steps) && ClientsStick(steps) && j < m < i < |steps|
    requires WriteFails(steps[j], t) && steps[m].Invoke? && steps[m].thread == t && steps[m].operation.Execute?
    requires NoAnswer(steps, t, m, i) && steps[i] == Answer(t)
    ensures t in trace[i].threads && trace[i].threads[t].Returning? && !trace[i].threads[t].outcome.Success?
  {
    StaysUnrewarded(trace, steps, j, m, i, t);
    FollowsAt(trace, steps, i);
  }

  // ----- A thread whose reads fail -----

  /** Waiting for the mutex, or reading with the mutex held. */
  predicate AtReading(p: Position, id: int) {
    (p.Locking? || p.Reading?) && p.call.id == id && p.call.operation.Execute?
  }

  lemma ReadingStep(s: State, step: Step, s': State, t: Thread, id: int)
    requires Follows(s, step, s') && AtReading(At(s, t), id)
    requires step.Read? && step.thread == t ==> !step.found
    ensures AtReading(At(s', t), id) && step != Answer(t) && step != Unlock(t)
    ensures At(s, t).Reading? ==> At(s', t) == At(s, t)
  {
    hide ShapeOk, Take;
    if step.Land? || step.thread != t {
      OtherThread(s, step, s', t);
    } else if step.Lock? {
      LockReads(s, s', t);
    } else {
      FailedReadStays(s, step, s', t);
    }
  }

  lemma LockReads(s: State, s': State, t: Thread)
    requires Follows(s, Lock(t), s')
    ensures At(s', t) == Reading(At(s, t).call) && At(s, t).Locking?
    ensures Mutex(At(s, t).call) !in s.mutexes && s'.mutexes == s.mutexes[Mutex(At(s, t).call) := t]
  {
    hide TakeWrite, TakeRead, TakeFailedRead, TakeLand, TakeInvoke, TakeCheck, TakeFailedWrite;
  }

  lemma FailedReadStays(s: State, step: Step, s': State, t: Thread)
    requires Follows(s, step, s') && (At(s, t).Locking? || At(s, t).Reading?)
    requires !step.Land? && step.thread == t && !step.Lock? && (step.Read? ==> !step.found)
    ensures step.Read? && At(s', t) == At(s, t)
  {
    hide TakeWrite, TakeRead, TakeLand, TakeInvoke, TakeCheck, TakeFailedWrite;
  }

  lemma InvokedReading(s: State, t: Thread, id: int, transaction: Transaction, s': State)
    requires Follows(s, Invoke(t, id, Execute(transaction)), s') && Known(id)
    ensures AtReading(At(s', t), id)
  {
    hide ShapeOk, Exceeds, Apply, TakeLand, TakeRead, TakeFailedRead, TakeCheck, TakeWrite, TakeFailedWrite;
  }

  /** After a read that failed, a transaction of the thread on a known customer is never answered. */
  lemma {:induction false} StuckReaderNeverAnswers(trace: seq<State>, steps: seq<Step>, j: nat, m: nat, i: nat, t: Thread)
    requires Execution(trace, steps) && ClientsStick(steps) && j < m < i <= |steps|
    requires ReadFails(steps[j], t) && steps[m].Invoke? && steps[m].thread == t && steps[m].operation.Execute? && Known(steps[m].id)
    ensures AtReading(At(trace[i], t), steps[m].id)
    ensures NoAnswer(steps, t, m, i) && NoUnlock(steps, t, m, i)
  {
    hide Follows, AtReading;
    FollowsAt(trace, steps, i - 1);
    if m == i - 1 {
      InvokedReading(trace[m], t, steps[m].id, steps[m].operation.transaction, trace[i]);
    } else {
      StuckReaderNeverAnswers(trace, steps, j, m, i - 1, t);
      ReadingStep(trace[i - 1], steps[i - 1], trace[i], t, steps[m].id);
    }
  }

  // ----- Everybody else on the same customer -----

  lemma LoopStep(s: State, step: Step, s': State, t: Thread)
    requires Follows(s, step, s') && InLoop(At(s, t)) && step != Unlock(t)
    ensures InLoop(At(s', t)) && At(s', t).call == At(s, t).call
  {
    hide ShapeOk, Take, InLoop;
    if step.Land? || step.thread != t {
      OtherThread(s, step, s', t);
    } else {
      OwnLoopStep(s, step, s', t);
    }
  }

  lemma OwnLoopStep(s: State, step: Step, s': State, t: Thread)
    requires Follows(s, step, s') && InLoop(At(s, t)) && !step.Land? && step.thread == t && !step.Unlock?
    ensures InLoop(At(s', t)) && At(s', t).call == At(s, t).call
  {
    hide ShapeOk, Take;
    if step.Read? {
      ReadLoops(s, step, s', t);
    } else if step.Check? {
      CheckLoops(s, s', t);
    } else {
      WriteLoops(s, step, s', t);
    }
  }

  lemma ReadLoops(s: State, step: Step, s': State, t: Thread)
    requires Follows(s, step, s') && step.Read? && step.thread == t && At(s, t).Reading?
    ensures InLoop(At(s', t)) && At(s', t).call == At(s, t).call
  {
    hide Exceeds, WellFormed, TakeLand, TakeInvoke, TakeCheck, TakeWrite, TakeFailedWrite;
  }

  lemma CheckLoops(s: State, s': State, t: Thread)
    requires Follows(s, Check(t), s')
    ensures InLoop(At(s', t)) && At(s', t).call == At(s, t).call
  {
    hide Exceeds, Apply, WellFormed, TakeLand, TakeInvoke, TakeRead, TakeFailedRead, TakeWrite, TakeFailedWrite;
  }

  lemma WriteLoops(s: State, step: Step, s': State, t: Thread)
    requires Follows(s, step, s') && step.Write? && step.thread == t
    ensures InLoop(At(s', t)) && At(s', t).call == At(s, t).call
  {
    hide ShapeOk, InLoop, TakeLand, TakeInvoke, TakeRead, TakeFailedRead, TakeCheck, TakeWrite, TakeFailedWrite;
    if step.reply.Counted? {
      CountedLoops(s, t);
    } else {
      FailedLoops(s, t, step.reply);
    }
  }

  lemma CountedLoops(s: State, t: Thread)
    requires ShapeOk(s) && Enabled(s, Write(t, Counted))
    ensures InLoop(At(TakeWrite(s, t), t)) && At(TakeWrite(s, t), t).call == At(s, t).call
  {
    hide PositionShape, FlightShape, WellFormed, Retries;
  }

  lemma FailedLoops(s: State, t: Thread, reply: Reply)
    requires ShapeOk(s) && Enabled(s, Write(t, reply)) && !reply.Counted?
    ensures InLoop(At(TakeFailedWrite(s, t, reply), t)) && At(TakeFailedWrite(s, t, reply), t).call == At(s, t).call
  {
    hide PositionShape, FlightShape, WellFormed;
  }

  lemma HolderOwns(s: State, t: Thread)
    requires Inv(s) && InLoop(At(s, t))
    ensures Owns(s, t, At(s, t).call)
  {
    assert Consistent(s, t, s.threads[t]);
  }

  lemma BlockedStep(s: State, step: Step, s': State, t: Thread, u: Thread)
    requires Follows(s, step, s') && Inv(s) && InLoop(At(s, t)) && At(s, u).Locking?
    requires Mutex(At(s, u).call) == Mutex(At(s, t).call)
    ensures At(s', u) == At(s, u) && step != Answer(u)
  {
    hide ShapeOk, Take, Inv;
    HolderOwns(s, t);
    if step.Land? || step.thread != u {
      OtherThread(s, step, s', u);
    }
  }

  /** While a thread has not left its loop, nobody else of its process gets past the lock of the same customer. */
  lemma {:induction false} HolderBlocks(trace: seq<State>, steps: seq<Step>, l: nat, i: nat, t: Thread, u: Thread)
    requires Execution(trace, steps) && l <= i <= |steps| && InLoop(At(trace[l], t)) && At(trace[l], u).Locking?
    requires Mutex(At(trace[l], u).call) == Mutex(At(trace[l], t).call) && NoUnlock(steps, t, l, i)
    ensures InLoop(At(trace[i], t)) && At(trace[i], t).call == At(trace[l], t).call
    ensures At(trace[i], u) == At(trace[l], u) && NoAnswer(steps, u, l, i)
    decreases i
  {
    hide Follows, InLoop, Inv;
    if l < i {
      HolderBlocks(trace, steps, l, i - 1, t, u);
      ExecutionInvariant(trace, steps, i - 1);
      FollowsAt(trace, steps, i - 1);
      LoopStep(trace[i - 1], steps[i - 1], trace[i], t);
      BlockedStep(trace[i - 1], steps[i - 1], trace[i], t, u);
    }
  }

  /**
   * Once the transaction of a thread whose reads fail holds the mutex, no other thread of its process
   * that asks for the same customer is ever answered.
   */
  lemma StuckReaderBlocks(trace: seq<State>, steps: seq<Step>, j: nat, m: nat, l: nat, i: nat, t: Thread, u: Thread)
    requires Execution(trace, steps) && ClientsStick(steps) && j < m < l <= i <= |steps|
    requires ReadFails(steps[j], t) && steps[m].Invoke? && steps[m].thread == t && steps[m].operation.Execute? && Known(steps[m].id)
    requires At(trace[l], t).Reading? && At(trace[l], u).Locking?
    requires u.process == t.process && At(trace[l], u).call.id == steps[m].id
    ensures At(trace[i], u) == At(trace[l], u) && NoAnswer(steps, u, l, i) && NoAnswer(steps, t, m, i)
  {
    hide Follows, Inv;
    StuckReaderNeverAnswers(trace, steps, j, m, i, t);
    StuckReaderNeverAnswers(trace, steps, j, m, l, t);
    ExecutionInvariant(trace, steps, l);
    OwnThread(trace[l], t);
    OwnThread(trace[l], u);
    HolderBlocks(trace, steps, l, i, t, u);
  }

  lemma OwnThread(s: State, t: Thread)
    requires Inv(s) && (At(s, t).Reading? || At(s, t).Locking?)
    ensures At(s, t).call.thread == t
  {
  }
}
