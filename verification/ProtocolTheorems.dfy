/** What the transaction protocol guarantees over whole executions. */
module ProtocolTheorems {
  import opened Ledger
  import opened TransactionProtocol
  import opened ProtocolChanges
  import opened ProtocolInvariant
  import opened ProtocolPreservation

  /** An interleaving of any number of processes and threads, started after initialisation. */
  ghost predicate Execution(trace: seq<State>, steps: seq<Step>) {
    && |trace| == |steps| + 1
    && trace[0] == Initial()
    && forall i :: 0 <= i < |steps| ==> Follows(trace[i], steps[i], trace[i + 1])
  }

  lemma FollowsAt(trace: seq<State>, steps: seq<Step>, i: nat)
    requires Execution(trace, steps) && i < |steps|
    ensures Follows(trace[i], steps[i], trace[i + 1])
  {
  }

  lemma {:induction false} ExecutionInvariant(trace: seq<State>, steps: seq<Step>, i: nat)
    requires Execution(trace, steps) && i <= |steps|
    ensures Inv(trace[i])
  {
    hide Inv, Take, ShapeOk, Enabled;
    if i == 0 {
      InitialInvariant();
    } else {
      ExecutionInvariant(trace, steps, i - 1);
      FollowsAt(trace, steps, i - 1);
      StepKeepsInvariant(trace[i - 1], steps[i - 1]);
    }
  }

  lemma StepGrows(s: State, step: Step, s': State)
    requires Follows(s, step, s')
    ensures s.log <= s'.log && s.calls <= s'.calls
  {
    hide Take, ShapeOk, OnlyMoves, SameCall;
    StepChanges(s, step, s');
  }

  lemma {:induction false} LogGrows(trace: seq<State>, steps: seq<Step>, i: nat, j: nat)
    requires Execution(trace, steps) && i <= j <= |steps|
    ensures trace[i].log <= trace[j].log && trace[i].calls <= trace[j].calls
    decreases j - i
  {
    hide Follows;
    if i < j {
      LogGrows(trace, steps, i, j - 1);
      FollowsAt(trace, steps, j - 1);
      StepGrows(trace[j - 1], steps[j - 1], trace[j]);
    }
  }

  // ----- Linearizability -----

  /** The step at which a call meets a fault: a statement's failed read, an error code, a lost reply. */
  predicate FaultAt(s: State, step: Step, number: nat, fault: Fault) {
    match step
    case Read(t, found) => !found && At(s, t).Fetching? && At(s, t).call.number == number && fault.ReadFailed?
    case Write(t, reply) =>
      && At(s, t).Writing? && At(s, t).call.number == number
      && ((reply.Rejected? && fault.WriteRejected?) || (reply.Lost? && fault.ReplyLost?))
    case _ => false
  }

  ghost predicate Meets(trace: seq<State>, steps: seq<Step>, number: nat, fault: Fault)
    requires |trace| == |steps| + 1
  {
    exists i :: 0 <= i < |steps| && FaultAt(trace[i], steps[i], number, fault)
  }

  ghost predicate Faultless(trace: seq<State>, steps: seq<Step>, number: nat)
    requires |trace| == |steps| + 1
  {
    forall fault :: !Meets(trace, steps, number, fault)
  }

  /** The step at which the request of a lost reply is carried out and changes its row. */
  ghost predicate LandsAt(s: State, step: Step, number: nat) {
    ShapeOk(s) && step == Land(number) && number in s.inFlight && Lands(s, number)
  }

  ghost predicate LandedLate(trace: seq<State>, steps: seq<Step>, number: nat)
    requires |trace| == |steps| + 1
  {
    exists i :: 0 <= i < |steps| && LandsAt(trace[i], steps[i], number)
  }

  lemma FaultsStep(s: State, step: Step, s': State, number: nat, fault: Fault)
    requires Follows(s, step, s') && Inv(s)
    ensures (number in s'.faults && s'.faults[number] == fault)
       <==> (number in s.faults && s.faults[number] == fault) || FaultAt(s, step, number, fault)
  {
    hide RowsMatch, Numbered, Sequential, ThreadsConsistent, AnswersSettled, FlightsOk, MutexesHeld, RetriesCharged;
    hide Take, ShapeOk, OnlyMoves, SameCall, MayLog;
    StepChanges(s, step, s');
    match step
    case Read(t, _) => Unsettled(s, t);
    case Write(t, _) => Unsettled(s, t);
    case _ =>
  }

  /** A call being read or written for has met no fault yet. */
  lemma Unsettled(s: State, t: Thread)
    requires Inv(s) && t in s.threads
    ensures var p := s.threads[t];
            p.Fetching? || p.Writing? ==> p.call.number !in s.faults && Unused(s.log, p.call.number)
    ensures var p := s.threads[t]; p.Reading? ==> p.call.number !in s.faults
  {
    hide RowsMatch, Numbered, Sequential, AnswersSettled, FlightsOk, MutexesHeld, RetriesCharged, Apply, Exceeds;
    Standing(s, t);
  }

  lemma ExecutionPrefix(trace: seq<State>, steps: seq<Step>, n: nat)
    requires Execution(trace, steps) && n <= |steps|
    ensures Execution(trace[..n + 1], steps[..n])
  {
    forall i | 0 <= i < n ensures Follows(trace[..n + 1][i], steps[..n][i], trace[..n + 1][i + 1]) {
      assert Follows(trace[i], steps[i], trace[i + 1]);
    }
  }

  /** The faults on record are exactly those met. */
  lemma {:induction false} FaultsExactly(trace: seq<State>, steps: seq<Step>, i: nat, number: nat, fault: Fault)
    requires Execution(trace, steps) && i <= |steps|
    ensures (number in trace[i].faults && trace[i].faults[number] == fault)
       <==> exists j :: 0 <= j < i && FaultAt(trace[j], steps[j], number, fault)
  {
    hide Inv, Take, ShapeOk, Enabled, FaultAt;
    if i > 0 {
      FaultsExactly(trace, steps, i - 1, number, fault);
      ExecutionInvariant(trace, steps, i - 1);
      FollowsAt(trace, steps, i - 1);
      FaultsStep(trace[i - 1], steps[i - 1], trace[i], number, fault);
    }
  }

  lemma NeverFaulted(trace: seq<State>, steps: seq<Step>, number: nat)
    requires Execution(trace, steps)
    ensures number !in trace[|steps|].faults <==> Faultless(trace, steps, number)
  {
    forall fault
      ensures Meets(trace, steps, number, fault) <==>
                number in trace[|steps|].faults && trace[|steps|].faults[number] == fault
    {
      FaultsExactly(trace, steps, |steps|, number, fault);
    }
    if number in trace[|steps|].faults {
      assert Meets(trace, steps, number, trace[|steps|].faults[number]);
    }
  }

  /** Step `j` is the invocation that gave this call its number. */
  ghost predicate InvokedAt(trace: seq<State>, steps: seq<Step>, j: nat, call: Call)
    requires Execution(trace, steps)
  {
    && j < |steps|
    && steps[j] == Invoke(call.thread, call.id, call.operation)
    && trace[j].calls == call.number
    && |trace[j].log| == call.begin
  }

  lemma CallKept(s: State, step: Step, s': State, t: Thread)
    requires Follows(s, step, s') && Active(s', t) && !(step.Invoke? && step.thread == t)
    ensures Active(s, t) && s.threads[t].call == s'.threads[t].call
  {
    hide Take, ShapeOk, MayLog, SameBooks;
    StepChanges(s, step, s');
  }

  lemma InvocationStarts(trace: seq<State>, steps: seq<Step>, i: nat)
    requires Execution(trace, steps) && i < |steps| && steps[i].Invoke?
    ensures var t := steps[i].thread; Active(trace[i + 1], t) && InvokedAt(trace, steps, i, trace[i + 1].threads[t].call)
  {
    hide Take, ShapeOk, MayLog, SameBooks;
    assert Follows(trace[i], steps[i], trace[i + 1]);
    StepChanges(trace[i], steps[i], trace[i + 1]);
  }

  lemma {:induction false} ActiveCallsInvoked(trace: seq<State>, steps: seq<Step>, i: nat, t: Thread)
    requires Execution(trace, steps) && i <= |steps| && Active(trace[i], t)
    ensures exists j: nat :: j < i && InvokedAt(trace, steps, j, trace[i].threads[t].call)
  {
    hide Take, ShapeOk, Enabled, InvokedAt;
    if i > 0 {
      assert Follows(trace[i - 1], steps[i - 1], trace[i]);
      if steps[i - 1].Invoke? && steps[i - 1].thread == t {
        InvocationStarts(trace, steps, i - 1);
      } else {
        CallKept(trace[i - 1], steps[i - 1], trace[i], t);
        ActiveCallsInvoked(trace, steps, i - 1, t);
      }
    }
  }

  /** The call took effect as entry `l` of the final log. */
  predicate TakesEffectAt(log: seq<Entry>, l: nat, call: Call, outcome: Outcome) {
    l < |log| && log[l] == Entry(call, outcome)
  }

  ghost predicate OnlyEntry(log: seq<Entry>, l: nat)
    requires l < |log|
  {
    forall m :: 0 <= m < |log| && log[m].call.number == log[l].call.number ==> m == l
  }

  lemma AnswerStays(s: State, step: Step, s': State, a: Answered)
    requires Follows(s, step, s') && a in s.answers
    ensures a in s'.answers
  {
    hide Take, ShapeOk, OnlyMoves, SameCall, SameBooks, MayLog, SameFlights;
    StepChanges(s, step, s');
  }

  lemma {:induction false} AnswersStay(trace: seq<State>, steps: seq<Step>, i: nat, j: nat, a: Answered)
    requires Execution(trace, steps) && i <= j <= |steps| && a in trace[i].answers
    ensures a in trace[j].answers
    decreases j - i
  {
    hide Follows;
    if i < j {
      FollowsAt(trace, steps, i);
      AnswerStays(trace[i], steps[i], trace[i + 1], a);
      AnswersStay(trace, steps, i + 1, j, a);
    }
  }

  lemma AnsweredCallSettled(trace: seq<State>, steps: seq<Step>, i: nat, a: Answered)
    requires Execution(trace, steps) && i <= |steps| && a in trace[i].answers
    ensures a.end <= |trace[|steps|].log| && Settled(trace[|steps|], a.call, a.outcome, a.end)
  {
    AnswersStay(trace, steps, i, |steps|, a);
    ExecutionInvariant(trace, steps, |steps|);
  }

  // ----- Effects of requests whose reply was lost -----

  /** Only landing logs an entry for a call that has met a fault. */
  lemma FaultedLogStep(s: State, step: Step, s': State, number: nat)
    requires Inv(s) && Follows(s, step, s') && number in s.faults
    ensures Unused(s'.log, number) <==> Unused(s.log, number) && !LandsAt(s, step, number)
  {
    hide RowsMatch, Sequential, ThreadsConsistent, AnswersSettled, FlightsOk, MutexesHeld, RetriesCharged;
    hide Take, OnlyMoves, SameCall;
    StepChanges(s, step, s');
    match step {
      case Read(t, _) => ReadsUnsettled(s, t);
      case Write(t, _) => Unsettled(s, t);
      case Land(n) => Flying(s, n);
      case _ =>
    }
    if s'.log != s.log {
      assert s'.log == s.log + [s'.log[|s.log|]];
      UnusedAppend(s.log, s'.log[|s.log|], number);
    }
  }

  lemma UnusedAppend(log: seq<Entry>, e: Entry, number: nat)
    ensures Unused(log + [e], number) <==> Unused(log, number) && e.call.number != number
  {
    var longer := log + [e];
    assert longer[|log|] == e;
    if Unused(longer, number) {
      forall i | 0 <= i < |log| ensures log[i].call.number != number {
        assert longer[i] == log[i];
      }
    }
  }

  lemma ReadsUnsettled(s: State, t: Thread)
    requires Inv(s) && t in s.threads && (s.threads[t].Reading? || s.threads[t].Fetching?)
    ensures s.threads[t].call.number !in s.faults
  {
    Unsettled(s, t);
  }

  lemma FaultsStay(trace: seq<State>, steps: seq<Step>, i: nat, j: nat, number: nat)
    requires Execution(trace, steps) && i <= j <= |steps| && number in trace[i].faults
    ensures number in trace[j].faults && trace[j].faults[number] == trace[i].faults[number]
  {
    var fault := trace[i].faults[number];
    FaultsExactly(trace, steps, i, number, fault);
    var k :| 0 <= k < i && FaultAt(trace[k], steps[k], number, fault);
    FaultsExactly(trace, steps, j, number, fault);
  }

  ghost predicate NoneLanded(trace: seq<State>, steps: seq<Step>, i: nat, number: nat)
    requires |trace| == |steps| + 1 && i <= |steps|
  {
    forall k :: 0 <= k < i ==> !LandsAt(trace[k], steps[k], number)
  }

  lemma NoneLandedNext(trace: seq<State>, steps: seq<Step>, i: nat, number: nat)
    requires |trace| == |steps| + 1 && 0 < i <= |steps|
    ensures NoneLanded(trace, steps, i, number)
       <==> NoneLanded(trace, steps, i - 1, number) && !LandsAt(trace[i - 1], steps[i - 1], number)
  {
    hide LandsAt;
  }

  lemma NothingInFlightBefore(trace: seq<State>, steps: seq<Step>, i: nat, number: nat)
    requires Execution(trace, steps) && i <= |steps| && number !in trace[i].faults
    ensures NoneLanded(trace, steps, i, number)
  {
    forall k | 0 <= k < i ensures !LandsAt(trace[k], steps[k], number) {
      if LandsAt(trace[k], steps[k], number) {
        ExecutionInvariant(trace, steps, k);
        Flying(trace[k], number);
        FaultsStay(trace, steps, k, i, number);
      }
    }
  }

  /** A call with a lost reply has an entry exactly when its request was carried out in time for its version. */
  lemma {:induction false} LateEntries(trace: seq<State>, steps: seq<Step>, i: nat, number: nat)
    requires Execution(trace, steps) && i <= |steps| && number in trace[i].faults
    ensures Unused(trace[i].log, number) <==> NoneLanded(trace, steps, i, number)
  {
    hide Take, ShapeOk, Enabled, LandsAt, Unused, Inv, NoneLanded;
    if i > 0 {
      ExecutionInvariant(trace, steps, i - 1);
      FollowsAt(trace, steps, i - 1);
      NoneLandedNext(trace, steps, i, number);
      if number in trace[i - 1].faults {
        LateEntries(trace, steps, i - 1, number);
        FaultedLogStep(trace[i - 1], steps[i - 1], trace[i], number);
      } else {
        NothingInFlightBefore(trace, steps, i - 1, number);
        NewlyFaulted(trace[i - 1], steps[i - 1], trace[i], number);
      }
    }
  }

  lemma NewlyFaulted(s: State, step: Step, s': State, number: nat)
    requires Inv(s) && Follows(s, step, s') && number !in s.faults && number in s'.faults
    ensures Unused(s'.log, number) && !LandsAt(s, step, number)
  {
    hide RowsMatch, Numbered, Sequential, ThreadsConsistent, AnswersSettled, FlightsOk, MutexesHeld, RetriesCharged;
    hide Take, ShapeOk, Unused, OnlyMoves, SameCall, MayLog;
    StepChanges(s, step, s');
    match step
    case Read(t, _) => Unsettled(s, t);
    case Write(t, _) => Unsettled(s, t);
    case _ =>
  }

  /** The entry a landing logs stays where it is. */
  lemma LandedEntry(trace: seq<State>, steps: seq<Step>, k: nat, number: nat)
    requires Execution(trace, steps) && k < |steps| && LandsAt(trace[k], steps[k], number)
    ensures var log, l := trace[|steps|].log, |trace[k].log|;
            l < |log| && log[l].call.number == number < trace[k].calls && OnlyEntry(log, l)
  {
    ExecutionInvariant(trace, steps, k);
    ExecutionInvariant(trace, steps, |steps|);
    Flying(trace[k], number);
    assert Follows(trace[k], steps[k], trace[k + 1]);
    LogGrows(trace, steps, k + 1, |steps|);
    assert trace[k + 1].log[|trace[k].log|].call.number == number;
  }

  // ----- The theorem -----

  /** The call answered at step `i` and the step that invoked it. */
  lemma AnsweredCall(trace: seq<State>, steps: seq<Step>, i: nat) returns (j: nat)
    requires Execution(trace, steps) && i < |steps| && steps[i].Answer?
    ensures ShapeOk(trace[i]) && Active(trace[i], steps[i].thread) && trace[i].threads[steps[i].thread].Returning?
    ensures var p := trace[i].threads[steps[i].thread];
            && j < i && InvokedAt(trace, steps, j, p.call)
            && |trace[i].log| <= |trace[|steps|].log|
            && Settled(trace[|steps|], p.call, p.outcome, |trace[i].log|)
    ensures Inv(trace[|steps|])
  {
    var s := trace[i];
    assert Follows(s, steps[i], trace[i + 1]);
    ExecutionInvariant(trace, steps, i);
    ExecutionInvariant(trace, steps, |steps|);
    var p := s.threads[steps[i].thread];
    ActiveCallsInvoked(trace, steps, i, steps[i].thread);
    j :| j < i && InvokedAt(trace, steps, j, p.call);
    AnsweredCallSettled(trace, steps, i + 1, Answered(p.call, p.outcome, |s.log|));
  }

  lemma ConfirmedEntry(trace: seq<State>, steps: seq<Step>, i: nat, call: Call, outcome: Outcome) returns (l: nat)
    requires Execution(trace, steps) && i <= |steps| && |trace[i].log| <= |trace[|steps|].log| && Inv(trace[|steps|])
    requires Settled(trace[|steps|], call, outcome, |trace[i].log|) && call.number !in trace[|steps|].faults
    ensures call.begin <= l < |trace[i].log| && TakesEffectAt(trace[|steps|].log, l, call, outcome)
    ensures OnlyEntry(trace[|steps|].log, l)
  {
    var last := trace[|steps|];
    l :| call.begin <= l < |trace[i].log| && last.log[..|trace[i].log|][l] == Entry(call, outcome);
  }

  /**
   * Linearizability.  The log is an execution of the single-threaded ledger.  The answer given at
   * step `i` belongs to one log entry, made between the call's invocation and that answer, and no
   * other entry carries the call, unless the call met a fault:
   * - a statement whose read failed is answered NotFound and has no entry;
   * - a write answered with an error code reads as SUCCESS and has no entry;
   * - a write whose reply was lost reads as SUCCESS and has one entry if its request is carried out
   *   while its version still stands, at whatever later step that is, and otherwise none.
   * So a call is left without an entry exactly when its read failed, its write was rejected, or its
   * reply was lost and its request never took effect.
   */
  lemma Linearizability(trace: seq<State>, steps: seq<Step>, i: nat) returns (j: nat)
    requires Execution(trace, steps) && i < |steps| && steps[i].Answer?
    ensures ShapeOk(trace[i]) && Active(trace[i], steps[i].thread) && trace[i].threads[steps[i].thread].Returning?
    ensures Sequential(trace[|steps|].log)
    ensures var p := trace[i].threads[steps[i].thread];
            && j < i && InvokedAt(trace, steps, j, p.call)
            && (Faultless(trace, steps, p.call.number) ==>
                  exists l :: && |trace[j].log| <= l < |trace[i].log|
                              && TakesEffectAt(trace[|steps|].log, l, p.call, p.outcome)
                              && OnlyEntry(trace[|steps|].log, l))
    ensures var n := trace[i].threads[steps[i].thread].call.number;
            Unused(trace[|steps|].log, n) <==>
              || Meets(trace, steps, n, ReadFailed)
              || Meets(trace, steps, n, WriteRejected)
              || (Meets(trace, steps, n, ReplyLost) && !LandedLate(trace, steps, n))
    ensures var p := trace[i].threads[steps[i].thread];
            && (Meets(trace, steps, p.call.number, ReadFailed) ==> p.call.operation.Get? && p.outcome == NotFound)
            && (Meets(trace, steps, p.call.number, WriteRejected) || Meets(trace, steps, p.call.number, ReplyLost) ==>
                  p.call.operation.Execute? && p.outcome.Success?)
    ensures var p := trace[i].threads[steps[i].thread];
            forall k :: 0 <= k < |steps| && LandsAt(trace[k], steps[k], p.call.number) ==>
              j < k && TakesEffectAt(trace[|steps|].log, |trace[k].log|, p.call, p.outcome)
              && OnlyEntry(trace[|steps|].log, |trace[k].log|)
  {
    hide RowsMatch, Numbered, ThreadsConsistent, AnswersSettled, FlightsOk, MutexesHeld, RetriesCharged, InvokedAt;
    hide LandsAt, FaultAt, Unused, Effective, OnlyEntry;
    j := AnsweredCall(trace, steps, i);
    var p := trace[i].threads[steps[i].thread];
    var n := p.call.number;
    NeverFaulted(trace, steps, n);
    InvokedFacts(trace, steps, j, p.call);
    FaultOnRecord(trace, steps, n);
    if n !in trace[|steps|].faults {
      var l := ConfirmedEntry(trace, steps, i, p.call, p.outcome);
      EntryUses(trace[|steps|].log, l);
      NothingInFlightBefore(trace, steps, |steps|, n);
    } else {
      LateEntries(trace, steps, |steps|, n);
      FaultedEffects(trace, steps, p.call, p.outcome, |trace[i].log|, j);
    }
  }

  lemma InvokedFacts(trace: seq<State>, steps: seq<Step>, j: nat, call: Call)
    requires Execution(trace, steps) && InvokedAt(trace, steps, j, call)
    ensures j < |steps| && trace[j].calls == call.number && |trace[j].log| == call.begin
  {
  }

  lemma EntryUses(log: seq<Entry>, l: nat)
    requires l < |log|
    ensures !Unused(log, log[l].call.number)
  {
  }

  lemma FaultOnRecord(trace: seq<State>, steps: seq<Step>, n: nat)
    requires Execution(trace, steps)
    ensures forall fault :: Meets(trace, steps, n, fault) <==>
              n in trace[|steps|].faults && trace[|steps|].faults[n] == fault
  {
    forall fault
      ensures Meets(trace, steps, n, fault) <==> n in trace[|steps|].faults && trace[|steps|].faults[n] == fault
    {
      FaultsExactly(trace, steps, |steps|, n, fault);
    }
  }

  /** What a call that met a fault has in the log, and where. */
  lemma FaultedEffects(trace: seq<State>, steps: seq<Step>, call: Call, outcome: Outcome, end: nat, j: nat)
    requires Execution(trace, steps) && Inv(trace[|steps|]) && end <= |trace[|steps|].log|
    requires call.number in trace[|steps|].faults && Settled(trace[|steps|], call, outcome, end)
    requires j < |steps| && trace[j].calls == call.number
    ensures trace[|steps|].faults[call.number] != ReplyLost ==> Unused(trace[|steps|].log, call.number)
    ensures LandedLate(trace, steps, call.number) <==> !Unused(trace[|steps|].log, call.number)
    ensures forall k :: 0 <= k < |steps| && LandsAt(trace[k], steps[k], call.number) ==>
              j < k && TakesEffectAt(trace[|steps|].log, |trace[k].log|, call, outcome)
              && OnlyEntry(trace[|steps|].log, |trace[k].log|)
  {
    var last := trace[|steps|];
    LateEntries(trace, steps, |steps|, call.number);
    forall k | 0 <= k < |steps| && LandsAt(trace[k], steps[k], call.number)
      ensures j < k && TakesEffectAt(last.log, |trace[k].log|, call, outcome) && OnlyEntry(last.log, |trace[k].log|)
    {
      LandedEntry(trace, steps, k, call.number);
      LandedOutcome(last, call, outcome, end, |trace[k].log|);
      if k <= j {
        LogGrows(trace, steps, k, j);
      }
    }
  }

  /** The one entry of a call in doubt is the call's, with the outcome it was answered with. */
  lemma LandedOutcome(s: State, call: Call, outcome: Outcome, end: nat, l: nat)
    requires Inv(s) && end <= |s.log| && Settled(s, call, outcome, end) && call.number in s.faults
    requires l < |s.log| && s.log[l].call.number == call.number && OnlyEntry(s.log, l)
    ensures s.log[l] == Entry(call, outcome)
  {
    hide RowsMatch, Numbered, Sequential, ThreadsConsistent, AnswersSettled, MutexesHeld, RetriesCharged;
    if call.number in s.inFlight {
      Flying(s, call.number);
    } else {
      var m :| call.begin <= m < |s.log| && s.log[m] == Entry(call, outcome);
      assert m == l;
    }
  }

  /** A call answered before another one is invoked also takes effect before it, unless its reply was lost. */
  lemma RealTimeOrder(trace: seq<State>, steps: seq<Step>, i: nat, j: nat, first: nat, second: nat)
    requires Execution(trace, steps) && i < j < |steps|
    requires steps[i].Answer? && Active(trace[i], steps[i].thread) && steps[j].Invoke?
    requires first < |trace[|steps|].log| && second < |trace[|steps|].log|
    requires trace[|steps|].log[first].call.number == Number(trace[i], steps[i].thread)
    requires trace[|steps|].log[second].call.number == trace[j].calls
    ensures first < second || Meets(trace, steps, Number(trace[i], steps[i].thread), ReplyLost)
  {
    hide InvokedAt, FaultAt, Settled;
    var k := Linearizability(trace, steps, i);
    var log := trace[|steps|].log;
    var p := trace[i].threads[steps[i].thread];
    EntryUses(log, first);
    if Faultless(trace, steps, p.call.number) {
      var l :| |trace[k].log| <= l < |trace[i].log| && TakesEffectAt(log, l, p.call, p.outcome) && OnlyEntry(log, l);
      assert first == l;
      LogGrows(trace, steps, i, j);
      LogGrows(trace, steps, j, |steps|);
      ExecutionInvariant(trace, steps, j);
      assert forall m :: 0 <= m < |trace[j].log| ==> log[m].call.number < trace[j].calls;
    } else {
      var fault :| Meets(trace, steps, p.call.number, fault);
      assert !Unused(log, p.call.number);
      assert fault == ReplyLost;
    }
  }

  // ----- The stored rows -----

  /**
   * Credit safety, in every reachable state: no stored balance is below minus the limit, the limit
   * never changes, the balance is the sum of the committed values, the version counts the commits,
   * and the ring holds the latest committed transactions.
   */
  lemma CreditSafety(trace: seq<State>, steps: seq<Step>, i: nat, key: nat)
    requires Execution(trace, steps) && i <= |steps| && key < CUSTOMERS
    ensures |trace[i].rows| == CUSTOMERS && WellFormed(trace[i].rows[key].customer)
    ensures var row := trace[i].rows[key];
            var history := History(trace[i].log, key);
            && -row.customer.limit <= row.customer.balance
            && row.customer.limit == INITIAL_LIMITS[key]
            && row.customer.balance == Total(history)
            && row.version == INITIAL_VERSION + |history|
            && row.customer.transactionCount == Min(|history|, 11)
            && row.customer.nextTransactionIndex == |history| % 10
            && HoldsLatest(row.customer, history)
  {
    ExecutionInvariant(trace, steps, i);
    RingRefinesHistory(INITIAL_LIMITS[key], History(trace[i].log, key));
    SequentialCredit(trace[i].log, key);
  }

  lemma {:induction false} SequentialCredit(log: seq<Entry>, key: int)
    requires Sequential(log) && 0 <= key < CUSTOMERS
    ensures -INITIAL_LIMITS[key] <= Replay(log, key).balance
    ensures Replay(log, key).limit == INITIAL_LIMITS[key]
  {
    hide HoldsLatest, Fold;
    RingRefinesHistory(INITIAL_LIMITS[key], History(log, key));
    if log != [] {
      var n := |log| - 1;
      var shorter := log[..n];
      assert Sequential(shorter) by {
        forall i | 0 <= i < |shorter|
          ensures shorter[i].outcome == Expected(shorter[..i], shorter[i].call.id, shorter[i].call.operation)
        {
          assert shorter[..i] == log[..i] && shorter[i] == log[i];
        }
      }
      SequentialCredit(shorter, key);
      assert shorter + [log[n]] == log;
      if Commits(log[n], key) {
        CommitExtends(shorter, log[n], key);
        assert log[n].outcome == Expected(shorter, log[n].call.id, log[n].call.operation);
      } else {
        LogAppend(shorter, log[n], key);
      }
    }
  }

  // ----- Retries -----

  /** Conditional writes by threads of `process` on customer `key` that found a newer version. */
  function RefusedWrites(trace: seq<State>, steps: seq<Step>, process: nat, key: int): nat
    requires |trace| == |steps| + 1
  {
    if steps == [] then 0
    else
      var n := |steps| - 1;
      RefusedWrites(trace[..n + 1], steps[..n], process, key)
      + (if RefusedBy(trace[n], steps[n], process, key) then 1 else 0)
  }

  predicate RefusedBy(s: State, step: Step, process: nat, key: int) {
    && step.Write? && step.reply.Counted? && step.thread.process == process
    && At(s, step.thread).Writing?
    && var p := At(s, step.thread);
       p.call.id - 1 == key && 0 <= key < |s.rows| && s.rows[key].version != p.version
  }

  lemma RetriesStep(s: State, step: Step, s': State, process: nat, key: int)
    requires Follows(s, step, s') && 0 <= key < CUSTOMERS
    ensures Retries(s', process, key) == Retries(s, process, key) + (if RefusedBy(s, step, process, key) then 1 else 0)
  {
    hide Take, OnlyMoves, MayLog;
    StepChanges(s, step, s');
  }

  lemma {:induction false} RetriesCountRefusals(trace: seq<State>, steps: seq<Step>, process: nat, key: int)
    requires Execution(trace, steps) && 0 <= key < CUSTOMERS
    ensures Retries(trace[|steps|], process, key) == RefusedWrites(trace, steps, process, key)
  {
    if steps != [] {
      var n := |steps| - 1;
      ExecutionPrefix(trace, steps, n);
      RetriesCountRefusals(trace[..n + 1], steps[..n], process, key);
      assert Follows(trace[n], steps[n], trace[n + 1]);
      RetriesStep(trace[n], steps[n], trace[n + 1], process, key);
    }
  }

  /** Requests of `process` for customer `key` that were carried out after their reply was lost. */
  function LateCommits(trace: seq<State>, steps: seq<Step>, process: nat, key: int): nat
    requires |trace| == |steps| + 1
  {
    if steps == [] then 0
    else
      var n := |steps| - 1;
      LateCommits(trace[..n + 1], steps[..n], process, key)
      + (if LateBy(trace[n], steps[n], process, key) then 1 else 0)
  }

  predicate LateBy(s: State, step: Step, process: nat, key: int) {
    && step.Land? && step.number in s.inFlight
    && var f := s.inFlight[step.number];
       && f.call.thread.process == process && f.call.id - 1 == key && 0 <= key < |s.rows|
       && s.rows[key].version == f.version
  }

  lemma LandingsStep(s: State, step: Step, s': State, process: nat, key: int)
    requires Follows(s, step, s') && 0 <= key < CUSTOMERS
    ensures Landings(s', process, key) == Landings(s, process, key) + (if LateBy(s, step, process, key) then 1 else 0)
  {
    hide Take, OnlyMoves, SameCall, MayLog;
    StepChanges(s, step, s');
  }

  lemma {:induction false} LandingsCountLateCommits(trace: seq<State>, steps: seq<Step>, process: nat, key: int)
    requires Execution(trace, steps) && 0 <= key < CUSTOMERS
    ensures Landings(trace[|steps|], process, key) == LateCommits(trace, steps, process, key)
  {
    if steps != [] {
      var n := |steps| - 1;
      ExecutionPrefix(trace, steps, n);
      LandingsCountLateCommits(trace[..n + 1], steps[..n], process, key);
      assert Follows(trace[n], steps[n], trace[n + 1]);
      LandingsStep(trace[n], steps[n], trace[n + 1], process, key);
    }
  }

  /**
   * Every refused write is paid for by a commit on the same customer that its process's mutex does
   * not cover: one of another process, or a late one of its own.
   */
  lemma RetryBound(trace: seq<State>, steps: seq<Step>, process: nat, key: int)
    requires Execution(trace, steps) && 0 <= key < CUSTOMERS
    ensures RefusedWrites(trace, steps, process, key)
         <= ForeignCommits(trace[|steps|].log, process, key) + LateCommits(trace, steps, process, key)
  {
    hide Overtaken, RefusedWrites, LateCommits;
    RetriesCountRefusals(trace, steps, process, key);
    LandingsCountLateCommits(trace, steps, process, key);
    ExecutionInvariant(trace, steps, |steps|);
    var s := trace[|steps|];
    assert ChargedAt(s, process, key);
    LagNotNegative(s, process, key);
  }

  function CommitsBy(log: seq<Entry>, process: nat, key: int): nat {
    if log == [] then 0
    else
      var last := log[|log| - 1];
      CommitsBy(log[..|log| - 1], process, key)
      + (if Commits(last, key) && last.call.thread.process == process then 1 else 0)
  }

  ghost predicate OnlyProcesses(log: seq<Entry>, a: nat, b: nat) {
    forall i :: 0 <= i < |log| ==> log[i].call.thread.process in {a, b}
  }

  lemma {:induction false} ForeignIsTheOther(log: seq<Entry>, a: nat, b: nat, key: int)
    requires OnlyProcesses(log, a, b)
    ensures ForeignCommits(log, a, key) == if a == b then 0 else CommitsBy(log, b, key)
  {
    if log != [] {
      ForeignIsTheOther(log[..|log| - 1], a, b, key);
      assert log[|log| - 1].call.thread.process in {a, b};
    }
  }

  /** Every thread that takes a step belongs to one of two processes. */
  predicate Within(step: Step, a: nat, b: nat) {
    step.Land? || step.thread.process in {a, b}
  }

  ghost predicate CallsWithin(s: State, a: nat, b: nat) {
    OnlyProcesses(s.log, a, b) && forall n <- s.inFlight :: s.inFlight[n].call.thread.process in {a, b}
  }

  lemma WithinStep(s: State, step: Step, s': State, a: nat, b: nat)
    requires Inv(s) && Follows(s, step, s') && Within(step, a, b) && CallsWithin(s, a, b)
    ensures CallsWithin(s', a, b)
  {
    hide RowsMatch, Numbered, Sequential, ThreadsConsistent, AnswersSettled, FlightsOk, MutexesHeld, RetriesCharged;
    hide Take, OnlyMoves;
    StepChanges(s, step, s');
    if s'.log != s.log {
      assert s'.log == s.log + [s'.log[|s.log|]];
    }
  }

  lemma {:induction false} InvokersInLog(trace: seq<State>, steps: seq<Step>, i: nat, a: nat, b: nat)
    requires Execution(trace, steps) && i <= |steps|
    requires forall k :: 0 <= k < |steps| ==> Within(steps[k], a, b)
    ensures CallsWithin(trace[i], a, b)
  {
    if i > 0 {
      InvokersInLog(trace, steps, i - 1, a, b);
      assert Follows(trace[i - 1], steps[i - 1], trace[i]);
      ExecutionInvariant(trace, steps, i - 1);
      assert Within(steps[i - 1], a, b);
      WithinStep(trace[i - 1], steps[i - 1], trace[i], a, b);
    }
  }

  predicate Loses(step: Step) {
    step.Write? && step.reply.Lost?
  }

  lemma {:induction false} NothingLostNothingLate(trace: seq<State>, steps: seq<Step>, process: nat, key: int)
    requires Execution(trace, steps) && forall k :: 0 <= k < |steps| ==> !Loses(steps[k])
    ensures trace[|steps|].inFlight == map[] && LateCommits(trace, steps, process, key) == 0
  {
    if steps != [] {
      var n := |steps| - 1;
      ExecutionPrefix(trace, steps, n);
      forall k | 0 <= k < n ensures !Loses(steps[..n][k]) {
        assert !Loses(steps[k]);
      }
      NothingLostNothingLate(trace[..n + 1], steps[..n], process, key);
      assert Follows(trace[n], steps[n], trace[n + 1]) && !Loses(steps[n]);
      EmptySkies(trace[n], steps[n], trace[n + 1]);
    }
  }

  lemma EmptySkies(s: State, step: Step, s': State)
    requires Follows(s, step, s') && s.inFlight == map[] && !Loses(step)
    ensures s'.inFlight == map[]
  {
    hide Take, OnlyMoves, SameCall, MayLog;
    StepChanges(s, step, s');
  }

  /**
   * With two processes one side never retries more than the other commits and its own lost requests
   * land; a lone process that loses no reply never retries.
   */
  lemma TwoProcessRetryBound(trace: seq<State>, steps: seq<Step>, a: nat, b: nat, key: int)
    requires Execution(trace, steps) && 0 <= key < CUSTOMERS
    requires forall k :: 0 <= k < |steps| ==> Within(steps[k], a, b)
    ensures a != b ==>
              RefusedWrites(trace, steps, a, key)
                <= CommitsBy(trace[|steps|].log, b, key) + LateCommits(trace, steps, a, key)
    ensures a == b ==> RefusedWrites(trace, steps, a, key) <= LateCommits(trace, steps, a, key)
    ensures a == b && (forall k :: 0 <= k < |steps| ==> !Loses(steps[k])) ==> RefusedWrites(trace, steps, a, key) == 0
  {
    hide RefusedWrites, LateCommits, Within, Loses;
    RetryBound(trace, steps, a, key);
    InvokersInLog(trace, steps, |steps|, a, b);
    ForeignIsTheOther(trace[|steps|].log, a, b, key);
    if forall k :: 0 <= k < |steps| ==> !Loses(steps[k]) {
      NothingLostNothingLate(trace, steps, a, key);
    }
  }

  // ----- Executions in which SUCCESS is not what it says -----

  lemma Then(trace: seq<State>, steps: seq<Step>, step: Step) returns (trace': seq<State>, steps': seq<Step>)
    requires Execution(trace, steps) && ShapeOk(trace[|steps|]) && Enabled(trace[|steps|], step)
    ensures Execution(trace', steps')
    ensures trace' == trace + [Take(trace[|steps|], step)] && steps' == steps + [step]
  {
    trace', steps' := trace + [Take(trace[|steps|], step)], steps + [step];
    forall i | 0 <= i < |steps'| ensures Follows(trace'[i], steps'[i], trace'[i + 1]) {
      if i < |steps| {
        assert Follows(trace[i], steps[i], trace[i + 1]);
      }
    }
  }

  lemma NothingYet()
    ensures Execution([Initial()], [])
  {
  }

  const SOMEBODY := Thread(0, 0)
  const DEPOSIT := Transaction(10, "a", "")

  function Deposit(): Call {
    Call(0, 0, SOMEBODY, 1, Execute(DEPOSIT))
  }

  function Deposited(): Customer {
    Apply(Opened(INITIAL_LIMITS[0]), DEPOSIT)
  }

  lemma DepositUpToRead() returns (trace: seq<State>, steps: seq<Step>)
    ensures Execution(trace, steps)
    ensures trace[|steps|] == Initial().(
              calls := 1, mutexes := map[(0, 0) := SOMEBODY], threads := map[SOMEBODY := Reading(Deposit())])
  {
    hide Execution;
    trace, steps := [Initial()], [];
    NothingYet();
    trace, steps := Then(trace, steps, Invoke(SOMEBODY, 1, Execute(DEPOSIT)));
    trace, steps := Then(trace, steps, Lock(SOMEBODY));
  }

  /** A deposit on its way to its conditional write. */
  lemma DepositUpToWrite() returns (trace: seq<State>, steps: seq<Step>)
    ensures Execution(trace, steps)
    ensures trace[|steps|] == Initial().(
              calls := 1, mutexes := map[(0, 0) := SOMEBODY],
              threads := map[SOMEBODY := Writing(Deposit(), Deposited(), INITIAL_VERSION)])
  {
    hide Execution;
    trace, steps := DepositUpToRead();
    trace, steps := Then(trace, steps, Read(SOMEBODY, true));
    assert trace[|steps|].threads[SOMEBODY].snapshot == Opened(INITIAL_LIMITS[0]);
    trace, steps := Then(trace, steps, Check(SOMEBODY));
  }

  lemma DepositWritten(reply: Reply) returns (trace: seq<State>, steps: seq<Step>)
    requires reply.Rejected? || reply.Lost?
    ensures Execution(trace, steps)
    ensures trace[|steps|] == Initial().(
              calls := 1, mutexes := map[(0, 0) := SOMEBODY],
              threads := map[SOMEBODY := Unlocking(Deposit(), Success(Deposited()))],
              faults := map[0 := if reply.Lost? then ReplyLost else WriteRejected],
              inFlight := if reply.Lost? then map[0 := Flight(Deposit(), Deposited(), INITIAL_VERSION)] else map[])
  {
    hide Execution, Apply;
    trace, steps := DepositUpToWrite();
    trace, steps := Then(trace, steps, Write(SOMEBODY, reply));
  }

  /** Its write is answered with an error code, or its reply is lost: SUCCESS either way. */
  lemma DepositAnswered(reply: Reply) returns (trace: seq<State>, steps: seq<Step>)
    requires reply.Rejected? || reply.Lost?
    ensures Execution(trace, steps)
    ensures trace[|steps|] == Initial().(
              calls := 1, threads := map[SOMEBODY := Idle], answers := [Answered(Deposit(), Success(Deposited()), 0)],
              faults := map[0 := if reply.Lost? then ReplyLost else WriteRejected],
              inFlight := if reply.Lost? then map[0 := Flight(Deposit(), Deposited(), INITIAL_VERSION)] else map[])
  {
    hide Execution, Apply;
    trace, steps := DepositWritten(reply);
    trace, steps := Then(trace, steps, Unlock(SOMEBODY));
    trace, steps := Then(trace, steps, Answer(SOMEBODY));
  }

  /** SUCCESS for a deposit whose write was rejected, or whose reply was lost: the rows stay as opened. */
  lemma SuccessWithoutCommit(reply: Reply) returns (trace: seq<State>, steps: seq<Step>)
    requires reply.Rejected? || reply.Lost?
    ensures Execution(trace, steps)
    ensures |trace[|steps|].answers| == 1 && trace[|steps|].answers[0].outcome.Success?
    ensures trace[|steps|].answers[0].call.operation.Execute?
    ensures trace[|steps|].rows == Initial().rows && trace[|steps|].log == []
  {
    trace, steps := DepositAnswered(reply);
  }

  /** A statement after the lost reply shows the account as opened. */
  lemma StatementAfterLoss() returns (trace: seq<State>, steps: seq<Step>)
    ensures Execution(trace, steps)
    ensures var statement := Call(1, 0, SOMEBODY, 1, Get);
            var first := Opened(INITIAL_LIMITS[0]);
            var s := trace[|steps|];
            && s.rows == Initial().rows && s.log == [Entry(statement, Success(first))]
            && s.answers == [Answered(Deposit(), Success(Deposited()), 0), Answered(statement, Success(first), 1)]
            && s.inFlight == map[0 := Flight(Deposit(), Deposited(), INITIAL_VERSION)]
            && s.threads == map[SOMEBODY := Idle]
  {
    hide Execution, Apply;
    trace, steps := DepositAnswered(Lost);
    trace, steps := Then(trace, steps, Invoke(SOMEBODY, 1, Get));
    trace, steps := Then(trace, steps, Read(SOMEBODY, true));
    trace, steps := Then(trace, steps, Answer(SOMEBODY));
  }

  /** SUCCESS before the commit: a statement asked for and answered afterwards still shows the account as opened. */
  lemma SuccessBeforeCommit() returns (trace: seq<State>, steps: seq<Step>)
    ensures Execution(trace, steps)
    ensures var s := trace[|steps|];
            && |s.answers| == 2 && s.answers[0].call.operation.Execute? && s.answers[0].outcome.Success?
            && s.answers[1].call.operation.Get? && s.answers[1].outcome == Success(Opened(INITIAL_LIMITS[0]))
            && |s.log| == 2 && s.log[0].call == s.answers[1].call && s.log[1].call == s.answers[0].call
  {
    hide Execution, Apply;
    trace, steps := StatementAfterLoss();
    trace, steps := Then(trace, steps, Land(0));
  }
}
