/** Each step of the transaction protocol keeps the invariant. */
module ProtocolPreservation {
  import opened Ledger
  import opened TransactionProtocol
  import opened ProtocolInvariant

  /** The call number the step of `t` works on: its current call, or the next number when it invokes. */
  function Working(s: State, t: Thread): nat {
    if Active(s, t) then Number(s, t) else s.calls
  }

  /** What the invariant says of one thread. */
  lemma Standing(s: State, t: Thread)
    requires Inv(s) && t in s.threads
    ensures PositionShape(t, s.threads[t]) && Consistent(s, t, s.threads[t])
  {
  }

  /** Thread `t` moves to `p'`, staying with its call. */
  ghost predicate MovesTo(s: State, s': State, t: Thread, p': Position) {
    && s'.threads == s.threads[t := p'] && PositionShape(t, p')
    && (p'.Idle? || p'.call.number == Working(s, t))
    && (!Active(s, t) ==> s.calls < s'.calls)
  }

  // ----- What a step may do to the shared state -----

  lemma QuietInterferes(s: State, s': State, t: Thread, n: nat)
    requires ShapeOk(s) && ShapeOk(s') && s'.rows == s.rows && s'.log == s.log && s.calls <= s'.calls
    requires s'.faults - {n} == s.faults - {n} && s'.inFlight - {n} == s.inFlight - {n}
    requires forall m <- s.mutexes :: s.mutexes[m] != t ==> m in s'.mutexes && s'.mutexes[m] == s.mutexes[m]
    ensures Interferes(s, s', t, n)
  {
    assert forall m: nat :: m != n ==> (m in s'.faults <==> m in s.faults - {n}) && (m in s.faults ==> m in s.faults - {n});
    assert forall m: nat :: m != n ==> (m in s'.inFlight <==> m in s.inFlight - {n}) && (m in s.inFlight ==> m in s.inFlight - {n});
  }

  lemma LoggedInterferes(s: State, s': State, t: Thread, n: nat, e: Entry)
    requires ShapeOk(s) && ShapeOk(s') && s'.log == s.log + [e] && e.call.number == n && s.calls <= s'.calls
    requires forall k :: 0 <= k < CUSTOMERS ==> s'.rows[k] == s.rows[k] || s.rows[k].version < s'.rows[k].version
    requires s'.faults == s.faults && s'.mutexes == s.mutexes
    requires s'.inFlight == s.inFlight || s'.inFlight == s.inFlight - {n}
    ensures Interferes(s, s', t, n)
  {
  }

  // ----- The parts of the invariant, one at a time -----

  lemma MoveKeepsThreads(s: State, s': State, t: Thread, p': Position)
    requires Inv(s) && ShapeOk(s') && Interferes(s, s', t, Working(s, t))
    requires MovesTo(s, s', t, p') && Consistent(s', t, p')
    ensures ThreadsConsistent(s')
  {
    hide RowsMatch, Numbered, Sequential, AnswersSettled, FlightsOk, MutexesHeld, RetriesCharged, Interferes, Consistent;
    forall u <- s'.threads ensures Consistent(s', u, s'.threads[u]) {
      if u != t {
        OtherThread(s, s', t, u);
      }
    }
    NumbersDiffer(s, s', t, p');
  }

  lemma OtherThread(s: State, s': State, t: Thread, u: Thread)
    requires Inv(s) && ShapeOk(s') && Interferes(s, s', t, Working(s, t)) && u in s.threads && u != t
    ensures Consistent(s', u, s.threads[u])
  {
    hide RowsMatch, Numbered, Sequential, AnswersSettled, FlightsOk, MutexesHeld, RetriesCharged, Interferes;
    assert Consistent(s, u, s.threads[u]);
    if Active(s, u) && Active(s, t) {
      assert Number(s, u) != Number(s, t);
    }
    OthersConsistent(s, s', t, Working(s, t), u, s.threads[u]);
  }

  lemma NumbersDiffer(s: State, s': State, t: Thread, p': Position)
    requires Inv(s) && MovesTo(s, s', t, p')
    ensures forall u, v :: u in s'.threads && v in s'.threads && u != v && Active(s', u) && Active(s', v) ==>
              Number(s', u) != Number(s', v)
  {
    hide RowsMatch, Numbered, Sequential, AnswersSettled, FlightsOk, MutexesHeld, RetriesCharged;
    forall u, v | u in s'.threads && v in s'.threads && u != v && Active(s', u) && Active(s', v)
      ensures Number(s', u) != Number(s', v)
    {
      if u != t && v != t {
        assert Number(s, u) != Number(s, v);
      } else {
        var w := if u == t then v else u;
        assert Consistent(s, w, s.threads[w]);
        assert Active(s, w) && Number(s', w) == Number(s, w);
        if Active(s, t) {
          assert Number(s, t) != Number(s, w);
        }
      }
    }
  }

  lemma MoveKeepsAnswers(s: State, s': State, t: Thread, p': Position)
    requires Inv(s) && ShapeOk(s') && Interferes(s, s', t, Working(s, t)) && MovesTo(s, s', t, p')
    requires s'.answers == s.answers
    ensures AnswersSettled(s')
  {
    hide RowsMatch, Numbered, Sequential, ThreadsConsistent, FlightsOk, MutexesHeld, RetriesCharged, Settled;
    var n := Working(s, t);
    forall a <- s'.answers
      ensures a.end <= |s'.log| && a.call.number < s'.calls && Settled(s', a.call, a.outcome, a.end)
      ensures forall u :: Active(s', u) ==> Number(s', u) != a.call.number
    {
      assert a.call.number != n;
      OthersSettled(s, s', t, n, a.call, a.outcome, a.end);
      forall u | Active(s', u) ensures Number(s', u) != a.call.number {
        if u != t {
          assert Active(s, u) && Number(s', u) == Number(s, u);
        }
      }
    }
  }

  lemma NotInFlight(s: State, n: nat)
    requires ShapeOk(s) && FlightsOk(s) && n !in s.faults
    ensures n !in s.inFlight
  {
  }

  /** A call still to be settled is not in flight, so its step leaves the flights as they are. */
  lemma MoveKeepsFlights(s: State, s': State, t: Thread)
    requires Inv(s) && ShapeOk(s') && Interferes(s, s', t, Working(s, t))
    requires s'.inFlight == s.inFlight && Working(s, t) !in s.faults
    ensures FlightsOk(s')
  {
    hide RowsMatch, Numbered, Sequential, ThreadsConsistent, AnswersSettled, FlightsOk, MutexesHeld, RetriesCharged, Interferes;
    NotInFlight(s, Working(s, t));
    OthersInFlight(s, s', t, Working(s, t));
  }

  lemma FlightsFrame(s: State, s': State)
    requires ShapeOk(s) && ShapeOk(s') && FlightsOk(s)
    requires s'.rows == s.rows && s'.log == s.log && s.calls <= s'.calls && s'.faults == s.faults && s'.inFlight == s.inFlight
    ensures FlightsOk(s')
  {
    forall n <- s'.inFlight ensures FlightOk(s', n, s'.inFlight[n]) {
      assert FlightOk(s, n, s.inFlight[n]);
    }
  }

  lemma RowsFrame(s: State, s': State)
    requires |s.rows| == CUSTOMERS && RowsMatch(s) && s'.rows == s.rows && s'.log == s.log
    ensures RowsMatch(s')
  {
  }

  lemma NumberedFrame(s: State, s': State)
    requires Numbered(s) && s'.log == s.log && s.calls <= s'.calls && forall n <- s'.faults :: n in s.faults || n < s'.calls
    ensures Numbered(s')
  {
  }

  lemma MoveKeepsMutexes(s: State, s': State, t: Thread, p': Position)
    requires Inv(s) && ShapeOk(s') && Active(s, t) && MovesTo(s, s', t, p') && s'.mutexes == s.mutexes
    requires !p'.Idle? && p'.call == s.threads[t].call
    requires InLoop(s.threads[t]) ==> InLoop(p')
    ensures MutexesHeld(s')
  {
    hide RowsMatch, Numbered, Sequential, ThreadsConsistent, AnswersSettled, FlightsOk, RetriesCharged;
  }

  /** The lag of a process whose mutex is not `t`'s, and whose row stays, does not change. */
  lemma SameLag(s: State, s': State, t: Thread, p': Position, process: nat, key: int)
    requires |s.rows| == CUSTOMERS && s'.rows == s.rows && s'.threads == s.threads[t := p'] && 0 <= key < CUSTOMERS
    requires (process, key) in s'.mutexes <==> (process, key) in s.mutexes
    requires (process, key) in s.mutexes ==> s'.mutexes[(process, key)] == s.mutexes[(process, key)] != t
    ensures Overtaken(s', process, key) == Overtaken(s, process, key)
  {
  }

  /** A lag is never negative. */
  lemma LagNotNegative(s: State, process: nat, key: int)
    requires Inv(s) && 0 <= key < CUSTOMERS
    ensures Overtaken(s, process, key) >= 0
  {
    hide RowsMatch, Numbered, Sequential, AnswersSettled, FlightsOk, RetriesCharged;
    if (process, key) in s.mutexes {
      var t := s.mutexes[(process, key)];
      assert InLoop(At(s, t)) && Mutex(At(s, t).call) == (process, key);
      assert Consistent(s, t, s.threads[t]);
    }
  }

  /** Thread `t` moves while rows, mutexes and counts stay: only its own lag can change, to zero. */
  lemma RetriesFrame(s: State, s': State, t: Thread, p': Position)
    requires Inv(s) && s'.threads == s.threads[t := p']
    requires s'.rows == s.rows && s'.mutexes == s.mutexes && s'.retries == s.retries && s'.landings == s.landings
    requires !p'.Writing?
    requires p'.Checking? ==> Known(p'.call.id) && p'.version == s.rows[p'.call.id - 1].version && p'.call.thread == t
    requires MutexesHeld(s')
    requires forall process: nat, key :: ForeignCommits(s'.log, process, key) == ForeignCommits(s.log, process, key)
    ensures RetriesCharged(s')
  {
    hide RowsMatch, Numbered, Sequential, ThreadsConsistent, AnswersSettled, FlightsOk, MutexesHeld;
    forall process: nat, key | 0 <= key < CUSTOMERS ensures ChargedAt(s', process, key) {
      assert ChargedAt(s, process, key);
      if (process, key) in s.mutexes && s.mutexes[(process, key)] == t {
        LagNotNegative(s, process, key);
        OwnLagGone(s', t, p', process, key);
      } else {
        SameLag(s, s', t, p', process, key);
      }
    }
  }

  lemma OwnLagGone(s': State, t: Thread, p': Position, process: nat, key: int)
    requires |s'.rows| == CUSTOMERS && 0 <= key < CUSTOMERS && MutexesHeld(s')
    requires (process, key) in s'.mutexes && s'.mutexes[(process, key)] == t && t in s'.threads && s'.threads[t] == p'
    requires !p'.Writing? && (p'.Checking? ==> Known(p'.call.id) && p'.version == s'.rows[p'.call.id - 1].version)
    ensures Overtaken(s', process, key) == 0
  {
  }

  // ----- Whole steps, put together -----

  /** A step of `t` on its call that leaves rows, log and answers alone. */
  lemma QuietKeeps(s: State, s': State, t: Thread, p': Position)
    requires Inv(s) && ShapeOk(s') && Active(s, t) && MovesTo(s, s', t, p') && Consistent(s', t, p')
    requires s'.rows == s.rows && s'.log == s.log && s'.calls == s.calls && s'.answers == s.answers
    requires s'.faults == s.faults && s'.inFlight == s.inFlight
    requires forall m <- s.mutexes :: s.mutexes[m] != t ==> m in s'.mutexes && s'.mutexes[m] == s.mutexes[m]
    requires MutexesHeld(s') && RetriesCharged(s')
    ensures Inv(s')
  {
    hide RowsMatch, Numbered, Sequential, ThreadsConsistent, AnswersSettled, FlightsOk, MutexesHeld, RetriesCharged, Interferes;
    hide Consistent, MovesTo;
    QuietInterferes(s, s', t, Working(s, t));
    RowsFrame(s, s');
    NumberedFrame(s, s');
    FlightsFrame(s, s');
    MoveKeepsThreads(s, s', t, p');
    MoveKeepsAnswers(s, s', t, p');
  }

  /** The same with a fault recorded for the call. */
  lemma FaultKeeps(s: State, s': State, t: Thread, p': Position, fault: Fault)
    requires Inv(s) && ShapeOk(s') && Active(s, t) && MovesTo(s, s', t, p') && Consistent(s', t, p')
    requires s'.rows == s.rows && s'.log == s.log && s'.calls == s.calls && s'.answers == s.answers
    requires var n := Number(s, t);
             n !in s.faults && n < s.calls && s'.faults == s.faults[n := fault] && s'.inFlight - {n} == s.inFlight - {n}
    requires s'.mutexes == s.mutexes
    requires FlightsOk(s') && MutexesHeld(s') && RetriesCharged(s')
    ensures Inv(s')
  {
    hide RowsMatch, Numbered, Sequential, ThreadsConsistent, AnswersSettled, FlightsOk, MutexesHeld, RetriesCharged, Interferes;
    hide Consistent, MovesTo;
    QuietInterferes(s, s', t, Working(s, t));
    RowsFrame(s, s');
    NumberedFrame(s, s');
    MoveKeepsThreads(s, s', t, p');
    MoveKeepsAnswers(s, s', t, p');
  }

  /** A step that logs an entry for its call. */
  lemma LoggedKeeps(s: State, s': State, t: Thread, p': Position, e: Entry)
    requires Inv(s) && ShapeOk(s') && MovesTo(s, s', t, p') && Consistent(s', t, p')
    requires s'.log == s.log + [e] && e.call.number == Working(s, t) && s.calls <= s'.calls && s'.answers == s.answers
    requires forall k :: 0 <= k < CUSTOMERS ==> s'.rows[k] == s.rows[k] || s.rows[k].version < s'.rows[k].version
    requires s'.faults == s.faults && s'.inFlight == s.inFlight && s'.mutexes == s.mutexes && Working(s, t) !in s.faults
    requires RowsMatch(s') && Numbered(s') && Sequential(s'.log) && MutexesHeld(s') && RetriesCharged(s')
    ensures Inv(s')
  {
    hide RowsMatch, Numbered, Sequential, ThreadsConsistent, AnswersSettled, FlightsOk, MutexesHeld, RetriesCharged, Interferes;
    hide Consistent, MovesTo;
    LoggedInterferes(s, s', t, Working(s, t), e);
    MoveKeepsFlights(s, s', t);
    MoveKeepsThreads(s, s', t, p');
    MoveKeepsAnswers(s, s', t, p');
  }

  // ----- Invocation -----

  /** An entry that commits nothing leaves histories and commit counts alone. */
  lemma SilentEntry(s: State, e: Entry)
    requires |s.rows| == CUSTOMERS && RowsMatch(s)
    requires forall key :: !Commits(e, key)
    ensures RowsMatch(s.(log := s.log + [e]))
    ensures forall process: nat, key :: ForeignCommits(s.log + [e], process, key) == ForeignCommits(s.log, process, key)
  {
    forall k | 0 <= k < CUSTOMERS ensures History(s.log + [e], k) == History(s.log, k) {
      LogAppend(s.log, e, k);
    }
    forall process: nat, key
      ensures ForeignCommits(s.log + [e], process, key) == ForeignCommits(s.log, process, key)
    {
      ForeignAppend(s.log, e, process, key);
    }
  }

  /** Logging an answer that changes no row. */
  lemma LogAnswer(s: State, s': State, e: Entry)
    requires Inv(s) && s'.rows == s.rows && s'.log == s.log + [e]
    requires s'.faults == s.faults && s.calls <= s'.calls
    requires e.call.number < s'.calls && e.call.begin <= |s.log| && Unused(s.log, e.call.number)
    requires e.outcome == Expected(s.log, e.call.id, e.call.operation)
    requires forall key :: !Commits(e, key)
    ensures Sequential(s'.log) && Numbered(s') && RowsMatch(s')
    ensures forall process: nat, key :: ForeignCommits(s'.log, process, key) == ForeignCommits(s.log, process, key)
    ensures Effective(s'.log[..|s'.log|], e.call, e.outcome)
  {
    hide ThreadsConsistent, AnswersSettled, FlightsOk, MutexesHeld, RetriesCharged, RowsMatch, Sequential, Expected;
    SilentEntry(s, e);
    RowsFrame(s.(log := s.log + [e]), s');
    SequentialAppend(s.log, e);
    assert s'.log[|s.log|] == e && s'.log[..|s'.log|] == s'.log;
  }

  lemma NextIsFresh(s: State)
    requires Numbered(s)
    ensures s.calls !in s.faults && Unused(s.log, s.calls)
  {
  }

  lemma IdleHoldsNothing(s: State, t: Thread)
    requires Inv(s) && !Active(s, t)
    ensures forall m <- s.mutexes :: s.mutexes[m] != t
  {
    hide RowsMatch, Numbered, Sequential, ThreadsConsistent, AnswersSettled, FlightsOk, RetriesCharged;
  }

  lemma InvokeMutexes(s: State, s': State, t: Thread, p': Position)
    requires Inv(s) && !Active(s, t) && s'.threads == s.threads[t := p'] && s'.mutexes == s.mutexes
    ensures MutexesHeld(s')
  {
    hide RowsMatch, Numbered, Sequential, ThreadsConsistent, AnswersSettled, FlightsOk, RetriesCharged;
    IdleHoldsNothing(s, t);
  }

  lemma InvokeUnknownKeeps(s: State, t: Thread, id: int, operation: Operation)
    requires Inv(s) && Enabled(s, Invoke(t, id, operation)) && !Known(id)
    ensures Inv(TakeInvoke(s, t, id, operation))
  {
    hide RowsMatch, Numbered, Sequential, ThreadsConsistent, AnswersSettled, FlightsOk, MutexesHeld, RetriesCharged;
    var s' := TakeInvoke(s, t, id, operation);
    var p' := s'.threads[t];
    var e := Entry(p'.call, NotFound);
    NextIsFresh(s);
    LogAnswer(s, s', e);
    assert ShapeOk(s');
    InvokeMutexes(s, s', t, p');
    RetriesFrame(s, s', t, p');
    LoggedKeeps(s, s', t, p', e);
  }

  lemma InvokeKnownKeeps(s: State, t: Thread, id: int, operation: Operation)
    requires Inv(s) && Enabled(s, Invoke(t, id, operation)) && Known(id)
    ensures Inv(TakeInvoke(s, t, id, operation))
  {
    hide RowsMatch, Numbered, Sequential, ThreadsConsistent, AnswersSettled, FlightsOk, MutexesHeld, RetriesCharged, Interferes;
    var s' := TakeInvoke(s, t, id, operation);
    var p' := s'.threads[t];
    NextIsFresh(s);
    assert ShapeOk(s');
    assert Pending(s', p'.call);
    QuietInterferes(s, s', t, s.calls);
    RowsFrame(s, s');
    NumberedFrame(s, s');
    FlightsFrame(s, s');
    MoveKeepsThreads(s, s', t, p');
    MoveKeepsAnswers(s, s', t, p');
    InvokeMutexes(s, s', t, p');
    RetriesFrame(s, s', t, p');
  }

  // ----- Mutex, limit decision, answer -----

  lemma LockMutexes(s: State, t: Thread)
    requires Inv(s) && Enabled(s, Lock(t))
    ensures MutexesHeld(Take(s, Lock(t)))
  {
    hide RowsMatch, Numbered, Sequential, AnswersSettled, FlightsOk, RetriesCharged, Consistent;
    Standing(s, t);
    assert forall m <- s.mutexes :: s.mutexes[m] != t;
  }

  /** No snapshot is taken or given up by a mutex step. */
  lemma MutexRetries(s: State, s': State, t: Thread, p': Position, m: (nat, int))
    requires Inv(s) && s'.threads == s.threads[t := p'] && s'.rows == s.rows && s'.log == s.log
    requires s'.retries == s.retries && s'.landings == s.landings
    requires s'.mutexes - {m} == s.mutexes - {m} && (m in s'.mutexes ==> s'.mutexes[m] == t)
    requires forall k <- s.mutexes :: s.mutexes[k] == t ==> k == m
    requires !p'.Checking? && !p'.Writing? && (t in s.threads ==> !s.threads[t].Checking? && !s.threads[t].Writing?)
    requires m in s.mutexes ==> s.mutexes[m] == t
    ensures RetriesCharged(s')
  {
    hide RowsMatch, Numbered, Sequential, ThreadsConsistent, AnswersSettled, FlightsOk, MutexesHeld;
    forall process: nat, key | 0 <= key < CUSTOMERS ensures ChargedAt(s', process, key) {
      assert ChargedAt(s, process, key);
      if (process, key) != m {
        assert (process, key) in s'.mutexes - {m} <==> (process, key) in s.mutexes - {m};
        SameLag(s, s', t, p', process, key);
      }
    }
  }

  lemma LockKeeps(s: State, t: Thread)
    requires Inv(s) && Enabled(s, Lock(t))
    ensures Inv(Take(s, Lock(t)))
  {
    hide RowsMatch, Numbered, Sequential, ThreadsConsistent, AnswersSettled, FlightsOk, MutexesHeld, RetriesCharged;
    var s' := Take(s, Lock(t));
    Standing(s, t);
    assert ShapeOk(s');
    LockMutexes(s, t);
    NotHolding(s, t);
    MutexRetries(s, s', t, s'.threads[t], Mutex(s.threads[t].call));
    QuietKeeps(s, s', t, s'.threads[t]);
  }

  lemma NotHolding(s: State, t: Thread)
    requires Inv(s) && t in s.threads
    ensures !InLoop(s.threads[t]) ==> forall m <- s.mutexes :: s.mutexes[m] != t
    ensures InLoop(s.threads[t]) ==> forall m <- s.mutexes :: s.mutexes[m] == t ==> m == Mutex(s.threads[t].call)
  {
    hide RowsMatch, Numbered, Sequential, ThreadsConsistent, AnswersSettled, FlightsOk, RetriesCharged;
  }

  lemma UnlockMutexes(s: State, t: Thread)
    requires Inv(s) && Enabled(s, Unlock(t))
    ensures MutexesHeld(Take(s, Unlock(t)))
  {
    hide RowsMatch, Numbered, Sequential, ThreadsConsistent, AnswersSettled, FlightsOk, RetriesCharged;
  }

  lemma UnlockKeeps(s: State, t: Thread)
    requires Inv(s) && Enabled(s, Unlock(t))
    ensures Inv(Take(s, Unlock(t)))
  {
    hide RowsMatch, Numbered, Sequential, ThreadsConsistent, AnswersSettled, FlightsOk, MutexesHeld, RetriesCharged, Settled;
    var s' := Take(s, Unlock(t));
    var p := s.threads[t];
    Standing(s, t);
    assert ShapeOk(s');
    SettledFrame(s, s', p.call, p.outcome, |s.log|);
    UnlockMutexes(s, t);
    NotHolding(s, t);
    MutexRetries(s, s', t, s'.threads[t], Mutex(p.call));
    QuietKeeps(s, s', t, s'.threads[t]);
  }

  lemma SettledFrame(s: State, s': State, call: Call, outcome: Outcome, end: nat)
    requires end <= |s.log| && s'.log == s.log && s'.faults == s.faults && s'.inFlight == s.inFlight
    ensures Settled(s', call, outcome, end) == Settled(s, call, outcome, end)
  {
  }

  lemma AnswerAnswers(s: State, t: Thread)
    requires Inv(s) && Enabled(s, Answer(t))
    ensures AnswersSettled(Take(s, Answer(t)))
  {
    hide RowsMatch, Numbered, Sequential, FlightsOk, MutexesHeld, RetriesCharged, Settled;
    var s' := Take(s, Answer(t));
    var p := s.threads[t];
    assert Consistent(s, t, p);
    forall a <- s'.answers
      ensures a.end <= |s'.log| && a.call.number < s'.calls && Settled(s', a.call, a.outcome, a.end)
      ensures forall u :: Active(s', u) ==> Number(s', u) != a.call.number
    {
      assert forall u :: Active(s', u) ==> u != t && Active(s, u) && Number(s', u) == Number(s, u);
      if a in s.answers {
        assert Settled(s, a.call, a.outcome, a.end);
      }
      SettledFrame(s, s', a.call, a.outcome, a.end);
    }
  }

  lemma AnswerKeeps(s: State, t: Thread)
    requires Inv(s) && Enabled(s, Answer(t))
    ensures Inv(Take(s, Answer(t)))
  {
    hide RowsMatch, Numbered, Sequential, ThreadsConsistent, AnswersSettled, FlightsOk, MutexesHeld, RetriesCharged, Interferes;
    var s' := Take(s, Answer(t));
    assert ShapeOk(s');
    Standing(s, t);
    NotHolding(s, t);
    QuietInterferes(s, s', t, Working(s, t));
    RowsFrame(s, s');
    NumberedFrame(s, s');
    FlightsFrame(s, s');
    MoveKeepsThreads(s, s', t, Idle);
    AnswerAnswers(s, t);
    AnswerMutexes(s, t);
    RetriesFrame(s, s', t, Idle);
  }

  lemma AnswerMutexes(s: State, t: Thread)
    requires Inv(s) && Enabled(s, Answer(t))
    ensures MutexesHeld(Take(s, Answer(t)))
  {
    hide RowsMatch, Numbered, Sequential, ThreadsConsistent, AnswersSettled, FlightsOk, RetriesCharged;
    NotHolding(s, t);
  }

  lemma CheckLag(s: State, t: Thread)
    requires Inv(s) && Enabled(s, Check(t))
    ensures RetriesCharged(TakeCheck(s, t))
  {
    hide RowsMatch, Numbered, Sequential, ThreadsConsistent, AnswersSettled, FlightsOk, MutexesHeld;
    var s' := TakeCheck(s, t);
    forall process: nat, key | 0 <= key < CUSTOMERS ensures ChargedAt(s', process, key) {
      assert ChargedAt(s, process, key);
      LagNotNegative(s, process, key);
      assert Overtaken(s', process, key) == Overtaken(s, process, key) || Overtaken(s', process, key) == 0;
    }
  }

  lemma CheckKeeps(s: State, t: Thread)
    requires Inv(s) && Enabled(s, Check(t))
    ensures Inv(TakeCheck(s, t))
  {
    hide RowsMatch, Numbered, Sequential, ThreadsConsistent, AnswersSettled, FlightsOk, MutexesHeld, RetriesCharged;
    var s' := TakeCheck(s, t);
    Standing(s, t);
    assert ShapeOk(s');
    MoveKeepsMutexes(s, s', t, s'.threads[t]);
    CheckLag(s, t);
    QuietKeeps(s, s', t, s'.threads[t]);
  }

  // ----- Reads -----

  lemma RowIsReplay(s: State, key: int)
    requires |s.rows| == CUSTOMERS && RowsMatch(s) && 0 <= key < CUSTOMERS
    ensures s.rows[key] == Row(Replay(s.log, key), INITIAL_VERSION + |History(s.log, key)|)
  {
  }

  lemma ReadShape(s: State, t: Thread)
    requires Inv(s) && Enabled(s, Read(t, true))
    ensures ShapeOk(TakeRead(s, t))
  {
    hide RowsMatch, Numbered, Sequential, ThreadsConsistent, AnswersSettled, FlightsOk, MutexesHeld, RetriesCharged;
    hide Apply, Exceeds;
  }

  /** The call is settled by its entry, whether it returns at once or still has to unlock. */
  lemma SettledByEntry(s: State, s': State, t: Thread, p': Position, e: Entry)
    requires ShapeOk(s') && PositionShape(t, p') && s'.log == s.log + [e]
    requires e.call.number < s'.calls && e.call.begin <= |s.log| && e.call.number !in s'.faults
    requires match p'
             case Returning(call, outcome) => Entry(call, outcome) == e
             case Checking(call, snapshot, version) =>
               && Entry(call, LimitExceeded(snapshot)) == e && Owns(s', t, call)
               && Exceeds(snapshot, call.operation.transaction)
               && s'.rows[call.id - 1] == Row(snapshot, version)
             case _ => false
    ensures Consistent(s', t, p')
  {
    assert s'.log[|s.log|] == e && s'.log[..|s'.log|] == s'.log;
    assert Effective(s'.log, e.call, e.outcome);
  }

  /** A read that settles its call logs what the sequential ledger answers. */
  lemma LoggedReadKeeps(s: State, t: Thread, p': Position, e: Entry)
    requires Inv(s) && Enabled(s, Read(t, true)) && ShapeOk(TakeRead(s, t))
    requires TakeRead(s, t) == s.(threads := s.threads[t := p'], log := s.log + [e]) && e.call == s.threads[t].call
    requires MovesTo(s, TakeRead(s, t), t, p') && Pending(s, e.call) && e.call.number < s.calls
    requires e.outcome == Expected(s.log, e.call.id, e.call.operation) && forall key :: !Commits(e, key)
    requires match p'
             case Returning(call, outcome) => Entry(call, outcome) == e
             case Checking(call, snapshot, version) =>
               && Entry(call, LimitExceeded(snapshot)) == e && Owns(s, t, call)
               && Exceeds(snapshot, call.operation.transaction)
               && s.rows[call.id - 1] == Row(snapshot, version)
             case _ => false
    requires InLoop(s.threads[t]) ==> InLoop(p')
    ensures Inv(TakeRead(s, t))
  {
    hide RowsMatch, Numbered, Sequential, ThreadsConsistent, AnswersSettled, FlightsOk, MutexesHeld, RetriesCharged;
    hide Interferes, Apply, Exceeds, Expected, Commits, Effective, Unused, ShapeOk, Consistent, TakeRead;
    var s' := TakeRead(s, t);
    LogAnswer(s, s', e);
    SettledByEntry(s, s', t, p', e);
    MoveKeepsMutexes(s, s', t, p');
    RetriesFrame(s, s', t, p');
    LoggedKeeps(s, s', t, p', e);
  }

  lemma FetchKeeps(s: State, t: Thread)
    requires Inv(s) && Enabled(s, Read(t, true)) && s.threads[t].Fetching?
    ensures Inv(TakeRead(s, t))
  {
    hide RowsMatch, Numbered, Sequential, ThreadsConsistent, AnswersSettled, FlightsOk, MutexesHeld, RetriesCharged;
    hide Apply, Exceeds, History, Unused;
    Standing(s, t);
    var call := s.threads[t].call;
    RowIsReplay(s, call.id - 1);
    ReadShape(s, t);
    var outcome := Success(s.rows[call.id - 1].customer);
    LoggedReadKeeps(s, t, Returning(call, outcome), Entry(call, outcome));
  }

  lemma OverLimitReadKeeps(s: State, t: Thread)
    requires Inv(s) && Enabled(s, Read(t, true)) && s.threads[t].Reading? && TakeRead(s, t).log != s.log
    ensures Inv(TakeRead(s, t))
  {
    hide RowsMatch, Numbered, Sequential, ThreadsConsistent, AnswersSettled, FlightsOk, MutexesHeld, RetriesCharged;
    hide Apply, Exceeds, History, Unused;
    Standing(s, t);
    var call := s.threads[t].call;
    RowIsReplay(s, call.id - 1);
    ReadShape(s, t);
    var row := s.rows[call.id - 1];
    LoggedReadKeeps(s, t, Checking(call, row.customer, row.version), Entry(call, LimitExceeded(row.customer)));
  }

  lemma PlainReadKeeps(s: State, t: Thread)
    requires Inv(s) && Enabled(s, Read(t, true)) && s.threads[t].Reading? && TakeRead(s, t).log == s.log
    ensures Inv(TakeRead(s, t))
  {
    hide RowsMatch, Numbered, Sequential, ThreadsConsistent, AnswersSettled, FlightsOk, MutexesHeld, RetriesCharged;
    hide Apply, Unused;
    var s' := TakeRead(s, t);
    Standing(s, t);
    ReadShape(s, t);
    var row := s.rows[s.threads[t].call.id - 1];
    PlainMoveKeeps(s, s', t, Checking(s.threads[t].call, row.customer, row.version));
  }

  lemma PlainMoveKeeps(s: State, s': State, t: Thread, p': Position)
    requires Inv(s) && ShapeOk(s') && Active(s, t) && s' == s.(threads := s.threads[t := p']) && InLoop(p')
    requires PositionShape(t, p') && p'.Checking? && p'.call == s.threads[t].call && Consistent(s', t, p')
    requires p'.version == s.rows[p'.call.id - 1].version
    ensures Inv(s')
  {
    hide RowsMatch, Numbered, Sequential, ThreadsConsistent, AnswersSettled, FlightsOk, MutexesHeld, RetriesCharged, Consistent;
    MoveKeepsMutexes(s, s', t, p');
    RetriesFrame(s, s', t, p');
    QuietKeeps(s, s', t, p');
  }

  /** A failed read sends a transaction round its loop and gives a statement up. */
  lemma FailedReadKeeps(s: State, t: Thread)
    requires Inv(s) && Enabled(s, Read(t, false))
    ensures Inv(TakeFailedRead(s, t))
  {
    hide RowsMatch, Numbered, Sequential, ThreadsConsistent, AnswersSettled, FlightsOk, MutexesHeld, RetriesCharged, Interferes;
    var s' := TakeFailedRead(s, t);
    var p := s.threads[t];
    if p.Fetching? {
      Standing(s, t);
      assert ShapeOk(s');
      QuietInterferes(s, s', t, Working(s, t));
      MoveKeepsFlights(s, s', t);
      MoveKeepsMutexes(s, s', t, s'.threads[t]);
      RetriesFrame(s, s', t, s'.threads[t]);
      FaultKeeps(s, s', t, s'.threads[t], ReadFailed);
    }
  }

  // ----- The conditional write -----

  /** An error code settles the call without a commit. */
  lemma RejectedWriteKeeps(s: State, t: Thread)
    requires Inv(s) && Enabled(s, Write(t, Rejected))
    ensures Inv(TakeFailedWrite(s, t, Rejected))
  {
    hide RowsMatch, Numbered, Sequential, ThreadsConsistent, AnswersSettled, FlightsOk, MutexesHeld, RetriesCharged;
    hide Interferes, Apply, Exceeds;
    var s' := TakeFailedWrite(s, t, Rejected);
    Standing(s, t);
    assert ShapeOk(s');
    QuietInterferes(s, s', t, Working(s, t));
    MoveKeepsFlights(s, s', t);
    MoveKeepsMutexes(s, s', t, s'.threads[t]);
    RetriesFrame(s, s', t, s'.threads[t]);
    FaultKeeps(s, s', t, s'.threads[t], WriteRejected);
  }

  /** A request that never went out changes nothing, and its thread starts again. */
  lemma UnsentWriteKeeps(s: State, t: Thread)
    requires Inv(s) && Enabled(s, Write(t, Unsent))
    ensures Inv(TakeFailedWrite(s, t, Unsent))
  {
    hide RowsMatch, Numbered, Sequential, ThreadsConsistent, AnswersSettled, FlightsOk, MutexesHeld, RetriesCharged;
    hide Interferes, Apply, Exceeds;
    var s' := TakeFailedWrite(s, t, Unsent);
    Standing(s, t);
    assert ShapeOk(s');
    MoveKeepsMutexes(s, s', t, s'.threads[t]);
    RetriesFrame(s, s', t, s'.threads[t]);
    QuietKeeps(s, s', t, s'.threads[t]);
  }

  /** The request of a lost reply stays in flight with what its thread computed. */
  lemma LostWriteKeeps(s: State, t: Thread)
    requires Inv(s) && Enabled(s, Write(t, Lost))
    ensures Inv(TakeFailedWrite(s, t, Lost))
  {
    hide RowsMatch, Numbered, Sequential, ThreadsConsistent, AnswersSettled, FlightsOk, MutexesHeld, RetriesCharged;
    hide Interferes, Apply, Exceeds;
    var s' := TakeFailedWrite(s, t, Lost);
    Standing(s, t);
    assert ShapeOk(s');
    LostFlights(s, t);
    MoveKeepsMutexes(s, s', t, s'.threads[t]);
    RetriesFrame(s, s', t, s'.threads[t]);
    FaultKeeps(s, s', t, s'.threads[t], ReplyLost);
  }

  lemma LostFlights(s: State, t: Thread)
    requires Inv(s) && Enabled(s, Write(t, Lost)) && ShapeOk(TakeFailedWrite(s, t, Lost))
    ensures FlightsOk(TakeFailedWrite(s, t, Lost))
  {
    hide RowsMatch, Numbered, Sequential, ThreadsConsistent, AnswersSettled, FlightsOk, MutexesHeld, RetriesCharged, Interferes;
    hide Apply, Exceeds;
    var s' := TakeFailedWrite(s, t, Lost);
    var p := s.threads[t];
    Standing(s, t);
    QuietInterferes(s, s', t, p.call.number);
    assert FlightOk(s', p.call.number, s'.inFlight[p.call.number]);
    OthersInFlight(s, s', t, p.call.number);
  }

  lemma RefusedLag(s: State, t: Thread, process: nat, key: int)
    requires Inv(s) && Enabled(s, Write(t, Counted)) && 0 <= key < CUSTOMERS
    requires s.rows[s.threads[t].call.id - 1].version != s.threads[t].version
    ensures Overtaken(TakeWrite(s, t), process, key)
         <= Overtaken(s, process, key) - (if (process, key) == Mutex(s.threads[t].call) then 1 else 0)
  {
    hide RowsMatch, Numbered, Sequential, ThreadsConsistent, AnswersSettled, FlightsOk, RetriesCharged;
    hide Apply, Exceeds, Pending;
    var s' := TakeWrite(s, t);
    Standing(s, t);
    NotHolding(s, t);
    if (process, key) != Mutex(s.threads[t].call) {
      SameLag(s, s', t, s'.threads[t], process, key);
    }
  }

  /** A refused write is charged to one of the commits that overtook the snapshot. */
  lemma RefusedWriteCharged(s: State, t: Thread)
    requires Inv(s) && Enabled(s, Write(t, Counted))
    requires s.rows[s.threads[t].call.id - 1].version != s.threads[t].version
    ensures RetriesCharged(TakeWrite(s, t))
  {
    hide RowsMatch, Numbered, Sequential, ThreadsConsistent, AnswersSettled, FlightsOk, MutexesHeld, Overtaken;
    var s' := TakeWrite(s, t);
    forall process: nat, key | 0 <= key < CUSTOMERS ensures ChargedAt(s', process, key) {
      assert ChargedAt(s, process, key);
      RefusedLag(s, t, process, key);
    }
  }

  lemma RefusedWriteKeeps(s: State, t: Thread)
    requires Inv(s) && Enabled(s, Write(t, Counted))
    requires s.rows[s.threads[t].call.id - 1].version != s.threads[t].version
    ensures Inv(TakeWrite(s, t))
  {
    hide RowsMatch, Numbered, Sequential, ThreadsConsistent, AnswersSettled, FlightsOk, MutexesHeld, RetriesCharged;
    hide Interferes, Apply, Exceeds;
    var s' := TakeWrite(s, t);
    Standing(s, t);
    assert ShapeOk(s');
    MoveKeepsMutexes(s, s', t, s'.threads[t]);
    RefusedWriteCharged(s, t);
    QuietKeeps(s, s', t, s'.threads[t]);
  }

  /** A commit stores the ledger's answer to its transaction, one version later. */
  lemma CommitRows(s: State, s': State, e: Entry)
    requires Inv(s) && ShapeOk(s') && Known(e.call.id) && Commits(e, e.call.id - 1)
    requires var row := s.rows[e.call.id - 1];
             && !Exceeds(row.customer, e.call.operation.transaction)
             && e.outcome == Success(Apply(row.customer, e.call.operation.transaction))
             && s'.rows == s.rows[e.call.id - 1 := Row(e.outcome.customer, row.version + 1)]
    requires s'.log == s.log + [e]
    ensures RowsMatch(s') && Sequential(s'.log)
  {
    hide ThreadsConsistent, AnswersSettled, FlightsOk, MutexesHeld, RetriesCharged, Sequential, Numbered, RowsMatch;
    hide Apply, Exceeds, History;
    RowIsReplay(s, e.call.id - 1);
    SequentialAppend(s.log, e);
    forall k | 0 <= k < CUSTOMERS
      ensures s'.rows[k] == Row(Replay(s'.log, k), INITIAL_VERSION + |History(s'.log, k)|)
    {
      RowIsReplay(s, k);
      if Commits(e, k) {
        CommitExtends(s.log, e, k);
      } else {
        LogAppend(s.log, e, k);
        assert History(s.log, k) + [] == History(s.log, k);
      }
    }
    AllRows(s');
  }

  lemma AllRows(s: State)
    requires |s.rows| == CUSTOMERS
    requires forall k :: 0 <= k < CUSTOMERS ==>
               s.rows[k] == Row(Replay(s.log, k), INITIAL_VERSION + |History(s.log, k)|)
    ensures RowsMatch(s)
  {
  }

  lemma LoggedNumbered(s: State, s': State, e: Entry)
    requires Numbered(s) && s'.log == s.log + [e] && s.calls <= s'.calls && s'.faults == s.faults
    requires e.call.number < s'.calls && e.call.begin <= |s.log| && Unused(s.log, e.call.number)
    ensures Numbered(s')
  {
  }

  lemma CommitConsistent(s: State, t: Thread)
    requires Inv(s) && Enabled(s, Write(t, Counted))
    requires s.rows[s.threads[t].call.id - 1].version == s.threads[t].version
    ensures var s' := TakeWrite(s, t); ShapeOk(s') && Consistent(s', t, s'.threads[t])
  {
    hide RowsMatch, Numbered, Sequential, ThreadsConsistent, AnswersSettled, FlightsOk, MutexesHeld, RetriesCharged, Apply, Exceeds;
    var s' := TakeWrite(s, t);
    var p := s.threads[t];
    Standing(s, t);
    assert ShapeOk(s');
    assert s'.log[|s.log|] == Entry(p.call, Success(p.updated)) && s'.log[..|s'.log|] == s'.log;
    assert Effective(s'.log, p.call, Success(p.updated));
  }

  /** A commit makes at most one more foreign snapshot of the same row stale. */
  lemma CommitLag(s: State, t: Thread, process: nat, key: int)
    requires Inv(s) && Enabled(s, Write(t, Counted)) && 0 <= key < CUSTOMERS
    requires s.rows[s.threads[t].call.id - 1].version == s.threads[t].version
    ensures var call := s.threads[t].call;
            if (process, key) == Mutex(call) then Overtaken(TakeWrite(s, t), process, key) == 0 <= Overtaken(s, process, key)
            else Overtaken(TakeWrite(s, t), process, key) <= Overtaken(s, process, key) + (if key == call.id - 1 then 1 else 0)
  {
    hide RowsMatch, Numbered, Sequential, ThreadsConsistent, AnswersSettled, FlightsOk, RetriesCharged;
    hide Apply, Exceeds, Pending;
    Standing(s, t);
    NotHolding(s, t);
    LagNotNegative(s, process, key);
  }

  lemma CommitCharged(s: State, t: Thread)
    requires Inv(s) && Enabled(s, Write(t, Counted))
    requires s.rows[s.threads[t].call.id - 1].version == s.threads[t].version
    ensures RetriesCharged(TakeWrite(s, t))
  {
    hide RowsMatch, Numbered, Sequential, ThreadsConsistent, AnswersSettled, FlightsOk, MutexesHeld, Overtaken, Consistent;
    hide ForeignCommits;
    var s' := TakeWrite(s, t);
    var p := s.threads[t];
    Standing(s, t);
    forall process: nat, key | 0 <= key < CUSTOMERS ensures ChargedAt(s', process, key) {
      assert ChargedAt(s, process, key);
      CommitLag(s, t, process, key);
      ForeignAppend(s.log, Entry(p.call, Success(p.updated)), process, key);
    }
  }

  lemma CommittedWriteKeeps(s: State, t: Thread)
    requires Inv(s) && Enabled(s, Write(t, Counted))
    requires s.rows[s.threads[t].call.id - 1].version == s.threads[t].version
    ensures Inv(TakeWrite(s, t))
  {
    hide RowsMatch, Numbered, Sequential, ThreadsConsistent, AnswersSettled, FlightsOk, MutexesHeld, RetriesCharged;
    hide Interferes, Apply, Exceeds;
    var s' := TakeWrite(s, t);
    var p := s.threads[t];
    Standing(s, t);
    var e := Entry(p.call, Success(p.updated));
    CommitConsistent(s, t);
    CommitRows(s, s', e);
    LoggedNumbered(s, s', e);
    MoveKeepsMutexes(s, s', t, s'.threads[t]);
    CommitCharged(s, t);
    LoggedKeeps(s, s', t, s'.threads[t], e);
  }

  // ----- Requests carried out after their reply was lost -----

  /** What landing does for the standing of the one call it settles or abandons. */
  ghost predicate Kept(s: State, s': State, n: nat)
    requires ShapeOk(s) && |s.log| <= |s'.log|
  {
    forall call: Call, outcome: Outcome, end: nat ::
      call.number == n && end <= |s.log| && Settled(s, call, outcome, end) ==>
        Settled(s', call, outcome, end) && Settled(s', call, outcome, |s'.log|)
  }

  lemma LandingThread(s: State, s': State, n: nat, u: Thread, p: Position)
    requires ShapeOk(s) && ShapeOk(s') && |s.log| <= |s'.log| && Kept(s, s', n)
    requires s'.mutexes == s.mutexes && s'.calls == s.calls && s'.faults == s.faults
    requires PositionShape(u, p) && Consistent(s, u, p) && !p.Idle? && p.call.number == n && n in s.faults
    ensures Consistent(s', u, p)
  {
    hide Kept, Settled;
    if p.Unlocking? || p.Returning? {
      KeptOne(s, s', n, p.call, p.outcome);
    }
  }

  lemma KeptOne(s: State, s': State, n: nat, call: Call, outcome: Outcome)
    requires ShapeOk(s) && |s.log| <= |s'.log| && Kept(s, s', n) && call.number == n && Settled(s, call, outcome, |s.log|)
    ensures Settled(s', call, outcome, |s'.log|)
  {
  }

  lemma LandingThreads(s: State, s': State, n: nat)
    requires Inv(s) && ShapeOk(s') && n in s.inFlight && |s.log| <= |s'.log| && Kept(s, s', n)
    requires forall t :: Interferes(s, s', t, n)
    requires s'.mutexes == s.mutexes && s'.calls == s.calls && s'.faults == s.faults && s'.threads == s.threads
    ensures ThreadsConsistent(s')
  {
    hide RowsMatch, Numbered, Sequential, AnswersSettled, MutexesHeld, RetriesCharged, Interferes, Kept, Consistent;
    assert FlightOk(s, n, s.inFlight[n]);
    forall u <- s'.threads ensures Consistent(s', u, s'.threads[u]) {
      var p := s.threads[u];
      assert Consistent(s, u, p);
      if !p.Idle? && p.call.number == n {
        LandingThread(s, s', n, u, p);
      } else {
        assert Interferes(s, s', Thread(u.process, u.index + 1), n);
        OthersConsistent(s, s', Thread(u.process, u.index + 1), n, u, p);
      }
    }
    SameNumbers(s, s');
  }

  lemma SameNumbers(s: State, s': State)
    requires Inv(s) && s'.threads == s.threads
    ensures forall t, u :: t in s'.threads && u in s'.threads && t != u && Active(s', t) && Active(s', u) ==>
              Number(s', t) != Number(s', u)
  {
    hide RowsMatch, Numbered, Sequential, AnswersSettled, FlightsOk, MutexesHeld, RetriesCharged, Consistent;
    forall t, u | t in s'.threads && u in s'.threads && t != u && Active(s', t) && Active(s', u)
      ensures Number(s', t) != Number(s', u)
    {
      assert Active(s, t) && Active(s, u) && Number(s, t) != Number(s, u);
    }
  }

  lemma LandingAnswers(s: State, s': State, n: nat)
    requires Inv(s) && ShapeOk(s') && |s.log| <= |s'.log| && Kept(s, s', n)
    requires Interferes(s, s', Thread(0, 0), n)
    requires s'.calls == s.calls && s'.threads == s.threads && s'.answers == s.answers
    ensures AnswersSettled(s')
  {
    hide RowsMatch, Numbered, Sequential, ThreadsConsistent, FlightsOk, MutexesHeld, RetriesCharged, Interferes, Settled;
    forall a <- s'.answers
      ensures a.end <= |s'.log| && a.call.number < s'.calls && Settled(s', a.call, a.outcome, a.end)
      ensures forall u :: Active(s', u) ==> Number(s', u) != a.call.number
    {
      assert Settled(s, a.call, a.outcome, a.end);
      if a.call.number != n {
        OthersSettled(s, s', Thread(0, 0), n, a.call, a.outcome, a.end);
      }
      assert forall u :: Active(s', u) ==> Active(s, u) && Number(s, u) == Number(s', u);
    }
  }

  lemma RetriesUntouched(s: State, s': State)
    requires |s.rows| == CUSTOMERS && RetriesCharged(s)
    requires s'.rows == s.rows && s'.log == s.log && s'.mutexes == s.mutexes && s'.threads == s.threads
    requires s'.retries == s.retries && s'.landings == s.landings
    ensures RetriesCharged(s')
  {
    forall process: nat, key | 0 <= key < CUSTOMERS ensures ChargedAt(s', process, key) {
      assert ChargedAt(s, process, key);
    }
  }

  lemma MutexesUntouched(s: State, s': State)
    requires MutexesHeld(s) && s'.mutexes == s.mutexes && s'.threads == s.threads
    ensures MutexesHeld(s')
  {
  }

  lemma DroppedKept(s: State, number: nat)
    requires Inv(s) && number in s.inFlight && !Lands(s, number)
    ensures Kept(s, TakeLand(s, number), number)
  {
    hide RowsMatch, Numbered, Sequential, ThreadsConsistent, AnswersSettled, MutexesHeld, RetriesCharged;
    assert FlightOk(s, number, s.inFlight[number]);
  }

  /** A request that finds a newer version changes nothing, and its call never takes effect. */
  lemma DroppedKeeps(s: State, number: nat)
    requires Inv(s) && number in s.inFlight && !Lands(s, number)
    ensures Inv(TakeLand(s, number))
  {
    hide RowsMatch, Numbered, Sequential, ThreadsConsistent, AnswersSettled, FlightsOk, MutexesHeld, RetriesCharged;
    hide Interferes, Kept;
    var s' := TakeLand(s, number);
    assert ShapeOk(s');
    RowsFrame(s, s');
    NumberedFrame(s, s');
    forall t ensures Interferes(s, s', t, number) {
      QuietInterferes(s, s', t, number);
    }
    OthersInFlight(s, s', Thread(0, 0), number);
    DroppedKept(s, number);
    LandingThreads(s, s', number);
    LandingAnswers(s, s', number);
    MutexesUntouched(s, s');
    RetriesUntouched(s, s');
  }

  /** The call in flight is settled by its entry, at whatever position of its thread. */
  lemma LandedSettled(s: State, number: nat, call: Call, outcome: Outcome, end: nat)
    requires Inv(s) && number in s.inFlight && Lands(s, number)
    requires call.number == number && end <= |s.log| && Settled(s, call, outcome, end)
    ensures var s' := TakeLand(s, number);
            Settled(s', call, outcome, end) && Settled(s', call, outcome, |s'.log|)
  {
    hide RowsMatch, Numbered, Sequential, ThreadsConsistent, AnswersSettled, MutexesHeld, RetriesCharged;
    var s' := TakeLand(s, number);
    assert FlightOk(s, number, s.inFlight[number]);
    assert s'.log[|s.log|] == Entry(call, outcome);
    assert Effective(s'.log, call, outcome);
  }

  lemma LandedKept(s: State, number: nat)
    requires Inv(s) && number in s.inFlight && Lands(s, number)
    ensures Kept(s, TakeLand(s, number), number)
  {
    hide RowsMatch, Numbered, Sequential, ThreadsConsistent, AnswersSettled, FlightsOk, MutexesHeld, RetriesCharged, Settled;
    var s' := TakeLand(s, number);
    forall call: Call, outcome: Outcome, end: nat | call.number == number && end <= |s.log| && Settled(s, call, outcome, end)
      ensures Settled(s', call, outcome, end) && Settled(s', call, outcome, |s'.log|)
    {
      LandedSettled(s, number, call, outcome, end);
    }
  }

  lemma LandedLag(s: State, number: nat, process: nat, key: int)
    requires Inv(s) && number in s.inFlight && Lands(s, number) && 0 <= key < CUSTOMERS
    ensures Overtaken(TakeLand(s, number), process, key)
         <= Overtaken(s, process, key) + (if key == s.inFlight[number].call.id - 1 then 1 else 0)
  {
    hide RowsMatch, Numbered, Sequential, ThreadsConsistent, AnswersSettled, FlightsOk, MutexesHeld, RetriesCharged;
  }

  /** A late commit makes at most one more snapshot of its row stale, and is counted. */
  lemma LandedCharged(s: State, number: nat)
    requires Inv(s) && number in s.inFlight && Lands(s, number)
    ensures RetriesCharged(TakeLand(s, number))
  {
    hide RowsMatch, Numbered, Sequential, ThreadsConsistent, AnswersSettled, FlightsOk, MutexesHeld, Overtaken, ChargedAt, Lands;
    forall process: nat, key | 0 <= key < CUSTOMERS ensures ChargedAt(TakeLand(s, number), process, key) {
      assert ChargedAt(s, process, key);
      LandedChargedAt(s, number, process, key);
    }
  }

  lemma LandedChargedAt(s: State, number: nat, process: nat, key: int)
    requires Inv(s) && number in s.inFlight && Lands(s, number)
    requires 0 <= key < CUSTOMERS && ChargedAt(s, process, key)
    ensures ChargedAt(TakeLand(s, number), process, key)
  {
    hide RowsMatch, Numbered, Sequential, ThreadsConsistent, AnswersSettled, FlightsOk, MutexesHeld, RetriesCharged;
    hide Overtaken, ForeignCommits, Lands;
    var f := s.inFlight[number];
    LandedLag(s, number, process, key);
    ForeignAppend(s.log, Entry(f.call, Success(f.updated)), process, key);
  }

  lemma Flying(s: State, n: nat)
    requires Inv(s) && n in s.inFlight
    ensures FlightOk(s, n, s.inFlight[n])
  {
  }

  lemma LandedKeeps(s: State, number: nat)
    requires Inv(s) && number in s.inFlight && Lands(s, number)
    ensures Inv(TakeLand(s, number))
  {
    hide RowsMatch, Numbered, Sequential, ThreadsConsistent, AnswersSettled, FlightsOk, MutexesHeld, RetriesCharged;
    hide Interferes, Kept, Apply, Exceeds;
    var s' := TakeLand(s, number);
    var f := s.inFlight[number];
    var e := Entry(f.call, Success(f.updated));
    Flying(s, number);
    assert ShapeOk(s');
    CommitRows(s, s', e);
    LoggedNumbered(s, s', e);
    forall t ensures Interferes(s, s', t, number) {
      LoggedInterferes(s, s', t, number, e);
    }
    OthersInFlight(s, s', Thread(0, 0), number);
    LandedKept(s, number);
    LandingThreads(s, s', number);
    LandingAnswers(s, s', number);
    MutexesUntouched(s, s');
    LandedCharged(s, number);
  }

  lemma WriteKeeps(s: State, t: Thread, reply: Reply)
    requires Inv(s) && Enabled(s, Write(t, reply))
    ensures Inv(Take(s, Write(t, reply)))
  {
    match reply
    case Counted =>
      if s.rows[s.threads[t].call.id - 1].version == s.threads[t].version {
        CommittedWriteKeeps(s, t);
      } else {
        RefusedWriteKeeps(s, t);
      }
    case Rejected => RejectedWriteKeeps(s, t);
    case Lost => LostWriteKeeps(s, t);
    case Unsent => UnsentWriteKeeps(s, t);
  }

  lemma ReadKeeps(s: State, t: Thread, found: bool)
    requires Inv(s) && Enabled(s, Read(t, found))
    ensures Inv(Take(s, Read(t, found)))
  {
    if !found {
      FailedReadKeeps(s, t);
    } else if s.threads[t].Fetching? {
      FetchKeeps(s, t);
    } else if TakeRead(s, t).log == s.log {
      PlainReadKeeps(s, t);
    } else {
      OverLimitReadKeeps(s, t);
    }
  }

  lemma StepKeepsInvariant(s: State, step: Step)
    requires Inv(s) && Enabled(s, step)
    ensures Inv(Take(s, step))
  {
    hide RowsMatch, Numbered, Sequential, ThreadsConsistent, AnswersSettled, FlightsOk, MutexesHeld, RetriesCharged;
    match step
    case Invoke(t, id, operation) =>
      if Known(id) {
        InvokeKnownKeeps(s, t, id, operation);
      } else {
        InvokeUnknownKeeps(s, t, id, operation);
      }
    case Lock(t) => LockKeeps(s, t);
    case Read(t, found) => ReadKeeps(s, t, found);
    case Check(t) => CheckKeeps(s, t);
    case Write(t, reply) => WriteKeeps(s, t, reply);
    case Unlock(t) => UnlockKeeps(s, t);
    case Answer(t) => AnswerKeeps(s, t);
    case Land(number) =>
      if Lands(s, number) {
        LandedKeeps(s, number);
      } else {
        DroppedKeeps(s, number);
      }
  }

  lemma InitialInvariant()
    ensures Inv(Initial())
  {
    var s := Initial();
    forall k | 0 <= k < CUSTOMERS
      ensures s.rows[k] == Row(Replay(s.log, k), INITIAL_VERSION + |History(s.log, k)|)
    {
    }
  }
}
