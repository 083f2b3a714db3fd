/** The invariant every step of the transaction protocol keeps. */
module ProtocolInvariant {
  import opened Ledger
  import opened TransactionProtocol

  /** Every stored row is the initial row folded over the commits in the log, its version counting them. */
  ghost predicate RowsMatch(s: State)
    requires |s.rows| == CUSTOMERS
  {
    forall k :: 0 <= k < CUSTOMERS ==>
      s.rows[k] == Row(Replay(s.log, k), INITIAL_VERSION + |History(s.log, k)|)
  }

  ghost predicate Numbered(s: State) {
    && (forall i :: 0 <= i < |s.log| ==> s.log[i].call.number < s.calls && s.log[i].call.begin <= i)
    && (forall i, j :: 0 <= i < j < |s.log| ==> s.log[i].call.number != s.log[j].call.number)
    && (forall n <- s.faults :: n < s.calls)
  }

  /**
   * A finished call took effect exactly once, before `end`, unless it met a fault.  A failed read and
   * a rejected write have no effect; a write whose reply was lost may have had its effect, or may be
   * in flight and have it later.
   */
  ghost predicate Settled(s: State, call: Call, outcome: Outcome, end: nat)
    requires end <= |s.log|
  {
    if call.number !in s.faults then Effective(s.log[..end], call, outcome)
    else match s.faults[call.number]
      case ReadFailed => call.operation.Get? && outcome == NotFound && Unused(s.log, call.number)
      case WriteRejected => call.operation.Execute? && outcome.Success? && Unused(s.log, call.number)
      case ReplyLost => call.operation.Execute? && outcome.Success? && InDoubt(s, call, outcome)
  }

  ghost predicate InDoubt(s: State, call: Call, outcome: Outcome)
    requires outcome.Success?
  {
    if call.number in s.inFlight then
      s.inFlight[call.number].call == call && s.inFlight[call.number].updated == outcome.customer
    else Unused(s.log, call.number) || Effective(s.log, call, outcome)
  }

  ghost predicate Pending(s: State, call: Call) {
    call.begin <= |s.log| && Unused(s.log, call.number) && call.number !in s.faults
  }

  /** What is true of a request in flight until it is carried out. */
  ghost predicate FlightOk(s: State, number: nat, f: Flight)
    requires ShapeOk(s) && FlightShape(f)
  {
    var row := s.rows[f.call.id - 1];
    && f.call.number == number < s.calls
    && number in s.faults && s.faults[number].ReplyLost?
    && f.call.begin <= |s.log| && Unused(s.log, number)
    && f.version <= row.version
    && (f.version == row.version ==>
          !Exceeds(row.customer, f.call.operation.transaction) && f.updated == Apply(row.customer, f.call.operation.transaction))
  }

  ghost predicate FlightsOk(s: State)
    requires ShapeOk(s)
  {
    forall n <- s.inFlight :: FlightOk(s, n, s.inFlight[n])
  }

  predicate Owns(s: State, t: Thread, call: Call) {
    Mutex(call) in s.mutexes && s.mutexes[Mutex(call)] == t
  }

  /** What is true of a thread at each position, whatever the other threads do. */
  ghost predicate Consistent(s: State, t: Thread, p: Position)
    requires ShapeOk(s) && PositionShape(t, p)
  {
    p.Idle? ||
    (p.call.number < s.calls &&
     match p
     case Locking(call) => Pending(s, call)
     case Reading(call) => Pending(s, call) && Owns(s, t, call)
     case Fetching(call) => Pending(s, call)
     case Checking(call, snapshot, version) =>
       var row := s.rows[call.id - 1];
       && Owns(s, t, call)
       && version <= row.version
       && (version == row.version ==> snapshot == row.customer)
       && (if Exceeds(snapshot, call.operation.transaction)
           then Settled(s, call, LimitExceeded(snapshot), |s.log|) && call.number !in s.faults
           else Pending(s, call))
     case Writing(call, updated, version) =>
       var row := s.rows[call.id - 1];
       && Owns(s, t, call)
       && Pending(s, call)
       && version <= row.version
       && (version == row.version ==>
             && !Exceeds(row.customer, call.operation.transaction)
             && updated == Apply(row.customer, call.operation.transaction))
     case Unlocking(call, outcome) => Owns(s, t, call) && Settled(s, call, outcome, |s.log|)
     case Returning(call, outcome) => Settled(s, call, outcome, |s.log|))
  }

  ghost predicate ThreadsConsistent(s: State)
    requires ShapeOk(s)
  {
    && (forall t <- s.threads :: Consistent(s, t, s.threads[t]))
    && (forall t, u :: t in s.threads && u in s.threads && t != u && Active(s, t) && Active(s, u) ==>
          Number(s, t) != Number(s, u))
  }

  predicate Active(s: State, t: Thread) {
    t in s.threads && !s.threads[t].Idle?
  }

  function Number(s: State, t: Thread): nat
    requires Active(s, t)
  {
    s.threads[t].call.number
  }

  ghost predicate AnswersSettled(s: State) {
    forall a <- s.answers ::
      && a.end <= |s.log|
      && a.call.number < s.calls
      && Settled(s, a.call, a.outcome, a.end)
      && (forall t :: Active(s, t) ==> Number(s, t) != a.call.number)
  }

  predicate InLoop(p: Position) {
    p.Reading? || p.Checking? || p.Writing? || p.Unlocking?
  }

  ghost predicate MutexesHeld(s: State) {
    forall m <- s.mutexes ::
      var p := At(s, s.mutexes[m]);
      InLoop(p) && Mutex(p.call) == m && p.call.thread == s.mutexes[m]
  }

  /** Commits that landed since the mutex holder's current snapshot: its next write is lost to them. */
  function Overtaken(s: State, process: nat, key: int): int
    requires |s.rows| == CUSTOMERS && 0 <= key < CUSTOMERS
  {
    if (process, key) !in s.mutexes then 0
    else
      var p := At(s, s.mutexes[(process, key)]);
      if p.Checking? || p.Writing? then s.rows[key].version - p.version else 0
  }

  /** Refused writes, with the one an overtaken snapshot is about to meet, are paid for by commits. */
  ghost predicate ChargedAt(s: State, process: nat, key: int)
    requires |s.rows| == CUSTOMERS && 0 <= key < CUSTOMERS
  {
    Retries(s, process, key) + Overtaken(s, process, key)
      <= ForeignCommits(s.log, process, key) + Landings(s, process, key)
  }

  ghost predicate RetriesCharged(s: State)
    requires |s.rows| == CUSTOMERS
  {
    forall process: nat, key :: 0 <= key < CUSTOMERS ==> ChargedAt(s, process, key)
  }

  ghost predicate Inv(s: State) {
    && ShapeOk(s)
    && RowsMatch(s)
    && Numbered(s)
    && Sequential(s.log)
    && ThreadsConsistent(s)
    && AnswersSettled(s)
    && FlightsOk(s)
    && MutexesHeld(s)
    && RetriesCharged(s)
  }

  // ----- Lemmas about the log -----

  lemma LogAppend(log: seq<Entry>, e: Entry, key: int)
    ensures History(log + [e], key)
         == History(log, key) + (if Commits(e, key) then [e.call.operation.transaction] else [])
  {
    assert (log + [e])[..|log + [e]| - 1] == log;
  }

  lemma ForeignAppend(log: seq<Entry>, e: Entry, process: nat, key: int)
    ensures ForeignCommits(log + [e], process, key)
         == ForeignCommits(log, process, key)
            + (if Commits(e, key) && e.call.thread.process != process then 1 else 0)
  {
    assert (log + [e])[..|log + [e]| - 1] == log;
  }

  lemma CommitExtends(log: seq<Entry>, e: Entry, key: int)
    requires 0 <= key < CUSTOMERS && Commits(e, key)
    ensures History(log + [e], key) == History(log, key) + [e.call.operation.transaction]
    ensures Replay(log + [e], key) == Apply(Replay(log, key), e.call.operation.transaction)
  {
    LogAppend(log, e, key);
    var h := History(log, key);
    assert (h + [e.call.operation.transaction])[..|h|] == h;
  }

  lemma SequentialAppend(log: seq<Entry>, e: Entry)
    requires Sequential(log) && e.outcome == Expected(log, e.call.id, e.call.operation)
    ensures Sequential(log + [e])
  {
    var longer := log + [e];
    forall i | 0 <= i < |longer|
      ensures longer[i].outcome == Expected(longer[..i], longer[i].call.id, longer[i].call.operation)
    {
      if i < |log| {
        assert longer[..i] == log[..i] && longer[i] == log[i];
      } else {
        assert longer[..i] == log;
      }
    }
  }

  // ----- A step of one thread does not disturb the others -----

  /** What a step for call number `n` may do to the shared state; only thread `t` may lose a mutex. */
  ghost predicate Interferes(s: State, s': State, t: Thread, n: nat)
    requires ShapeOk(s) && ShapeOk(s')
  {
    && (s'.log == s.log || exists e :: s'.log == s.log + [e] && e.call.number == n)
    && s.calls <= s'.calls
    && (forall m: nat :: m != n ==> (m in s'.faults <==> m in s.faults) && (m in s.faults ==> s'.faults[m] == s.faults[m]))
    && (forall m: nat :: m != n ==> (m in s'.inFlight <==> m in s.inFlight) && (m in s.inFlight ==> s'.inFlight[m] == s.inFlight[m]))
    && (forall k :: 0 <= k < CUSTOMERS ==> s'.rows[k] == s.rows[k] || s.rows[k].version < s'.rows[k].version)
    && (forall m <- s.mutexes :: s.mutexes[m] != t ==> m in s'.mutexes && s'.mutexes[m] == s.mutexes[m])
  }

  lemma EffectiveGrows(log: seq<Entry>, log': seq<Entry>, call: Call, outcome: Outcome)
    requires log <= log' && Effective(log, call, outcome)
    ensures Effective(log', call, outcome)
  {
    var i :| call.begin <= i < |log| && log[i] == Entry(call, outcome);
    assert log'[i] == log[i];
  }

  lemma OthersSettled(s: State, s': State, t: Thread, n: nat, call: Call, outcome: Outcome, end: nat)
    requires ShapeOk(s) && ShapeOk(s') && Interferes(s, s', t, n)
    requires call.number != n && end <= |s.log| && Settled(s, call, outcome, end)
    ensures Settled(s', call, outcome, end)
  {
    if call.number !in s.faults {
      assert s'.log[..end] == s.log[..end];
    } else if s.faults[call.number].ReplyLost? && Effective(s.log, call, outcome) {
      EffectiveGrows(s.log, s'.log, call, outcome);
    }
  }

  lemma OthersPending(s: State, s': State, t: Thread, n: nat, call: Call)
    requires ShapeOk(s) && ShapeOk(s') && Interferes(s, s', t, n)
    requires call.number != n && Pending(s, call)
    ensures Pending(s', call)
  {
  }

  lemma OthersConsistent(s: State, s': State, t: Thread, n: nat, u: Thread, p: Position)
    requires ShapeOk(s) && ShapeOk(s') && Interferes(s, s', t, n)
    requires u != t && PositionShape(u, p) && (p.Idle? || p.call.number != n) && Consistent(s, u, p)
    ensures Consistent(s', u, p)
  {
    if !p.Idle? {
      SettledLater(s, s', t, n, p);
      if Pending(s, p.call) {
        OthersPending(s, s', t, n, p.call);
      }
    }
  }

  lemma OthersInFlight(s: State, s': State, t: Thread, n: nat)
    requires ShapeOk(s) && ShapeOk(s') && Interferes(s, s', t, n) && FlightsOk(s)
    requires n in s'.inFlight ==> FlightOk(s', n, s'.inFlight[n])
    ensures FlightsOk(s')
  {
    forall m <- s'.inFlight ensures FlightOk(s', m, s'.inFlight[m]) {
      if m != n {
        assert FlightOk(s, m, s.inFlight[m]);
      }
    }
  }

  lemma SettledLater(s: State, s': State, t: Thread, n: nat, p: Position)
    requires ShapeOk(s) && ShapeOk(s') && Interferes(s, s', t, n)
    requires !p.Idle? && p.call.number != n
    ensures forall outcome :: Settled(s, p.call, outcome, |s.log|) ==> Settled(s', p.call, outcome, |s'.log|)
  {
    forall outcome | Settled(s, p.call, outcome, |s.log|)
      ensures Settled(s', p.call, outcome, |s'.log|)
    {
      OthersSettled(s, s', t, n, p.call, outcome, |s.log|);
      if p.call.number !in s'.faults {
        assert s'.log[..|s'.log|] == s'.log;
        EffectiveGrows(s'.log[..|s.log|], s'.log, p.call, outcome);
      }
    }
  }
}
