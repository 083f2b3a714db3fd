/** What each step of the transaction protocol changes, field by field. */
module ProtocolChanges {
  import opened Ledger
  import opened TransactionProtocol

  ghost predicate Follows(s: State, step: Step, s': State) {
    ShapeOk(s) && Enabled(s, step) && s' == Take(s, step)
  }

  /** Only thread `t` moves; it stays with its call, or becomes idle. */
  ghost predicate OnlyMoves(s: State, s': State, t: Thread) {
    && t in s'.threads
    && (forall u: Thread :: u != t ==> (u in s'.threads <==> u in s.threads) && (u in s.threads ==> s'.threads[u] == s.threads[u]))
  }

  predicate SameCall(s: State, s': State, t: Thread) {
    && t in s.threads && !s.threads[t].Idle? && t in s'.threads && !s'.threads[t].Idle?
    && s'.threads[t].call == s.threads[t].call
  }

  predicate SameBooks(s: State, s': State) {
    && s'.log == s.log && s'.calls == s.calls && s'.faults == s.faults && s'.inFlight == s.inFlight
    && s'.retries == s.retries && s'.landings == s.landings
  }

  predicate MayLog(s: State, s': State, call: Call) {
    s.log <= s'.log && |s'.log| <= |s.log| + 1 && (|s'.log| > |s.log| ==> s'.log[|s.log|].call == call)
  }

  predicate SameFlights(s: State, s': State) {
    s'.inFlight == s.inFlight && s'.landings == s.landings
  }

  ghost predicate InvokeChange(s: State, s': State, t: Thread, id: int, operation: Operation) {
    var call := Call(s.calls, |s.log|, t, id, operation);
    && OnlyMoves(s, s', t) && !s'.threads[t].Idle? && s'.threads[t].call == call && MayLog(s, s', call)
    && s'.calls == s.calls + 1 && s'.faults == s.faults && SameFlights(s, s')
    && s'.retries == s.retries && s'.answers == s.answers
  }

  ghost predicate ReadChange(s: State, s': State, t: Thread, found: bool)
    requires t in s.threads && (s.threads[t].Reading? || s.threads[t].Fetching?)
  {
    var call := s.threads[t].call;
    && OnlyMoves(s, s', t) && SameCall(s, s', t) && MayLog(s, s', call) && (!found ==> s'.log == s.log)
    && s'.calls == s.calls && SameFlights(s, s')
    && s'.faults == (if !found && s.threads[t].Fetching? then s.faults[call.number := ReadFailed] else s.faults)
    && s'.retries == s.retries && s'.answers == s.answers
  }

  predicate Refused(s: State, p: Position)
    requires ShapeOk(s) && p.Writing? && Known(p.call.id)
  {
    s.rows[p.call.id - 1].version != p.version
  }

  ghost predicate WriteChange(s: State, s': State, t: Thread, reply: Reply)
    requires ShapeOk(s) && t in s.threads && s.threads[t].Writing?
  {
    var p := s.threads[t];
    && OnlyMoves(s, s', t) && SameCall(s, s', t) && MayLog(s, s', p.call) && (!reply.Counted? ==> s'.log == s.log)
    && s'.calls == s.calls && s'.answers == s.answers && s'.landings == s.landings
    && s'.faults == (match reply
                     case Rejected => s.faults[p.call.number := WriteRejected]
                     case Lost => s.faults[p.call.number := ReplyLost]
                     case _ => s.faults)
    && s'.inFlight == (if reply.Lost? then s.inFlight[p.call.number := Flight(p.call, p.updated, p.version)] else s.inFlight)
    && s'.retries == (if reply.Counted? && Refused(s, p)
                      then s.retries[Mutex(p.call) := Retries(s, p.call.thread.process, p.call.id - 1) + 1]
                      else s.retries)
  }

  ghost predicate LandChange(s: State, s': State, number: nat)
    requires ShapeOk(s) && number in s.inFlight
  {
    var f := s.inFlight[number];
    && s'.threads == s.threads && s'.calls == s.calls && s'.faults == s.faults && s'.answers == s.answers
    && s'.retries == s.retries && s'.inFlight == s.inFlight - {number}
    && s'.log == (if Lands(s, number) then s.log + [Entry(f.call, Success(f.updated))] else s.log)
    && s'.landings == (if Lands(s, number)
                       then s.landings[Mutex(f.call) := Landings(s, f.call.thread.process, f.call.id - 1) + 1]
                       else s.landings)
  }

  ghost predicate Changes(s: State, step: Step, s': State)
    requires ShapeOk(s) && Enabled(s, step)
  {
    match step
    case Invoke(t, id, operation) => InvokeChange(s, s', t, id, operation)
    case Lock(t) => OnlyMoves(s, s', t) && SameCall(s, s', t) && SameBooks(s, s') && s'.answers == s.answers
    case Read(t, found) => ReadChange(s, s', t, found)
    case Check(t) => OnlyMoves(s, s', t) && SameCall(s, s', t) && SameBooks(s, s') && s'.answers == s.answers
    case Write(t, reply) => WriteChange(s, s', t, reply)
    case Unlock(t) => OnlyMoves(s, s', t) && SameCall(s, s', t) && SameBooks(s, s') && s'.answers == s.answers
    case Answer(t) =>
      && OnlyMoves(s, s', t) && s'.threads[t].Idle? && SameBooks(s, s')
      && s'.answers == s.answers + [Answered(s.threads[t].call, s.threads[t].outcome, |s.log|)]
    case Land(number) => LandChange(s, s', number)
  }

  lemma MovedThread(s: State, s': State, t: Thread)
    requires t in s'.threads && s'.threads == s.threads[t := s'.threads[t]]
    ensures OnlyMoves(s, s', t)
  {
  }

  lemma InvokeKnownChanges(s: State, t: Thread, id: int, operation: Operation)
    requires ShapeOk(s) && Known(id)
    ensures InvokeChange(s, TakeInvoke(s, t, id, operation), t, id, operation)
  {
    hide ShapeOk, OnlyMoves;
    MovedThread(s, TakeInvoke(s, t, id, operation), t);
  }

  lemma InvokeUnknownChanges(s: State, t: Thread, id: int, operation: Operation)
    requires ShapeOk(s) && !Known(id)
    ensures InvokeChange(s, TakeInvoke(s, t, id, operation), t, id, operation)
  {
    hide ShapeOk, OnlyMoves;
    MovedThread(s, TakeInvoke(s, t, id, operation), t);
  }

  lemma ReadChanges(s: State, t: Thread)
    requires ShapeOk(s) && Enabled(s, Read(t, true))
    ensures ReadChange(s, TakeRead(s, t), t, true)
  {
    hide Apply, Exceeds, OnlyMoves;
    MovedThread(s, TakeRead(s, t), t);
  }

  lemma FailedReadChanges(s: State, t: Thread)
    requires ShapeOk(s) && Enabled(s, Read(t, false))
    ensures ReadChange(s, TakeFailedRead(s, t), t, false)
  {
    hide ShapeOk, OnlyMoves;
    MovedThread(s, TakeFailedRead(s, t), t);
  }

  lemma WriteChanges(s: State, t: Thread)
    requires ShapeOk(s) && Enabled(s, Write(t, Counted))
    ensures WriteChange(s, TakeWrite(s, t), t, Counted)
  {
    hide Apply, Exceeds, OnlyMoves;
    MovedThread(s, TakeWrite(s, t), t);
  }

  lemma FailedWriteChanges(s: State, t: Thread, reply: Reply)
    requires ShapeOk(s) && Enabled(s, Write(t, reply)) && !reply.Counted?
    ensures WriteChange(s, TakeFailedWrite(s, t, reply), t, reply)
  {
    hide Apply, Exceeds, OnlyMoves;
    MovedThread(s, TakeFailedWrite(s, t, reply), t);
  }

  lemma LandChanges(s: State, number: nat)
    requires ShapeOk(s) && number in s.inFlight
    ensures LandChange(s, TakeLand(s, number), number)
  {
    hide Apply, Exceeds;
  }

  lemma ThreadChanges(s: State, step: Step)
    requires ShapeOk(s) && Enabled(s, step) && (step.Lock? || step.Check? || step.Unlock? || step.Answer?)
    ensures Changes(s, step, Take(s, step))
  {
    hide Apply, Exceeds, OnlyMoves, ShapeOk;
    MovedThread(s, Take(s, step), step.thread);
  }

  lemma StepChanges(s: State, step: Step, s': State)
    requires Follows(s, step, s')
    ensures Changes(s, step, s')
  {
    hide TakeInvoke, TakeRead, TakeFailedRead, TakeCheck, TakeWrite, TakeFailedWrite, TakeLand, ShapeOk;
    hide InvokeChange, ReadChange, WriteChange, LandChange, OnlyMoves, SameCall, SameBooks;
    match step
    case Invoke(t, id, operation) =>
      if Known(id) {
        InvokeKnownChanges(s, t, id, operation);
      } else {
        InvokeUnknownChanges(s, t, id, operation);
      }
    case Read(t, found) =>
      if found {
        ReadChanges(s, t);
      } else {
        FailedReadChanges(s, t);
      }
    case Write(t, reply) =>
      if reply.Counted? {
        WriteChanges(s, t);
      } else {
        FailedWriteChanges(s, t, reply);
      }
    case Land(number) => LandChanges(s, number);
    case _ => ThreadChanges(s, step);
  }
}
