/** What a client of the running protocol reads in a statement. */
module ServedStatements {
  import opened Ledger
  import opened ProtocolTheorems
  import opened Statement
  import opened StatementReading
  import opened TransactionProtocol

  /**
   * In every interleaving, the statement answered at step `i` shows the state after some prefix of
   * the commit log: a prefix that ends between the request and its answer.  Balance and limit are
   * those of the whole prefix, and the list holds its last ten transactions, newest first; a JSON
   * reader gets exactly them back when, and only when, no text needs an escape.
   */
  lemma StatementShowsCommits(trace: seq<State>, steps: seq<Step>, i: nat, date: string) returns (j: nat, l: nat)
    requires Execution(trace, steps) && i < |steps| && steps[i].Answer?
    requires steps[i].thread in trace[i].threads && trace[i].threads[steps[i].thread].Returning?
    requires var p := trace[i].threads[steps[i].thread]; p.call.operation.Get? && p.outcome.Success?
    ensures var p := trace[i].threads[steps[i].thread];
            var c := p.outcome.customer;
            && j < i && InvokedAt(trace, steps, j, p.call) && |trace[j].log| <= l < |trace[i].log|
            && Known(p.call.id)
            && var limit, h := INITIAL_LIMITS[p.call.id - 1], History(trace[i].log[..l], p.call.id - 1);
            && c == Fold(Opened(limit), h)
            && (ReadStatement(StatementText(c.balance, c.limit, date, Shown(c))) == View(Total(h), limit, date, Latest(h))
                <==> AllPlain(date, Latest(h)))
  {
    hide ReadStatement, StatementText, Shown, Latest, AllPlain, Fold, Opened, History;
    var p := trace[i].threads[steps[i].thread];
    j := Linearizability(trace, steps, i);
    var log := trace[|steps|].log;
    forall fault ensures !Meets(trace, steps, p.call.number, fault) {
      match fault
      case ReadFailed =>
      case WriteRejected =>
      case ReplyLost =>
    }
    l :| |trace[j].log| <= l < |trace[i].log| && TakesEffectAt(log, l, p.call, p.outcome) && OnlyEntry(log, l);
    LogGrows(trace, steps, i, |steps|);
    assert log[..l] == trace[i].log[..l];
    assert log[l].outcome == Expected(log[..l], log[l].call.id, log[l].call.operation);
    StatementRoundTrip(INITIAL_LIMITS[p.call.id - 1], History(log[..l], p.call.id - 1), date);
  }
}
