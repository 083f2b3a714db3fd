/** One request against the shared table, in the form the server runs it: a loop over read and conditional write. */
module Database {
  import opened Ledger
  import opened TransactionProtocol

  datatype TransactionResult = SUCCESS | LIMIT_EXCEEDED | NOT_FOUND

  /**
   * What the surroundings do to one attempt: whether the row is found, what other processes write
   * between read and write, how the write is answered, and whether a write whose reply is lost is
   * carried out before the request is answered.
   */
  datatype Turn = Turn(found: bool, written: seq<Customer>, reply: Reply, processed: bool)

  /** An attempt nobody disturbs. */
  const CLEAN := Turn(true, [], Counted, true)

  function TurnAt(turns: seq<Turn>, attempt: nat): Turn {
    if attempt < |turns| then turns[attempt] else CLEAN
  }

  /** The row after other processes wrote `written`, each write moving the version on by one. */
  function Overwritten(row: Row, written: seq<Customer>): Row {
    if written == [] then row else Row(written[|written| - 1], row.version + |written|)
  }

  /** The row attempt number `attempt` reads, when every earlier one came to nothing. */
  function ReadBy(row: Row, turns: seq<Turn>, attempt: nat): Row
    requires attempt <= |turns|
  {
    if attempt == 0 then row
    else
      var before := ReadBy(row, turns, attempt - 1);
      if turns[attempt - 1].found then Overwritten(before, turns[attempt - 1].written) else before
  }

  /** The attempt neither refuses the transaction nor takes its write for done. */
  predicate Fruitless(read: Row, turn: Turn, transaction: Transaction) {
    turn.found ==>
      !Exceeds(read.customer, transaction) && (turn.reply.Unsent? || (turn.reply.Counted? && turn.written != []))
  }

  /** The row an attempt leaves that takes its write for done. */
  function Left(read: Row, turn: Turn, updated: Customer): Row {
    match turn.reply
    case Counted => Row(updated, read.version + 1)
    case Lost => if turn.processed && turn.written == [] then Row(updated, read.version + 1) else Overwritten(read, turn.written)
    case _ => Overwritten(read, turn.written)
  }

  ghost predicate AllWellFormed(turns: seq<Turn>) {
    forall k :: 0 <= k < |turns| ==> WrittenWellFormed(turns[k])
  }

  predicate WrittenWellFormed(turn: Turn) {
    forall i :: 0 <= i < |turn.written| ==> WellFormed(turn.written[i])
  }

  /** The table behind the HandlerSocket server, with its two requests taken as atomic. */
  class Table {
    var rows: seq<Row>

    ghost predicate Valid()
      reads this
    {
      |rows| == CUSTOMERS && forall k :: 0 <= k < CUSTOMERS ==> WellFormed(rows[k].customer)
    }

    constructor ()
      ensures Valid() && rows == Initial().rows
    {
      var initial: seq<Row> := [];
      for k := 0 to CUSTOMERS
        invariant initial == Initial().rows[..k]
      {
        initial := initial + [Row(Opened(INITIAL_LIMITS[k]), INITIAL_VERSION)];
      }
      rows := initial;
    }

    method ReadCustomer(key: nat) returns (customer: Customer, version: int)
      requires Valid() && key < CUSTOMERS
      ensures Row(customer, version) == rows[key]
    {
      customer, version := rows[key].customer, rows[key].version;
    }

    /** Replaces the row only while it still carries `version`; answers whether a row was modified. */
    method WriteCustomer(key: nat, customer: Customer, version: int) returns (modified: bool)
      requires Valid() && key < CUSTOMERS && WellFormed(customer)
      modifies this
      ensures Valid()
      ensures modified == (old(rows)[key].version == version)
      ensures rows == if modified then old(rows)[key := Row(customer, version + 1)] else old(rows)
    {
      modified := rows[key].version == version;
      if modified {
        rows := rows[key := Row(customer, version + 1)];
      }
    }

    /** What other processes do to the row meanwhile. */
    method Overwrite(key: nat, written: seq<Customer>)
      requires Valid() && key < CUSTOMERS && forall i :: 0 <= i < |written| ==> WellFormed(written[i])
      modifies this
      ensures Valid() && rows == old(rows)[key := Overwritten(old(rows)[key], written)]
    {
      rows := rows[key := Overwritten(rows[key], written)];
    }
  }

  /** The write request and the answer the caller makes of its reply: only a count is looked into. */
  method Write(table: Table, key: nat, customer: Customer, version: int, reply: Reply, processed: bool) returns (done: bool)
    requires table.Valid() && key < CUSTOMERS && WellFormed(customer)
    modifies table
    ensures table.Valid()
    ensures var current := old(table.rows)[key].version == version;
            && done == (match reply case Counted => current case Unsent => false case _ => true)
            && table.rows == (if current && (reply.Counted? || (reply.Lost? && processed))
                              then old(table.rows)[key := Row(customer, version + 1)] else old(table.rows))
  {
    match reply
    case Counted => done := table.WriteCustomer(key, customer, version);
    case Rejected => done := true;
    case Lost =>
      if processed {
        var modified := table.WriteCustomer(key, customer, version);
      }
      done := true;
    case Unsent => done := false;
  }

  /** The body of the retry loop: read, limit check, in-place update, conditional write. */
  method Attempt(table: Table, key: nat, transaction: Transaction, customer: CustomerRecord, turn: Turn)
    returns (exceeded: bool, success: bool)
    requires table.Valid() && customer.Valid() && key < CUSTOMERS && WrittenWellFormed(turn)
    modifies table, customer, customer.transactions
    ensures table.Valid() && customer.Valid() && customer.transactions == old(customer.transactions)
    ensures var read := old(table.rows)[key];
            && exceeded == (turn.found && Exceeds(read.customer, transaction))
            && success == !(exceeded || Fruitless(read, turn, transaction))
            && (turn.found ==> customer.Value() == if exceeded then read.customer else Apply(read.customer, transaction))
            && table.rows == old(table.rows)[key :=
                 if success then Left(read, turn, Apply(read.customer, transaction))
                 else if exceeded || !turn.found then read else Overwritten(read, turn.written)]
  {
    if !turn.found {
      return false, false;
    }
    var data, version := table.ReadCustomer(key);
    customer.Assign(data);
    exceeded := customer.balance + transaction.value < -customer.limit;
    if exceeded {
      return true, false;
    }
    customer.Record(transaction);
    table.Overwrite(key, turn.written);
    success := Write(table, key, customer.Value(), version, turn.reply, turn.processed);
  }

  /** All attempts before number `attempt` came to nothing. */
  ghost predicate Overruled(row: Row, turns: seq<Turn>, transaction: Transaction, attempt: nat)
    requires attempt <= |turns|
  {
    forall k :: 0 <= k < attempt ==> Fruitless(ReadBy(row, turns, k), turns[k], transaction)
  }

  /** Attempt number `attempt` is about to read `read`; all earlier ones came to nothing. */
  ghost predicate Facing(before: seq<Row>, rows: seq<Row>, key: nat, turns: seq<Turn>, transaction: Transaction,
                         attempt: nat, read: Row)
    requires key < |before| && attempt <= |turns|
  {
    && Overruled(before[key], turns, transaction, attempt)
    && read == ReadBy(before[key], turns, attempt)
    && WellFormed(read.customer)
    && rows == before[key := read]
  }

  /** Attempt number `attempt` was within the limit and took its write for done. */
  ghost predicate Committed(before: seq<Row>, rows: seq<Row>, key: nat, turns: seq<Turn>,
                            transaction: Transaction, attempt: nat, record: Customer)
    requires key < |before| && attempt <= |turns|
  {
    var read := ReadBy(before[key], turns, attempt);
    && Overruled(before[key], turns, transaction, attempt)
    && WellFormed(read.customer)
    && TurnAt(turns, attempt).found && !Exceeds(read.customer, transaction)
    && !Fruitless(read, TurnAt(turns, attempt), transaction)
    && record == Apply(read.customer, transaction)
    && rows == before[key := Left(read, TurnAt(turns, attempt), record)]
  }

  lemma LimitInFigures(c: Customer, transaction: Transaction)
    ensures Exceeds(c, transaction) <==> c.balance + transaction.value < -c.limit
  {
  }

  lemma CommittedInFigures(before: seq<Row>, rows: seq<Row>, key: nat, turns: seq<Turn>,
                           transaction: Transaction, attempt: nat, record: Customer)
    requires key < |before| && attempt <= |turns|
    requires Committed(before, rows, key, turns, transaction, attempt, record)
    ensures var c := ReadBy(before[key], turns, attempt).customer;
            && c.balance + transaction.value >= -c.limit
            && record.balance == c.balance + transaction.value && record.limit == c.limit
    ensures var read, turn := ReadBy(before[key], turns, attempt), TurnAt(turns, attempt);
            && turn.found && (turn.reply.Rejected? || turn.reply.Lost? || (turn.reply.Counted? && turn.written == []))
            && rows == before[key :=
                 if turn.written != [] then Row(turn.written[|turn.written| - 1], read.version + |turn.written|)
                 else if turn.reply.Counted? || (turn.reply.Lost? && turn.processed) then Row(record, read.version + 1)
                 else read]
  {
    hide Overruled, ReadBy;
  }

  /** What a retry is made for: a failed read, or a write within the limit that did not go out or found a newer version. */
  ghost predicate Retried(row: Row, turns: seq<Turn>, transaction: Transaction, k: nat)
    requires k < |turns|
  {
    || !turns[k].found
    || (&& (turns[k].reply.Unsent? || (turns[k].reply.Counted? && turns[k].written != []))
        && ReadBy(row, turns, k).customer.balance + transaction.value >= -ReadBy(row, turns, k).customer.limit)
  }

  ghost predicate AllRetried(row: Row, turns: seq<Turn>, transaction: Transaction, attempt: nat)
    requires attempt <= |turns|
  {
    forall k :: 0 <= k < attempt ==> Retried(row, turns, transaction, k)
  }

  lemma OverruledInFigures(row: Row, turns: seq<Turn>, transaction: Transaction, attempt: nat)
    requires attempt <= |turns| && Overruled(row, turns, transaction, attempt)
    ensures AllRetried(row, turns, transaction, attempt)
  {
    hide ReadBy;
    forall k | 0 <= k < attempt ensures Retried(row, turns, transaction, k) {
      assert Fruitless(ReadBy(row, turns, k), turns[k], transaction);
    }
  }

  lemma FirstAttempt(before: seq<Row>, key: nat, turns: seq<Turn>, transaction: Transaction)
    requires key < |before| && WellFormed(before[key].customer)
    ensures Facing(before, before, key, turns, transaction, 0, before[key])
  {
  }

  lemma NextAttempt(before: seq<Row>, rows: seq<Row>, key: nat, turns: seq<Turn>, transaction: Transaction,
                    attempt: nat, read: Row)
    requires key < |before| && attempt < |turns| && AllWellFormed(turns)
    requires Facing(before, before[key := read], key, turns, transaction, attempt, read)
    requires Fruitless(read, turns[attempt], transaction)
    requires rows == before[key := read][key :=
               if turns[attempt].found then Overwritten(read, turns[attempt].written) else read]
    ensures Facing(before, rows, key, turns, transaction, attempt + 1, rows[key])
  {
    assert WrittenWellFormed(turns[attempt]);
  }

  /**
   * `turns[k]` is what attempt `k` meets; after the last of them nobody disturbs.  Every retry has a
   * reason in its turn, and the decision and the record rest on the row of the last attempt.
   */
  method ExecuteTransaction(table: Table, id: int, transaction: Transaction, customer: CustomerRecord, turns: seq<Turn>)
    returns (result: TransactionResult, tries: nat)
    requires table.Valid() && customer.Valid() && AllWellFormed(turns)
    modifies table, customer, customer.transactions
    ensures table.Valid() && customer.Valid()
    ensures result == NOT_FOUND <==> id < 1 || id > 5
    ensures result == NOT_FOUND ==> table.rows == old(table.rows) && customer.Value() == old(customer.Value())
    ensures result != NOT_FOUND ==>
              1 <= tries <= |turns| + 1 && AllRetried(old(table.rows)[id - 1], turns, transaction, tries - 1)
    ensures result == LIMIT_EXCEEDED ==>
              var read := ReadBy(old(table.rows)[id - 1], turns, tries - 1);
              && Facing(old(table.rows), table.rows, id - 1, turns, transaction, tries - 1, read)
              && TurnAt(turns, tries - 1).found && read.customer.balance + transaction.value < -read.customer.limit
              && customer.Value() == read.customer
    ensures result == SUCCESS ==>
              var read := ReadBy(old(table.rows)[id - 1], turns, tries - 1);
              && Committed(old(table.rows), table.rows, id - 1, turns, transaction, tries - 1, customer.Value())
              && read.customer.balance + transaction.value >= -read.customer.limit
              && customer.Value().balance == read.customer.balance + transaction.value
              && customer.Value().limit == read.customer.limit
    ensures result == SUCCESS ==>
              var read, turn := ReadBy(old(table.rows)[id - 1], turns, tries - 1), TurnAt(turns, tries - 1);
              && turn.found && (turn.reply.Rejected? || turn.reply.Lost? || (turn.reply.Counted? && turn.written == []))
              && table.rows == old(table.rows)[id - 1 :=
                   if turn.written != [] then Row(turn.written[|turn.written| - 1], read.version + |turn.written|)
                   else if turn.reply.Counted? || (turn.reply.Lost? && turn.processed) then Row(customer.Value(), read.version + 1)
                   else read]
  {
    hide Overruled, ReadBy, Overwritten, WellFormed, Apply, Exceeds, Left, AllRetried;
    tries := 0;
    if id > 5 || id < 1 {
      return NOT_FOUND, tries;
    }
    var key := id - 1;
    ghost var before := table.rows;
    ghost var read := before[key];
    var success := false;
    FirstAttempt(before, key, turns, transaction);
    while !success
      invariant table.Valid() && customer.Valid() && customer.transactions == old(customer.transactions)
      invariant !success ==> tries <= |turns| && Facing(before, table.rows, key, turns, transaction, tries, read)
      invariant success ==>
                  && 1 <= tries <= |turns| + 1
                  && Committed(before, table.rows, key, turns, transaction, tries - 1, customer.Value())
      decreases if success then 0 else |turns| + 2 - tries
    {
      tries := tries + 1;
      var exceeded;
      exceeded, success := Attempt(table, key, transaction, customer, TurnAt(turns, tries - 1));
      if exceeded {
        LimitInFigures(read.customer, transaction);
        OverruledInFigures(before[key], turns, transaction, tries - 1);
        return LIMIT_EXCEEDED, tries;
      }
      if !success {
        NextAttempt(before, table.rows, key, turns, transaction, tries - 1, read);
        read := table.rows[key];
      }
    }
    CommittedInFigures(before, table.rows, key, turns, transaction, tries - 1, customer.Value());
    OverruledInFigures(before[key], turns, transaction, tries - 1);
    return SUCCESS, tries;
  }

  /** The read behind a statement request; a failed read is answered like an unknown customer. */
  method GetCustomer(table: Table, id: int, customer: CustomerRecord, found: bool) returns (success: bool)
    requires table.Valid() && customer.Valid()
    modifies customer, customer.transactions
    ensures customer.Valid()
    ensures success <==> 1 <= id <= 5 && found
    ensures customer.Value() == if success then table.rows[id - 1].customer else old(customer.Value())
  {
    if id > 5 || id < 1 {
      return false;
    }
    if !found {
      return false;
    }
    var data, version := table.ReadCustomer(id - 1);
    customer.Assign(data);
    return true;
  }
}
