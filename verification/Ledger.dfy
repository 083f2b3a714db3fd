/** The customer record and what one committed transaction does to it. */
module Ledger {

  /** One entry of the ring.  The timestamp is the text produced by the clock module, kept opaque. */
  datatype Transaction = Transaction(value: int, description: string, timestamp: string)

  const NoTransaction := Transaction(0, "", "")

  /** The value of one `Customer` structure. */
  datatype Customer = Customer(
    limit: int,
    balance: int,
    transactions: seq<Transaction>,
    transactionCount: int,
    nextTransactionIndex: int)

  const RING_SIZE := 10

  predicate WellFormed(c: Customer) {
    && |c.transactions| == RING_SIZE
    && 0 <= c.nextTransactionIndex < RING_SIZE
  }

  predicate Exceeds(c: Customer, t: Transaction) {
    c.balance + t.value < -c.limit
  }

  /** The record after one accepted transaction. */
  function Apply(c: Customer, t: Transaction): (r: Customer)
    requires WellFormed(c)
    ensures WellFormed(r)
  {
    Customer(
      c.limit,
      c.balance + t.value,
      c.transactions[c.nextTransactionIndex := t],
      if c.transactionCount <= 10 then c.transactionCount + 1 else c.transactionCount,
      (c.nextTransactionIndex + 1) % 10)
  }

  /** The limits the database is initialised with, by row key 0..4. */
  const INITIAL_LIMITS: seq<int> := [100000, 80000, 1000000, 10000000, 500000]
  const CUSTOMERS := 5

  function Opened(limit: int): (c: Customer)
    ensures WellFormed(c)
  {
    Customer(limit, 0, seq(RING_SIZE, _ => NoTransaction), 0, 0)
  }

  /** The record reached from `c` by applying `history`, oldest first. */
  function Fold(c: Customer, history: seq<Transaction>): (r: Customer)
    requires WellFormed(c)
    ensures WellFormed(r)
  {
    if history == [] then c
    else Apply(Fold(c, history[..|history| - 1]), history[|history| - 1])
  }

  function Total(history: seq<Transaction>): int {
    if history == [] then 0 else Total(history[..|history| - 1]) + history[|history| - 1].value
  }

  function Min(a: int, b: int): int {
    if a < b then a else b
  }

  /** The last ten transactions sit in the ring, transaction number `i` in slot `i % 10`. */
  ghost predicate HoldsLatest(c: Customer, history: seq<Transaction>)
    requires WellFormed(c)
  {
    forall i :: 0 <= i < |history| && |history| - 10 <= i ==> c.transactions[i % 10] == history[i]
  }

  /** The ring refines the history: counters, balance and the last ten transactions. */
  lemma RingRefinesHistory(limit: int, history: seq<Transaction>)
    ensures var c := Fold(Opened(limit), history);
            && c.limit == limit
            && c.balance == Total(history)
            && c.transactionCount == Min(|history|, 11)
            && c.nextTransactionIndex == |history| % 10
            && HoldsLatest(c, history)
  {
    FoldCounters(limit, history);
    FoldRing(limit, history);
  }

  lemma {:induction false} FoldCounters(limit: int, history: seq<Transaction>)
    ensures var c := Fold(Opened(limit), history);
            && c.limit == limit
            && c.balance == Total(history)
            && c.transactionCount == Min(|history|, 11)
            && c.nextTransactionIndex == |history| % 10
  {
    if history != [] {
      var n := |history|;
      FoldCounters(limit, history[..n - 1]);
      NextSlot(n - 1);
    }
  }

  lemma NextSlot(n: nat)
    ensures (n % 10 + 1) % 10 == (n + 1) % 10
  {
  }

  lemma {:induction false} FoldRing(limit: int, history: seq<Transaction>)
    ensures HoldsLatest(Fold(Opened(limit), history), history)
  {
    if history != [] {
      var n := |history|;
      var shorter := history[..n - 1];
      FoldRing(limit, shorter);
      FoldCounters(limit, shorter);
      RingStep(Fold(Opened(limit), shorter), shorter, history[n - 1]);
      assert shorter + [history[n - 1]] == history;
    }
  }

  lemma RingStep(c: Customer, history: seq<Transaction>, t: Transaction)
    requires WellFormed(c) && HoldsLatest(c, history) && c.nextTransactionIndex == |history| % 10
    ensures HoldsLatest(Apply(c, t), history + [t])
  {
    forall i | 0 <= i < |history| + 1 && |history| + 1 - 10 <= i
      ensures Apply(c, t).transactions[i % 10] == (history + [t])[i]
    {
      if i < |history| {
        DistinctSlots(i, |history|);
      }
    }
  }

  lemma DistinctSlots(i: int, j: int)
    requires 0 <= i < j < i + 10
    ensures i % 10 != j % 10
  {
  }

  /** The caller's `Customer` structure, updated in place. */
  class CustomerRecord {
    var limit: int
    var balance: int
    var transactions: array<Transaction>
    var transactionCount: int
    var nextTransactionIndex: int

    ghost predicate Valid()
      reads this
    {
      transactions.Length == RING_SIZE && 0 <= nextTransactionIndex < RING_SIZE
    }

    function Value(): (c: Customer)
      requires Valid()
      reads this, transactions
      ensures WellFormed(c)
    {
      Customer(limit, balance, transactions[..], transactionCount, nextTransactionIndex)
    }

    constructor ()
      ensures Valid() && fresh(transactions) && Value() == Opened(0)
    {
      limit, balance, transactionCount, nextTransactionIndex := 0, 0, 0, 0;
      transactions := new Transaction[RING_SIZE](_ => NoTransaction);
      new;
      assert transactions[..] == Opened(0).transactions;
    }

    /** Overwrites the structure with a row that was read. */
    method Assign(c: Customer)
      requires Valid() && WellFormed(c)
      modifies this, transactions
      ensures Valid() && transactions == old(transactions) && Value() == c
    {
      limit, balance := c.limit, c.balance;
      transactionCount, nextTransactionIndex := c.transactionCount, c.nextTransactionIndex;
      forall k | 0 <= k < RING_SIZE {
        transactions[k] := c.transactions[k];
      }
      assert transactions[..] == c.transactions;
    }

    /** The in-place update between the limit check and the conditional write. */
    method Record(t: Transaction)
      requires Valid()
      modifies this, transactions
      ensures Valid() && transactions == old(transactions)
      ensures Value() == Apply(old(Value()), t)
    {
      balance := balance + t.value;
      transactions[nextTransactionIndex] := t;
      nextTransactionIndex := (nextTransactionIndex + 1) % 10;
      if transactionCount <= 10 {
        transactionCount := transactionCount + 1;
      }
    }
  }
}
