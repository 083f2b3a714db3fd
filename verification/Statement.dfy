/** The statement text of a customer, written by concatenation and read back as JSON. */
module Statement {
  import opened Ledger
  import opened Numerals

  const TOTAL := "{\"saldo\":{\"total\":"
  const DATE := ",\"data_extrato\":\""
  const LIMIT := "\",\"limite\":"
  const LATEST := "},\"ultimas_transacoes\":["
  const VALUE := "{\"valor\":"
  const KIND := ",\"tipo\":\""
  const DESCRIPTION := "\",\"descricao\":\""
  const DONE_AT := "\",\"realizada_em\":\""
  const TRANSACTION_END := "\"}"
  const END := "]}"

  function ToJson(t: Transaction): string {
    VALUE + IntText(if t.value > 0 then t.value else -t.value)
    + KIND + (if t.value > 0 then "c" else "d")
    + DESCRIPTION + t.description + DONE_AT + t.timestamp + TRANSACTION_END
  }

  /** Texts one after the other with commas between them. */
  function Listed(ts: seq<Transaction>): string {
    if ts == [] then ""
    else if |ts| == 1 then ToJson(ts[0])
    else ToJson(ts[0]) + "," + Listed(ts[1..])
  }

  /** The last ten transactions of a history, newest first. */
  function Latest(history: seq<Transaction>): seq<Transaction> {
    seq(Min(|history|, 10), j requires 0 <= j < Min(|history|, 10) => history[|history| - 1 - j])
  }

  /** What the record's ring shows: below ten from the slot before the next one down, else all round. */
  function Shown(c: Customer): seq<Transaction>
    requires WellFormed(c)
  {
    if c.transactionCount < 10 then
      seq(c.nextTransactionIndex, j requires 0 <= j < c.nextTransactionIndex => c.transactions[c.nextTransactionIndex - 1 - j])
    else seq(10, j requires 0 <= j < 10 => c.transactions[(c.nextTransactionIndex - 1 - j + 10) % 10])
  }

  lemma {:induction false} ListedAppend(ts: seq<Transaction>, t: Transaction)
    ensures Listed(ts + [t]) == Listed(ts) + (if ts == [] then "" else ",") + ToJson(t)
  {
    if ts == [] {
      assert ts + [t] == [t];
    } else if |ts| == 1 {
      assert (ts + [t])[1..] == [t];
    } else {
      assert (ts + [t])[1..] == ts[1..] + [t];
      ListedAppend(ts[1..], t);
    }
  }

  /** Both branches of the list renderer. */
  method ListToJson(transactions: seq<Transaction>, transactionCount: int, nextTransactionIndex: int) returns (json: string)
    requires |transactions| == RING_SIZE && 0 <= nextTransactionIndex < RING_SIZE
    ensures json == Listed(Shown(Customer(0, 0, transactions, transactionCount, nextTransactionIndex)))
  {
    hide Listed, ToJson;
    json := "";
    ghost var shown := Shown(Customer(0, 0, transactions, transactionCount, nextTransactionIndex));
    NothingListed();
    assert shown[..0] == [];
    if transactionCount < 10 {
      var i := nextTransactionIndex - 1;
      while i >= 0
        invariant -1 <= i < nextTransactionIndex == |shown|
        invariant json == Partial(shown, nextTransactionIndex - 1 - i)
      {
        PartialNext(shown, nextTransactionIndex - 1 - i);
        json := json + ToJson(transactions[i]);
        if i != 0 {
          json := json + ",";
        }
        i := i - 1;
      }
    } else {
      var i := (nextTransactionIndex - 1 + 10) % 10;
      for j := 0 to 10
        invariant i == (nextTransactionIndex - 1 - j + 10) % 10 || j == 10
        invariant json == Partial(shown, j)
      {
        PartialNext(shown, j);
        json := json + ToJson(transactions[i]);
        if j != 9 {
          json := json + ",";
        }
        i := (i - 1 + 10) % 10;
      }
    }
    assert shown[..|shown|] == shown;
  }

  /** After `n` rounds: `n` texts, each but the very last with its comma. */
  function Partial(shown: seq<Transaction>, n: nat): string
    requires n <= |shown|
  {
    Listed(shown[..n]) + (if 0 < n < |shown| then "," else "")
  }

  lemma PartialNext(shown: seq<Transaction>, n: nat)
    requires n < |shown|
    ensures Partial(shown, n + 1) == Partial(shown, n) + ToJson(shown[n]) + (if n + 1 < |shown| then "," else "")
  {
    hide Listed, ToJson;
    NothingListed();
    assert shown[..n] + [shown[n]] == shown[..n + 1];
    ListedAppend(shown[..n], shown[n]);
  }

  lemma NothingListed()
    ensures Listed([]) == ""
  {
  }

  /** The ring shows exactly the last ten committed transactions, newest first, whichever branch runs. */
  lemma ShownIsLatest(limit: int, history: seq<Transaction>)
    ensures Shown(Fold(Opened(limit), history)) == Latest(history)
    ensures |Latest(history)| == if |history| < 10 then |history| else 10
    ensures forall j :: 0 <= j < |history| && j < 10 ==> Latest(history)[j] == history[|history| - 1 - j]
  {
    hide Fold, Opened, Total;
    RingRefinesHistory(limit, history);
    var c := Fold(Opened(limit), history);
    var n := |history|;
    forall j | 0 <= j < Min(n, 10) ensures Shown(c)[j] == history[n - 1 - j] {
      SlotBack(n, j);
      assert c.transactions[(n - 1 - j) % 10] == history[n - 1 - j];
    }
  }

  lemma SlotBack(n: nat, j: nat)
    requires j < 10 && j < n
    ensures (n % 10 - 1 - j + 10) % 10 == (n - 1 - j) % 10
    ensures n < 10 ==> n % 10 - 1 - j == (n - 1 - j) % 10
  {
  }

  function StatementText(balance: int, limit: int, date: string, ts: seq<Transaction>): string {
    TOTAL + IntText(balance) + DATE + date + LIMIT + IntText(limit) + LATEST + Listed(ts) + END
  }

  method CustomerToJson(c: Customer, date: string) returns (json: string)
    requires WellFormed(c)
    ensures json == StatementText(c.balance, c.limit, date, Shown(c))
  {
    var list := ListToJson(c.transactions, c.transactionCount, c.nextTransactionIndex);
    json := TOTAL + IntText(c.balance) + DATE + date + LIMIT + IntText(c.limit) + LATEST + list + END;
  }
}
