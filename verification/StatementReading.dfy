/** Reading a statement back with the JSON parser. */
module StatementReading {
  import opened Json
  import opened Ledger
  import opened Numerals
  import opened Statement

  // ----- The tree behind the text -----

  function Kind(value: int): string {
    if value > 0 then "c" else "d"
  }

  function Magnitude(value: int): int {
    if value > 0 then value else -value
  }

  function TransactionTree(t: Transaction): Value {
    Obj(Member("valor", Num(Magnitude(t.value)), DetailMembers(t)))
  }

  function DetailMembers(t: Transaction): Members {
    Member("tipo", Str(Kind(t.value)), Member("descricao", Str(t.description), Member("realizada_em", Str(t.timestamp), NoMembers)))
  }

  function TransactionItems(ts: seq<Transaction>): Items {
    if ts == [] then NoItems else Item(TransactionTree(ts[0]), TransactionItems(ts[1..]))
  }

  function BalanceMembers(balance: int, limit: int, date: string): Members {
    Member("total", Num(balance), Member("data_extrato", Str(date), Member("limite", Num(limit), NoMembers)))
  }

  function StatementTree(balance: int, limit: int, date: string, ts: seq<Transaction>): Value {
    Obj(Member("saldo", Obj(BalanceMembers(balance, limit, date)),
               Member("ultimas_transacoes", Arr(TransactionItems(ts)), NoMembers)))
  }

  // ----- The concatenations are renderings of the tree -----

  lemma Regroup(a: string, b: string, c: string)
    ensures a + b + c == a + (b + c)
  {
  }

  lemma Regroup5(a: string, b: string, c: string, d: string, e: string)
    ensures a + b + c + d + e == a + (b + (c + (d + e)))
  {
    Regroup(a + b + c, d, e);
    Regroup(a + b, c, d + e);
    Regroup(a, b, c + (d + e));
  }

  lemma Regroup9(a: string, b: string, c: string, d: string, e: string, f: string, g: string, h: string, i: string)
    ensures a + b + c + d + e + f + g + h + i == a + (b + (c + (d + (e + (f + (g + (h + i)))))))
  {
    Regroup5(a + b + c + d, e, f, g, h + i);
    Regroup(a + b + c + d + e + f + g, h, i);
    Regroup5(a, b, c, d, e + (f + (g + (h + i))));
  }

  lemma StrThen(name: string, text: string, others: Members)
    requires others.Member?
    ensures RenderMembers(Member(name, Str(text), others)) + "}"
         == ("\"" + name + "\":\"") + (text + ("\"," + (RenderMembers(others) + "}")))
  {
    var head, rest := "\"" + name + "\":", RenderMembers(others) + "}";
    Regroup5(head, "\"" + text + "\"", ",", RenderMembers(others), "}");
    Regroup("\"", text, "\"");
    StrMember(head, text, "," + rest);
    Regroup("\"", ",", rest);
    assert "\"" + "," == "\",";
    assert head + "\"" == "\"" + name + "\":\"";
  }

  lemma StrMember(head: string, text: string, rest: string)
    ensures head + (("\"" + text + "\"") + rest) == (head + "\"") + (text + ("\"" + rest))
  {
    Regroup("\"" + text, "\"", rest);
    Regroup("\"", text, "\"" + rest);
    Regroup(head, "\"", text + ("\"" + rest));
  }

  lemma StrLast(name: string, text: string)
    ensures RenderMembers(Member(name, Str(text), NoMembers)) + "}" == ("\"" + name + "\":\"") + (text + "\"}")
  {
    var head := "\"" + name + "\":";
    Regroup(head, "\"" + text + "\"", "}");
    StrMember(head, text, "}");
    assert "\"" + "}" == "\"}";
    assert head + "\"" == "\"" + name + "\":\"";
  }

  lemma NumThen(name: string, n: int, others: Members)
    requires others.Member?
    ensures RenderMembers(Member(name, Num(n), others)) + "}"
         == ("\"" + name + "\":") + (IntText(n) + ("," + (RenderMembers(others) + "}")))
  {
    var head := "\"" + name + "\":";
    Regroup5(head, IntText(n), ",", RenderMembers(others), "}");
  }

  lemma NumLast(name: string, n: int)
    ensures RenderMembers(Member(name, Num(n), NoMembers)) + "}" == ("\"" + name + "\":") + (IntText(n) + "}")
  {
    Regroup("\"" + name + "\":", IntText(n), "}");
  }

  lemma DetailsRendered(t: Transaction)
    ensures "," + (RenderMembers(DetailMembers(t)) + "}")
         == KIND + (Kind(t.value) + (DESCRIPTION + (t.description + (DONE_AT + (t.timestamp + TRANSACTION_END)))))
  {
    hide RenderMembers;
    var last := Member("realizada_em", Str(t.timestamp), NoMembers);
    var two := Member("descricao", Str(t.description), last);
    StrLast("realizada_em", t.timestamp);
    StrThen("descricao", t.description, last);
    StrThen("tipo", Kind(t.value), two);
    Literals();
    var s := t.timestamp + TRANSACTION_END;
    Regroup("\",", "\"" + "realizada_em" + "\":\"", s);
    var s2 := t.description + (DONE_AT + s);
    Regroup("\",", "\"" + "descricao" + "\":\"", s2);
    var s3 := Kind(t.value) + (DESCRIPTION + s2);
    Regroup(",", "\"" + "tipo" + "\":\"", s3);
  }

  lemma Literals()
    ensures "\"," + ("\"" + "realizada_em" + "\":\"") == DONE_AT
    ensures "\"," + ("\"" + "descricao" + "\":\"") == DESCRIPTION
    ensures "," + ("\"" + "tipo" + "\":\"") == KIND
    ensures "{" + ("\"" + "valor" + "\":") == VALUE
  {
  }

  lemma TransactionRendered(t: Transaction)
    ensures ToJson(t) == Render(TransactionTree(t))
  {
    hide RenderMembers;
    Regroup9(VALUE, IntText(Magnitude(t.value)), KIND, Kind(t.value), DESCRIPTION, t.description, DONE_AT, t.timestamp, TRANSACTION_END);
    DetailsRendered(t);
    NumThen("valor", Magnitude(t.value), DetailMembers(t));
    Literals();
    var s := IntText(Magnitude(t.value)) + ("," + (RenderMembers(DetailMembers(t)) + "}"));
    Regroup("{", "\"" + "valor" + "\":", s);
    Regroup("{", RenderMembers(Member("valor", Num(Magnitude(t.value)), DetailMembers(t))), "}");
  }

  lemma {:induction false} ListRendered(ts: seq<Transaction>)
    ensures Listed(ts) == RenderItems(TransactionItems(ts))
  {
    hide Render, ToJson, TransactionTree;
    if ts != [] {
      TransactionRendered(ts[0]);
      ListRendered(ts[1..]);
    }
  }

  lemma BalanceRendered(balance: int, limit: int, date: string)
    ensures RenderMembers(BalanceMembers(balance, limit, date)) + "}"
         == "\"total\":" + (IntText(balance) + (DATE + (date + (LIMIT + (IntText(limit) + "}")))))
  {
    hide RenderMembers;
    var last := Member("limite", Num(limit), NoMembers);
    var two := Member("data_extrato", Str(date), last);
    NumLast("limite", limit);
    StrThen("data_extrato", date, last);
    NumThen("total", balance, two);
    var s := IntText(limit) + "}";
    Regroup("\",", "\"" + "limite" + "\":", s);
    var s2 := date + (LIMIT + s);
    Regroup(",", "\"" + "data_extrato" + "\":\"", s2);
    MoreLiterals();
  }

  lemma MoreLiterals()
    ensures "\"," + ("\"" + "limite" + "\":") == LIMIT
    ensures "," + ("\"" + "data_extrato" + "\":\"") == DATE
    ensures "\"" + "total" + "\":" == "\"total\":"
  {
  }

  lemma OuterLiterals()
    ensures "{" + ("\"" + "saldo" + "\":" + ("{" + "\"total\":")) == TOTAL
    ensures "}" + ("," + ("\"" + "ultimas_transacoes" + "\":" + "[")) == LATEST
    ensures "]" + "}" == END
  {
  }

  lemma Push(a: string, b: string, c: string, d: string, e: string, f: string, g: string, x: string)
    ensures (a + (b + (c + (d + (e + (f + g)))))) + x == a + (b + (c + (d + (e + (f + (g + x))))))
  {
    Regroup(f, g, x);
    Regroup(e, f + g, x);
    Regroup(d, e + (f + g), x);
    Regroup(c, d + (e + (f + g)), x);
    Regroup(b, c + (d + (e + (f + g))), x);
    Regroup(a, b + (c + (d + (e + (f + g)))), x);
  }

  /** The closing part: after the balance object, the list of transactions. */
  lemma ListPart(list: string)
    ensures var u := "\"" + "ultimas_transacoes" + "\":" + ("[" + list + "]");
            "}" + ("," + (u + "}")) == LATEST + (list + END)
  {
    var name := "\"" + "ultimas_transacoes" + "\":";
    Regroup("[", list, "]");
    Regroup(name, "[" + (list + "]"), "}");
    Regroup("[", list + "]", "}");
    Regroup(list, "]", "}");
    Regroup(name, "[", list + END);
    Regroup(",", name + "[", list + END);
    Regroup("}", "," + (name + "["), list + END);
    OuterLiterals();
  }

  lemma StatementRendered(balance: int, limit: int, date: string, ts: seq<Transaction>)
    ensures StatementText(balance, limit, date, ts) == Render(StatementTree(balance, limit, date, ts))
  {
    hide RenderMembers, Listed, RenderItems, TransactionItems;
    ListRendered(ts);
    var list := RenderItems(TransactionItems(ts));
    Regroup9(TOTAL, IntText(balance), DATE, date, LIMIT, IntText(limit), LATEST, list, END);
    var members := BalanceMembers(balance, limit, date);
    var saldo := "\"" + "saldo" + "\":";
    var u := "\"" + "ultimas_transacoes" + "\":" + ("[" + list + "]");
    var x := "," + (u + "}");
    TopRendered(members, TransactionItems(ts));
    BalanceRendered(balance, limit, date);
    ListPart(list);
    Push("\"total\":", IntText(balance), DATE, date, LIMIT, IntText(limit), "}", x);
    var inner := IntText(balance) + (DATE + (date + (LIMIT + (IntText(limit) + (LATEST + (list + END))))));
    Regroup("{", RenderMembers(members) + "}", x);
    Regroup("{", "\"total\":", inner);
    Regroup(saldo, "{" + "\"total\":", inner);
    Regroup("{", saldo + ("{" + "\"total\":"), inner);
    OuterLiterals();
  }

  /** The outermost object, grouped so that its balance part comes first. */
  lemma TopRendered(members: Members, items: Items)
    ensures var u := "\"" + "ultimas_transacoes" + "\":" + ("[" + RenderItems(items) + "]");
            var tree := Obj(Member("saldo", Obj(members), Member("ultimas_transacoes", Arr(items), NoMembers)));
            Render(tree) == "{" + (("\"" + "saldo" + "\":") + (("{" + (RenderMembers(members) + "}")) + ("," + (u + "}"))))
  {
    hide RenderItems;
    var u := "\"" + "ultimas_transacoes" + "\":" + ("[" + RenderItems(items) + "]");
    var saldo := "\"" + "saldo" + "\":";
    var obj := "{" + RenderMembers(members) + "}";
    TopMembers(members, items);
    Regroup("{", RenderMembers(members), "}");
    Regroup("{", saldo + obj + "," + u, "}");
    Regroup5(saldo, obj, ",", u, "}");
  }

  lemma TopMembers(members: Members, items: Items)
    ensures RenderMembers(Member("saldo", Obj(members), Member("ultimas_transacoes", Arr(items), NoMembers)))
         == ("\"" + "saldo" + "\":") + ("{" + RenderMembers(members) + "}") + ","
            + ("\"" + "ultimas_transacoes" + "\":" + ("[" + RenderItems(items) + "]"))
  {
    var last := Member("ultimas_transacoes", Arr(items), NoMembers);
    assert RenderMembers(last) == "\"" + "ultimas_transacoes" + "\":" + ("[" + RenderItems(items) + "]");
  }

  // ----- Reading back -----

  datatype View = Malformed | View(balance: int, limit: int, date: string, transactions: seq<Transaction>)

  predicate StrMemberNamed(m: Members, name: string) {
    m.Member? && m.name == name && m.value.Str?
  }

  predicate NumMemberNamed(m: Members, name: string) {
    m.Member? && m.name == name && m.value.Num?
  }

  predicate IsTransaction(v: Value) {
    && v.Obj?
    && NumMemberNamed(v.members, "valor")
    && var kind := v.members.others;
    && StrMemberNamed(kind, "tipo") && (kind.value.text == "c" || kind.value.text == "d")
    && StrMemberNamed(kind.others, "descricao")
    && StrMemberNamed(kind.others.others, "realizada_em") && kind.others.others.others.NoMembers?
  }

  /** The sign comes from the type. */
  function TransactionFrom(v: Value): Transaction
    requires IsTransaction(v)
  {
    var n, kind := v.members.value.n, v.members.others;
    Transaction(if kind.value.text == "c" then n else -n, kind.others.value.text, kind.others.others.value.text)
  }

  predicate AreTransactions(items: Items) {
    match items
    case NoItems => true
    case Item(head, tail) => IsTransaction(head) && AreTransactions(tail)
  }

  function TransactionsFrom(items: Items): seq<Transaction>
    requires AreTransactions(items)
  {
    match items
    case NoItems => []
    case Item(head, tail) => [TransactionFrom(head)] + TransactionsFrom(tail)
  }

  predicate IsBalance(v: Value) {
    && v.Obj?
    && NumMemberNamed(v.members, "total")
    && StrMemberNamed(v.members.others, "data_extrato")
    && NumMemberNamed(v.members.others.others, "limite") && v.members.others.others.others.NoMembers?
  }

  predicate IsStatement(v: Value) {
    && v.Obj? && v.members.Member? && v.members.name == "saldo" && IsBalance(v.members.value)
    && var list := v.members.others;
    && list.Member? && list.name == "ultimas_transacoes" && list.value.Arr? && list.others.NoMembers?
    && AreTransactions(list.value.items)
  }

  function ViewOf(v: Value): View
    requires IsStatement(v)
  {
    var balance := v.members.value.members;
    View(balance.value.n, balance.others.others.value.n, balance.others.value.text,
            TransactionsFrom(v.members.others.value.items))
  }

  function ReadStatement(text: string): View {
    match Parse(text)
    case Fail => Malformed
    case Ok(v, rest) => if rest == "" && IsStatement(v) then ViewOf(v) else Malformed
  }

  // ----- The round trip -----

  predicate PlainTransaction(t: Transaction) {
    Plain(t.description) && Plain(t.timestamp)
  }

  predicate AllPlain(date: string, ts: seq<Transaction>) {
    Plain(date) && forall i :: 0 <= i < |ts| ==> PlainTransaction(ts[i])
  }

  lemma PlainStep(name: string, value: Value, others: Members)
    ensures PlainMembers(Member(name, value, others)) <==> Plain(name) && PlainValue(value) && PlainMembers(others)
  {
  }

  lemma TransactionPlain(t: Transaction)
    requires PlainTransaction(t)
    ensures PlainValue(TransactionTree(t))
  {
    var last := Member("realizada_em", Str(t.timestamp), NoMembers);
    var two := Member("descricao", Str(t.description), last);
    PlainStep("realizada_em", Str(t.timestamp), NoMembers);
    PlainStep("descricao", Str(t.description), last);
    PlainStep("tipo", Str(Kind(t.value)), two);
    PlainStep("valor", Num(Magnitude(t.value)), DetailMembers(t));
  }

  /** One transaction of the list, as a JSON reader gets it: a value of 0 is of type "d". */
  lemma TransactionIsRead(t: Transaction)
    requires Plain(t.description) && Plain(t.timestamp)
    ensures Parse(ToJson(t))
         == Ok(Obj(Member("valor", Num(if t.value < 0 then 0 - t.value else t.value),
                   Member("tipo", Str(if t.value >= 1 then "c" else "d"),
                   Member("descricao", Str(t.description),
                   Member("realizada_em", Str(t.timestamp), NoMembers))))), "")
  {
    hide Parse, Render, ToJson, Plain, PlainValue;
    TransactionRendered(t);
    TransactionPlain(t);
    RenderedIsRead(TransactionTree(t), "");
    assert Render(TransactionTree(t)) + "" == Render(TransactionTree(t));
  }

  lemma TreePlain(balance: int, limit: int, date: string, items: Items)
    requires Plain(date) && PlainItems(items)
    ensures PlainMembers(BalanceMembers(balance, limit, date))
    ensures PlainMembers(Member("saldo", Obj(BalanceMembers(balance, limit, date)),
                                Member("ultimas_transacoes", Arr(items), NoMembers)))
  {
    hide PlainItems;
    var last := Member("limite", Num(limit), NoMembers);
    PlainStep("limite", Num(limit), NoMembers);
    PlainStep("data_extrato", Str(date), last);
    PlainStep("total", Num(balance), Member("data_extrato", Str(date), last));
    var list := Member("ultimas_transacoes", Arr(items), NoMembers);
    PlainStep("ultimas_transacoes", Arr(items), NoMembers);
    PlainStep("saldo", Obj(BalanceMembers(balance, limit, date)), list);
  }

  lemma TransactionFromPlain(v: Value)
    requires PlainValue(v) && IsTransaction(v)
    ensures PlainTransaction(TransactionFrom(v))
  {
    var kind := v.members.others;
    PlainStep("valor", v.members.value, kind);
    PlainStep("tipo", kind.value, kind.others);
    PlainStep("descricao", kind.others.value, kind.others.others);
    PlainStep("realizada_em", kind.others.others.value, NoMembers);
  }

  lemma StatementFromPlain(v: Value)
    requires PlainValue(v) && IsStatement(v)
    ensures PlainItems(v.members.others.value.items) && Plain(ViewOf(v).date)
  {
    hide PlainItems, AreTransactions, TransactionsFrom;
    var balance, list := v.members.value.members, v.members.others;
    PlainStep("saldo", v.members.value, list);
    PlainStep("ultimas_transacoes", list.value, NoMembers);
    PlainStep("total", balance.value, balance.others);
    PlainStep("data_extrato", balance.others.value, balance.others.others);
  }

  lemma {:induction false} ItemsBack(ts: seq<Transaction>)
    ensures AreTransactions(TransactionItems(ts)) && TransactionsFrom(TransactionItems(ts)) == ts
    ensures (forall i :: 0 <= i < |ts| ==> PlainTransaction(ts[i])) ==> PlainItems(TransactionItems(ts))
  {
    if ts != [] {
      ItemsBack(ts[1..]);
      assert TransactionFrom(TransactionTree(ts[0])) == ts[0];
      if PlainTransaction(ts[0]) {
        TransactionPlain(ts[0]);
      }
    }
  }

  lemma StatementIsRead(balance: int, limit: int, date: string, ts: seq<Transaction>)
    requires AllPlain(date, ts)
    ensures ReadStatement(StatementText(balance, limit, date, ts)) == View(balance, limit, date, ts)
  {
    hide Parse, Render, TransactionItems, TransactionsFrom, AreTransactions, PlainItems, PlainMembers, Plain;
    var v := StatementTree(balance, limit, date, ts);
    ItemsBack(ts);
    StatementRendered(balance, limit, date, ts);
    TreePlain(balance, limit, date, TransactionItems(ts));
    RenderedIsRead(v, "");
    assert Render(v) + "" == Render(v);
  }

  lemma {:induction false} TextsPlain(items: Items)
    requires PlainItems(items) && AreTransactions(items)
    ensures forall i :: 0 <= i < |TransactionsFrom(items)| ==> PlainTransaction(TransactionsFrom(items)[i])
  {
    if items.Item? {
      TextsPlain(items.tail);
      TransactionFromPlain(items.head);
    }
  }

  lemma ReadIsPlain(text: string, balance: int, limit: int, date: string, ts: seq<Transaction>)
    requires ReadStatement(text) == View(balance, limit, date, ts)
    ensures AllPlain(date, ts)
  {
    hide Parse, TransactionsFrom, PlainItems, PlainMembers, AreTransactions;
    ParsedIsPlain(text);
    var v := Parse(text).value;
    StatementFromPlain(v);
    TextsPlain(v.members.others.value.items);
  }

  /**
   * A statement reads back as the balance, the limit, the date and the last ten transactions of the
   * history, newest first, with their signs, exactly when no text in it needs an escape.
   */
  lemma StatementRoundTrip(limit: int, history: seq<Transaction>, date: string)
    ensures var c := Fold(Opened(limit), history);
            ReadStatement(StatementText(c.balance, c.limit, date, Shown(c))) == View(Total(history), limit, date, Latest(history))
            <==> AllPlain(date, Latest(history))
  {
    RingRefinesHistory(limit, history);
    ShownIsLatest(limit, history);
    var text := StatementText(Total(history), limit, date, Latest(history));
    if AllPlain(date, Latest(history)) {
      StatementIsRead(Total(history), limit, date, Latest(history));
    } else if ReadStatement(text) == View(Total(history), limit, date, Latest(history)) {
      ReadIsPlain(text, Total(history), limit, date, Latest(history));
    }
  }
}
