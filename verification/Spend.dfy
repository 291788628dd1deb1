/** Per-client spend: the in-memory rollover of `client_budget.rs` with the ledger of `lib.rs` around it, and the
  three upserted tables of `persistence.rs`.  Dollars are exact reals and counters unbounded integers. */
module Spend {
  import opened Options

  /** The value of a `SpendState`, and a row of `client_spend`. */
  datatype Balance = Balance(periodKey: int, spentUsd: real)

  // --- The rollover -----------------------------------------------------------------

  function Rolled(b: Balance, currentKey: int): Balance {
    if b.periodKey != currentKey then Balance(currentKey, 0.0) else b
  }

  class SpendState {
    var periodKey: int
    var spentUsd: real

    ghost function Value(): Balance
      reads this
    {
      Balance(periodKey, spentUsd)
    }

    constructor ()
      ensures Value() == Balance(0, 0.0)
    {
      periodKey, spentUsd := 0, 0.0;
    }

    method RollPeriodIfNeeded(currentKey: int)
      modifies this
      ensures Value() == Rolled(old(Value()), currentKey)
    {
      if periodKey != currentKey {
        periodKey := currentKey;
        spentUsd := 0.0;
      }
    }

    /** `record_client_spend` without persistence; `crossed` is the test that fires `budget_exceeded`. */
    method Record(currentKey: int, costUsd: real, budgetUsd: real) returns (crossed: bool)
      modifies this
      ensures Value() == Recorded(old(Value()), currentKey, costUsd)
      ensures crossed <==> SpentIn(old(Value()), currentKey) < budgetUsd <= SpentIn(old(Value()), currentKey) + costUsd
    {
      RollPeriodIfNeeded(currentKey);
      var before := spentUsd;
      spentUsd := spentUsd + costUsd;
      crossed := before < budgetUsd && spentUsd >= budgetUsd;
    }

    /** `spent_usd_for` without persistence: a read rolls the state over too. */
    method Spent(currentKey: int) returns (spent: real)
      modifies this
      ensures Value() == Rolled(old(Value()), currentKey)
      ensures spent == SpentIn(old(Value()), currentKey)
    {
      RollPeriodIfNeeded(currentKey);
      spent := spentUsd;
    }
  }

  function Recorded(b: Balance, key: int, costUsd: real): Balance {
    Balance(key, Rolled(b, key).spentUsd + costUsd)
  }

  /** What a state holds for a period. */
  function SpentIn(b: Balance, key: int): real {
    Rolled(b, key).spentUsd
  }

  // --- The tables ----------------------------------------------------------------------

  datatype Totals = Totals(requests: int, promptTokens: int, completionTokens: int, costUsd: real)

  datatype Write =
    | Usage(key: string, promptTokens: nat, completionTokens: nat, costUsd: Option<real>)
    | ClientSpend(client: string, periodKey: int, cost: real)
    | ResetClientSpend(client: string, periodKey: int)
    | DailyClientUsage(client: string, day: int, promptTokens: nat, completionTokens: nat, costUsd: Option<real>)

  datatype Tables = Tables(
    usageStats: map<string, Totals>,
    clientSpend: map<string, Balance>,
    dailyUsage: map<(string, int), Totals>)

  function Plus(a: Totals, b: Totals): Totals {
    Totals(a.requests + b.requests, a.promptTokens + b.promptTokens,
           a.completionTokens + b.completionTokens, a.costUsd + b.costUsd)
  }

  const ZERO: Totals := Totals(0, 0, 0, 0.0)

  function One(promptTokens: nat, completionTokens: nat, costUsd: Option<real>): Totals {
    Totals(1, promptTokens, completionTokens, if costUsd.Some? then costUsd.value else 0.0)
  }

  /** `INSERT ... VALUES (.., 1, ?2, ?3, ?4) ON CONFLICT DO UPDATE SET` each column to its sum. */
  function AddTo<K>(t: map<K, Totals>, k: K, promptTokens: nat, completionTokens: nat, costUsd: Option<real>)
    : map<K, Totals>
  {
    var row := One(promptTokens, completionTokens, costUsd);
    t[k := if k in t then Plus(t[k], row) else row]
  }

  /** `spent_usd = CASE WHEN period_key = ?2 THEN spent_usd + ?3 ELSE ?3 END` */
  function UpsertSpend(t: map<string, Balance>, client: string, periodKey: int, costUsd: real): map<string, Balance> {
    if client in t && t[client].periodKey == periodKey then
      t[client := Balance(periodKey, t[client].spentUsd + costUsd)]
    else
      t[client := Balance(periodKey, costUsd)]
  }

  function Applied(t: Tables, w: Write): Tables {
    match w
    case Usage(key, p, c, cost) => t.(usageStats := AddTo(t.usageStats, key, p, c, cost))
    case ClientSpend(client, key, cost) => t.(clientSpend := UpsertSpend(t.clientSpend, client, key, cost))
    case ResetClientSpend(client, key) => t.(clientSpend := t.clientSpend[client := Balance(key, 0.0)])
    case DailyClientUsage(client, day, p, c, cost) => t.(dailyUsage := AddTo(t.dailyUsage, (client, day), p, c, cost))
  }

  const EMPTY: Tables := Tables(map[], map[], map[])

  /** The tables after a sequence of writes to a database that held `t`. */
  function After(t: Tables, ws: seq<Write>): Tables {
    if ws == [] then t else Applied(After(t, ws[..|ws| - 1]), ws[|ws| - 1])
  }

  class Store {
    var usageStats: map<string, Totals>
    var clientSpend: map<string, Balance>
    var dailyUsage: map<(string, int), Totals>

    ghost function Contents(): Tables
      reads this
    {
      Tables(usageStats, clientSpend, dailyUsage)
    }

    constructor ()
      ensures Contents() == EMPTY
    {
      usageStats, clientSpend, dailyUsage := map[], map[], map[];
    }

    method Execute(w: Write)
      modifies this
      ensures Contents() == Applied(old(Contents()), w)
    {
      match w {
        case Usage(key, p, c, cost) => usageStats := AddTo(usageStats, key, p, c, cost);
        case ClientSpend(client, key, cost) => clientSpend := UpsertSpend(clientSpend, client, key, cost);
        case ResetClientSpend(client, key) => clientSpend := clientSpend[client := Balance(key, 0.0)];
        case DailyClientUsage(client, day, p, c, cost) =>
          dailyUsage := AddTo(dailyUsage, (client, day), p, c, cost);
      }
    }

    /** The SQLite writer thread: it executes what it receives, in order, until the channel closes. */
    method WriterLoop(received: seq<Write>)
      modifies this
      ensures Contents() == After(old(Contents()), received)
    {
      var i := 0;
      while i < |received|
        invariant 0 <= i <= |received|
        invariant Contents() == After(old(Contents()), received[..i])
      {
        Execute(received[i]);
        assert received[..i + 1][..i] == received[..i];
        i := i + 1;
      }
      assert received[..i] == received;
    }
  }

  // --- The spend row is the rolled-over fold --------------------------------------------------

  /** A state that no spend was recorded in. */
  const UNSPENT: Balance := Balance(0, 0.0)

  /** What one write does to the `SpendState` of a client. */
  function Written(b: Balance, w: Write, client: string): Balance {
    match w
    case ClientSpend(c, key, cost) => if c == client then Recorded(b, key, cost) else b
    case ResetClientSpend(c, key) => if c == client then Balance(key, 0.0) else b
    case _ => b
  }

  /** A `SpendState` of `b` after the same events. */
  function InMemory(b: Balance, ws: seq<Write>, client: string): Balance {
    if ws == [] then b else Written(InMemory(b, ws[..|ws| - 1], client), ws[|ws| - 1], client)
  }

  predicate Touches(w: Write, client: string) {
    (w.ClientSpend? || w.ResetClientSpend?) && w.client == client
  }

  ghost predicate Touched(ws: seq<Write>, client: string) {
    exists i | 0 <= i < |ws| :: Touches(ws[i], client)
  }

  /** A client's row; one without a row is unspent. */
  function RowOrUnspent(t: Tables, client: string): Balance {
    if client in t.clientSpend then t.clientSpend[client] else UNSPENT
  }

  lemma TouchedBy(ws: seq<Write>, client: string)
    requires ws != []
    ensures Touched(ws, client) <==> Touched(ws[..|ws| - 1], client) || Touches(ws[|ws| - 1], client)
  {
    var rest := ws[..|ws| - 1];
    if Touched(rest, client) {
      var i :| 0 <= i < |rest| && Touches(rest[i], client);
      assert Touches(ws[i], client);
    }
    if Touched(ws, client) {
      var i :| 0 <= i < |ws| && Touches(ws[i], client);
      assert i < |rest| ==> Touches(rest[i], client);
    }
  }

  lemma WrittenRow(t: Tables, w: Write, client: string)
    ensures client in Applied(t, w).clientSpend <==> client in t.clientSpend || Touches(w, client)
    ensures RowOrUnspent(Applied(t, w), client) == Written(RowOrUnspent(t, client), w, client)
  {
  }

  /** Main result: on any tables the upsert refines the rollover.  A client has a row if it had one or one of its events
    was written, and the row is the state that rolling over and adding in memory would have reached. */
  lemma {:induction false} UpsertRefinesRollover(t: Tables, ws: seq<Write>, client: string)
    ensures client in After(t, ws).clientSpend <==> client in t.clientSpend || Touched(ws, client)
    ensures RowOrUnspent(After(t, ws), client) == InMemory(RowOrUnspent(t, client), ws, client)
  {
    hide Applied, Written, RowOrUnspent;
    if ws != [] {
      UpsertRefinesRollover(t, ws[..|ws| - 1], client);
      TouchedBy(ws, client);
      WrittenRow(After(t, ws[..|ws| - 1]), ws[|ws| - 1], client);
    }
  }

  /** The costs since the last reset or change of key, read backwards from the end; `b` is what there was before. */
  function SpentSince(b: Balance, ws: seq<Write>, client: string, key: int): real {
    if ws == [] then SpentIn(b, key)
    else
      var rest, w := ws[..|ws| - 1], ws[|ws| - 1];
      if !Touches(w, client) then SpentSince(b, rest, client, key)
      else if w.ClientSpend? && w.periodKey == key then SpentSince(b, rest, client, key) + w.cost
      else 0.0
  }

  /** What a budget check reads from the table: a row of another period counts as unspent. */
  function RowSpent(t: Tables, client: string, key: int): real {
    if client in t.clientSpend && t.clientSpend[client].periodKey == key then t.clientSpend[client].spentUsd else 0.0
  }

  lemma {:induction false} MemoryIsSumSinceBoundary(b: Balance, ws: seq<Write>, client: string, key: int)
    ensures SpentIn(InMemory(b, ws, client), key) == SpentSince(b, ws, client, key)
  {
    if ws != [] {
      MemoryIsSumSinceBoundary(b, ws[..|ws| - 1], client, key);
    }
  }

  /** Main result: for every sequence of writes and every period, the table, and a state that started from the client's
    row, answer with the costs since the client's last reset or change of period. */
  lemma BalanceIsSumSinceBoundary(t: Tables, ws: seq<Write>, client: string, key: int)
    ensures var b := RowOrUnspent(t, client);
            && RowSpent(After(t, ws), client, key) == SpentSince(b, ws, client, key)
            && SpentIn(InMemory(b, ws, client), key) == SpentSince(b, ws, client, key)
  {
    UpsertRefinesRollover(t, ws, client);
    MemoryIsSumSinceBoundary(RowOrUnspent(t, client), ws, client, key);
  }

  // --- The ledger in memory ---------------------------------------------------------------------

  /** `Forget` is the deletion of a client, which leaves its row alone; `Restart` forgets every client. */
  datatype LedgerOp = Event(w: Write) | Read(client: string, periodKey: int) | Forget(client: string) | Restart

  function Writes(ops: seq<LedgerOp>): seq<Write> {
    if ops == [] then []
    else Writes(ops[..|ops| - 1]) + if ops[|ops| - 1].Event? then [ops[|ops| - 1].w] else []
  }

  predicate Forgets(op: LedgerOp, client: string) {
    op.Restart? || op == Forget(client)
  }

  function Stepped(b: Balance, op: LedgerOp, client: string): Balance {
    match op
    case Event(w) => Written(b, w, client)
    case Read(c, key) => if c == client then Rolled(b, key) else b
    case Forget(c) => if c == client then UNSPENT else b
    case Restart => UNSPENT
  }

  /** The in-memory state of a client when reads, which roll it over, and losses come between the events. */
  function Ledger(ops: seq<LedgerOp>, client: string): Balance {
    if ops == [] then UNSPENT else Stepped(Ledger(ops[..|ops| - 1], client), ops[|ops| - 1], client)
  }

  /** What the table still holds for `key` and memory does not: a read under another key, a deletion and a restart
    each forget all that the table holds, and it stays forgotten until a write closes that period.  `b` is the row
    the table started with. */
  function Forgotten(b: Balance, ops: seq<LedgerOp>, client: string, key: int): real {
    if ops == [] then SpentIn(b, key)
    else
      var rest, op := ops[..|ops| - 1], ops[|ops| - 1];
      if Forgets(op, client) || (op.Read? && op.client == client && op.periodKey != key) then
        SpentSince(b, Writes(rest), client, key)
      else if op.Event? && Touches(op.w, client) && (op.w.ResetClientSpend? || op.w.periodKey != key) then 0.0
      else Forgotten(b, rest, client, key)
  }

  lemma WritesSoFar(ops: seq<LedgerOp>, op: LedgerOp)
    ensures Writes(ops + [op]) == if op.Event? then Writes(ops) + [op.w] else Writes(ops)
  {
    assert (ops + [op])[..|ops|] == ops;
  }

  lemma SinceStep(b: Balance, ops: seq<LedgerOp>, client: string, key: int)
    requires ops != []
    ensures var op, before := ops[|ops| - 1], SpentSince(b, Writes(ops[..|ops| - 1]), client, key);
            SpentSince(b, Writes(ops), client, key)
            == if !(op.Event? && Touches(op.w, client)) then before
               else if op.w.ClientSpend? && op.w.periodKey == key then before + op.w.cost
               else 0.0
  {
    var rest, op := ops[..|ops| - 1], ops[|ops| - 1];
    WritesSoFar(rest, op);
    assert ops == rest + [op];
    if op.Event? {
      assert Writes(ops)[..|Writes(ops)| - 1] == Writes(rest);
    }
  }

  lemma {:induction false} LedgerIsSumLessForgotten(b: Balance, ops: seq<LedgerOp>, client: string, key: int)
    ensures SpentIn(Ledger(ops, client), key)
            == SpentSince(b, Writes(ops), client, key) - Forgotten(b, ops, client, key)
  {
    if ops != [] {
      hide SpentSince, Writes;
      LedgerIsSumLessForgotten(b, ops[..|ops| - 1], client, key);
      SinceStep(b, ops, client, key);
    }
  }

  /** Main result, for every run, every period and any tables at its start: memory answers what the table answers less
    what memory has forgotten.  So a process that keeps spend in memory and one that keeps it in the table enforce the
    same budget exactly when what is forgotten comes to nothing. */
  lemma MemoryIsTableLessForgotten(t: Tables, ops: seq<LedgerOp>, client: string, key: int)
    ensures SpentIn(Ledger(ops, client), key)
            == RowSpent(After(t, Writes(ops)), client, key) - Forgotten(RowOrUnspent(t, client), ops, client, key)
  {
    LedgerIsSumLessForgotten(RowOrUnspent(t, client), ops, client, key);
    BalanceIsSumSinceBoundary(t, Writes(ops), client, key);
  }

  function WithoutReads(ops: seq<LedgerOp>): seq<LedgerOp> {
    if ops == [] then []
    else WithoutReads(ops[..|ops| - 1]) + if ops[|ops| - 1].Read? then [] else [ops[|ops| - 1]]
  }

  /** Period keys of the client never go back, and end at `key` or before. */
  predicate KeysUpTo(ops: seq<LedgerOp>, client: string, key: int) {
    ops == [] ||
    var rest, op := ops[..|ops| - 1], ops[|ops| - 1];
    if op.Read? && op.client == client then op.periodKey <= key && KeysUpTo(rest, client, op.periodKey)
    else if op.Event? && Touches(op.w, client) then op.w.periodKey <= key && KeysUpTo(rest, client, op.w.periodKey)
    else KeysUpTo(rest, client, key)
  }

  lemma LedgerWithoutReads(ops: seq<LedgerOp>, client: string)
    requires ops != []
    ensures var before, op := Ledger(WithoutReads(ops[..|ops| - 1]), client), ops[|ops| - 1];
            Ledger(WithoutReads(ops), client) == if op.Read? then before else Stepped(before, op, client)
  {
    var rest, op := ops[..|ops| - 1], ops[|ops| - 1];
    if op.Read? {
      assert WithoutReads(ops) == WithoutReads(rest);
    } else {
      assert WithoutReads(ops)[..|WithoutReads(ops)| - 1] == WithoutReads(rest);
    }
  }

  lemma {:induction false} NothingAhead(ops: seq<LedgerOp>, client: string, upTo: int, key: int)
    requires KeysUpTo(ops, client, upTo) && upTo < key
    ensures SpentIn(Ledger(WithoutReads(ops), client), key) == 0.0
  {
    if ops != [] {
      var rest, op := ops[..|ops| - 1], ops[|ops| - 1];
      LedgerWithoutReads(ops, client);
      NothingAhead(rest, client, LastKey(op, client, upTo), key);
    }
  }

  /** The period key that bounds the ones before it. */
  function LastKey(op: LedgerOp, client: string, upTo: int): int {
    if op.Read? && op.client == client then op.periodKey
    else if op.Event? && Touches(op.w, client) then op.w.periodKey
    else upTo
  }

  /** While period keys never go back, as under one budget period, reads inserted anywhere change no answer, whatever
    is deleted or restarted. */
  lemma {:induction false} ReadsAreTransparent(ops: seq<LedgerOp>, client: string, upTo: int, key: int)
    requires KeysUpTo(ops, client, upTo) && upTo <= key
    ensures SpentIn(Ledger(ops, client), key) == SpentIn(Ledger(WithoutReads(ops), client), key)
  {
    if ops != [] {
      var rest, op := ops[..|ops| - 1], ops[|ops| - 1];
      var last := LastKey(op, client, upTo);
      LedgerWithoutReads(ops, client);
      ReadsAreTransparent(rest, client, last, key);
      if last < key {
        NothingAhead(rest, client, last, key);
      }
    }
  }

  lemma {:induction false} LedgerOfWrites(ops: seq<LedgerOp>, client: string)
    requires forall i | 0 <= i < |ops| :: !Forgets(ops[i], client)
    ensures Ledger(WithoutReads(ops), client) == InMemory(UNSPENT, Writes(ops), client)
  {
    if ops != [] {
      var rest, op := ops[..|ops| - 1], ops[|ops| - 1];
      LedgerOfWrites(rest, client);
      LedgerWithoutReads(ops, client);
      WritesSoFar(rest, op);
      assert ops == rest + [op];
      assert op.Event? ==> Writes(ops)[..|Writes(ops)| - 1] == Writes(rest);
    }
  }

  /** So for a new client of one budget period that is not deleted, both processes enforce one budget as long as the one
    that keeps it in memory runs. */
  lemma MemoryAgreesWithTable(t: Tables, ops: seq<LedgerOp>, client: string, upTo: int, key: int)
    requires client !in t.clientSpend && KeysUpTo(ops, client, upTo) && upTo <= key
    requires forall i | 0 <= i < |ops| :: !Forgets(ops[i], client)
    ensures SpentIn(Ledger(ops, client), key) == RowSpent(After(t, Writes(ops)), client, key)
  {
    ReadsAreTransparent(ops, client, upTo, key);
    LedgerOfWrites(ops, client);
    BalanceIsSumSinceBoundary(t, Writes(ops), client, key);
  }

  lemma OneSpend(client: string, key: int, ops: seq<LedgerOp>, op: LedgerOp)
    requires ops == [Event(ClientSpend(client, key, 5.0))] + [op] && !op.Event?
    ensures RowSpent(After(EMPTY, Writes(ops)), client, key) == 5.0
    ensures Ledger(ops, client) == Stepped(Balance(key, 5.0), op, client)
  {
    var spend := Event(ClientSpend(client, key, 5.0));
    WritesSoFar([], spend);
    WritesSoFar([spend], op);
    assert [] + [spend] == [spend] && [spend][..0] == [];
    assert Writes(ops) == [spend.w] && [spend.w][..0] == [];
    assert ops[..1] == [spend];
    assert Ledger([spend], client) == Stepped(UNSPENT, spend, client);
  }

  /** Keys do go back when the budget period of a client is changed.  Here it is Monthly in October 2025, Weekly for
    one read, and Monthly again: the table still knows of five dollars, memory of none. */
  lemma ChangedPeriodForgets(client: string, ops: seq<LedgerOp>)
    requires ops == [Event(ClientSpend(client, 24_310, 5.0))] + [Read(client, 2_910)]
    ensures SpentIn(Ledger(ops, client), 24_310) == 0.0
    ensures RowSpent(After(EMPTY, Writes(ops)), client, 24_310) == 5.0
  {
    OneSpend(client, 24_310, ops, Read(client, 2_910));
  }

  /** A client with a Total budget, deleted and created again under its name: its row has outlived it. */
  lemma DeletionForgets(client: string, ops: seq<LedgerOp>)
    requires ops == [Event(ClientSpend(client, 0, 5.0))] + [Forget(client)]
    ensures SpentIn(Ledger(ops, client), 0) == 0.0
    ensures RowSpent(After(EMPTY, Writes(ops)), client, 0) == 5.0
  {
    OneSpend(client, 0, ops, Forget(client));
  }

  // --- Delivery order -----------------------------------------------------------------------------

  /** What a write adds to the usage row of `key`. */
  function ToUsage(key: string): Write -> Totals {
    (w: Write) =>
      if w.Usage? && w.key == key then One(w.promptTokens, w.completionTokens, w.costUsd) else ZERO
  }

  /** What a write adds to the row of a client's day. */
  function ToDay(client: string, day: int): Write -> Totals {
    (w: Write) =>
      if w.DailyClientUsage? && w.client == client && w.day == day then
        One(w.promptTokens, w.completionTokens, w.costUsd)
      else ZERO
  }

  function Sum(ws: seq<Write>, amount: Write -> Totals): Totals {
    if ws == [] then ZERO else Plus(Sum(ws[..|ws| - 1], amount), amount(ws[|ws| - 1]))
  }

  function Row<K>(t: map<K, Totals>, k: K): Totals {
    if k in t then t[k] else Totals(0, 0, 0, 0.0)
  }

  /** A row has grown by the sum of what was written to it; there is one if there was one or something was written. */
  ghost predicate RowGrewBy<K>(before: map<K, Totals>, t: map<K, Totals>, k: K, total: Totals) {
    (k in t <==> k in before || total.requests > 0) && total.requests >= 0 && Row(t, k) == Plus(Row(before, k), total)
  }

  lemma ZeroIsNeutral(total: Totals)
    ensures Plus(total, ZERO) == total == Plus(ZERO, total)
  {
  }

  lemma PlusAssociates(a: Totals, b: Totals, c: Totals)
    ensures Plus(Plus(a, b), c) == Plus(a, Plus(b, c))
    ensures Plus(b, c).requests == b.requests + c.requests
  {
  }

  lemma AddToGrows<K>(before: map<K, Totals>, t: map<K, Totals>, k: K, total: Totals,
                      p: nat, c: nat, cost: Option<real>)
    requires RowGrewBy(before, t, k, total)
    ensures RowGrewBy(before, AddTo(t, k, p, c, cost), k, Plus(total, One(p, c, cost)))
  {
    hide Plus;
    PlusAssociates(Row(before, k), total, One(p, c, cost));
    ZeroIsNeutral(One(p, c, cost));
  }

  lemma AddToElsewhere<K>(before: map<K, Totals>, t: map<K, Totals>, k: K, at: K, total: Totals, p: nat, c: nat,
                          cost: Option<real>)
    requires RowGrewBy(before, t, at, total) && at != k
    ensures RowGrewBy(before, AddTo(t, k, p, c, cost), at, total)
  {
  }

  lemma {:induction false} UsageRowIsSum(t: Tables, ws: seq<Write>, key: string)
    ensures RowGrewBy(t.usageStats, After(t, ws).usageStats, key, Sum(ws, ToUsage(key)))
  {
    hide AddTo, RowGrewBy, Plus, One;
    if ws == [] {
      SameRow(t.usageStats, key);
    } else {
      var rest, w := ws[..|ws| - 1], ws[|ws| - 1];
      UsageRowIsSum(t, rest, key);
      var rows, total := After(t, rest).usageStats, Sum(rest, ToUsage(key));
      ZeroIsNeutral(total);
      if w.Usage? && w.key == key {
        AddToGrows(t.usageStats, rows, key, total, w.promptTokens, w.completionTokens, w.costUsd);
      } else if w.Usage? {
        AddToElsewhere(t.usageStats, rows, w.key, key, total, w.promptTokens, w.completionTokens, w.costUsd);
      }
    }
  }

  lemma SameRow<K>(t: map<K, Totals>, k: K)
    ensures RowGrewBy(t, t, k, ZERO)
  {
    hide Plus;
    ZeroIsNeutral(Row(t, k));
  }

  lemma {:induction false} DayRowIsSum(t: Tables, ws: seq<Write>, client: string, day: int)
    ensures RowGrewBy(t.dailyUsage, After(t, ws).dailyUsage, (client, day), Sum(ws, ToDay(client, day)))
  {
    hide AddTo, RowGrewBy, Plus, One;
    var k := (client, day);
    if ws == [] {
      SameRow(t.dailyUsage, k);
    } else {
      var rest, w := ws[..|ws| - 1], ws[|ws| - 1];
      DayRowIsSum(t, rest, client, day);
      var rows, total := After(t, rest).dailyUsage, Sum(rest, ToDay(client, day));
      ZeroIsNeutral(total);
      assert Sum(ws, ToDay(client, day)) == Plus(total, ToDay(client, day)(w));
      if w.DailyClientUsage? && w.client == client && w.day == day {
        AddToGrows(t.dailyUsage, rows, k, total, w.promptTokens, w.completionTokens, w.costUsd);
      } else if w.DailyClientUsage? {
        AddToElsewhere(t.dailyUsage, rows, (w.client, w.day), k, total, w.promptTokens, w.completionTokens, w.costUsd);
      }
    }
  }

  // --- Column by column -----------------------------------------------------------------------------

  /** The writes that record one request. */
  type RequestWrite = w: Write | w.Usage? || w.DailyClientUsage? witness Usage("", 0, 0, None)

  /** The writes to the usage row of `key`. */
  function UsagesOf(ws: seq<Write>, key: string): seq<RequestWrite> {
    if ws == [] then []
    else
      var before, w := UsagesOf(ws[..|ws| - 1], key), ws[|ws| - 1];
      if w.Usage? && w.key == key then before + [w] else before
  }

  /** The writes to the row of a client's day. */
  function DaysOf(ws: seq<Write>, client: string, day: int): seq<RequestWrite> {
    if ws == [] then []
    else
      var before, w := DaysOf(ws[..|ws| - 1], client, day), ws[|ws| - 1];
      if w.DailyClientUsage? && w.client == client && w.day == day then before + [w] else before
  }

  function PromptSum(ws: seq<RequestWrite>): nat {
    if ws == [] then 0 else PromptSum(ws[..|ws| - 1]) + ws[|ws| - 1].promptTokens
  }

  function CompletionSum(ws: seq<RequestWrite>): nat {
    if ws == [] then 0 else CompletionSum(ws[..|ws| - 1]) + ws[|ws| - 1].completionTokens
  }

  /** A request whose price is unknown costs nothing. */
  function CostSum(ws: seq<RequestWrite>): real {
    if ws == [] then 0.0
    else
      var usd := ws[|ws| - 1].costUsd;
      CostSum(ws[..|ws| - 1]) + if usd.Some? then usd.value else 0.0
  }

  /** A row has one more request for each of `ws`, and its columns have grown by the sums of theirs. */
  ghost predicate ColumnsGrewBy<K>(before: map<K, Totals>, t: map<K, Totals>, k: K, ws: seq<RequestWrite>) {
    && (k in t <==> k in before || ws != [])
    && Row(t, k).requests == Row(before, k).requests + |ws|
    && Row(t, k).promptTokens == Row(before, k).promptTokens + PromptSum(ws)
    && Row(t, k).completionTokens == Row(before, k).completionTokens + CompletionSum(ws)
    && Row(t, k).costUsd == Row(before, k).costUsd + CostSum(ws)
  }

  lemma NoGrowth<K>(t: map<K, Totals>, k: K)
    ensures ColumnsGrewBy(t, t, k, [])
  {
  }

  lemma OneMoreWrite<K>(before: map<K, Totals>, t: map<K, Totals>, k: K, ws: seq<RequestWrite>,
                        w: RequestWrite)
    requires ColumnsGrewBy(before, t, k, ws)
    ensures ColumnsGrewBy(before, AddTo(t, k, w.promptTokens, w.completionTokens, w.costUsd), k, ws + [w])
  {
    assert (ws + [w])[..|ws|] == ws;
  }

  lemma OtherRow<K>(t: map<K, Totals>, k: K, at: K, w: RequestWrite)
    requires at != k
    ensures var t' := AddTo(t, k, w.promptTokens, w.completionTokens, w.costUsd);
            (at in t' <==> at in t) && Row(t', at) == Row(t, at)
  {
  }

  /** Main result: a usage row counts the requests written to its key, and its prompt tokens, completion tokens and cost
    are the sums of theirs, on top of what it held. */
  lemma {:induction false} UsageColumnsAreSums(t: Tables, ws: seq<Write>, key: string)
    ensures ColumnsGrewBy(t.usageStats, After(t, ws).usageStats, key, UsagesOf(ws, key))
  {
    hide ColumnsGrewBy, AddTo;
    if ws == [] {
      NoGrowth(t.usageStats, key);
    } else {
      var rest, w := ws[..|ws| - 1], ws[|ws| - 1];
      UsageColumnsAreSums(t, rest, key);
      if w.Usage? {
        var rows := After(t, rest).usageStats;
        if w.key == key {
          OneMoreWrite(t.usageStats, rows, key, UsagesOf(rest, key), w);
        } else {
          OtherRow(rows, w.key, key, w);
          SameColumns(t.usageStats, rows, After(t, ws).usageStats, key, UsagesOf(rest, key));
        }
      }
    }
  }

  lemma SameColumns<K>(before: map<K, Totals>, t: map<K, Totals>, t': map<K, Totals>, k: K,
                       ws: seq<RequestWrite>)
    requires ColumnsGrewBy(before, t, k, ws) && (k in t' <==> k in t) && Row(t', k) == Row(t, k)
    ensures ColumnsGrewBy(before, t', k, ws)
  {
  }

  /** The same for the row of a client's day. */
  lemma {:induction false} DayColumnsAreSums(t: Tables, ws: seq<Write>, client: string, day: int)
    ensures ColumnsGrewBy(t.dailyUsage, After(t, ws).dailyUsage, (client, day), DaysOf(ws, client, day))
  {
    hide ColumnsGrewBy, AddTo;
    var k := (client, day);
    if ws == [] {
      NoGrowth(t.dailyUsage, k);
    } else {
      var rest, w := ws[..|ws| - 1], ws[|ws| - 1];
      DayColumnsAreSums(t, rest, client, day);
      if w.DailyClientUsage? {
        var rows := After(t, rest).dailyUsage;
        if w.client == client && w.day == day {
          OneMoreWrite(t.dailyUsage, rows, k, DaysOf(rest, client, day), w);
        } else {
          OtherRow(rows, (w.client, w.day), k, w);
          SameColumns(t.dailyUsage, rows, After(t, ws).dailyUsage, k, DaysOf(rest, client, day));
        }
      }
    }
  }

  // --- Any order -----------------------------------------------------------------------------------

  lemma {:induction false} SumWithout(ws: seq<Write>, i: nat, amount: Write -> Totals)
    requires i < |ws|
    ensures Sum(ws, amount) == Plus(Sum(ws[..i] + ws[i + 1..], amount), amount(ws[i]))
  {
    var n := |ws| - 1;
    var others := ws[..i] + ws[i + 1..];
    if i == n {
      assert others == ws[..n];
    } else {
      SumWithout(ws[..n], i, amount);
      assert others[..n - 1] == ws[..n][..i] + ws[..n][i + 1..];
      assert others[n - 1] == ws[n];
    }
  }

  lemma WithoutOne<T>(s: seq<T>, i: nat)
    requires i < |s|
    ensures multiset(s[..i] + s[i + 1..]) == multiset(s) - multiset{s[i]}
  {
    assert s == s[..i] + [s[i]] + s[i + 1..];
  }

  lemma {:induction false} SumIgnoresOrder(a: seq<Write>, b: seq<Write>, amount: Write -> Totals)
    requires multiset(a) == multiset(b)
    ensures Sum(a, amount) == Sum(b, amount)
    decreases a
  {
    if a == [] {
      assert |multiset(b)| == |multiset(a)| == 0;
    } else {
      var n := |a| - 1;
      assert a[n] in multiset(b);
      var i :| 0 <= i < |b| && b[i] == a[n];
      WithoutOne(a, n);
      WithoutOne(b, i);
      assert a[..n] == a[..n] + a[n + 1..];
      SumWithout(b, i, amount);
      SumIgnoresOrder(a[..n], b[..i] + b[i + 1..], amount);
    }
  }

  lemma SameGrowth<K>(before: map<K, Totals>, a: map<K, Totals>, b: map<K, Totals>, k: K, total: Totals)
    requires RowGrewBy(before, a, k, total) && RowGrewBy(before, b, k, total)
    ensures k in a <==> k in b
    ensures k in a ==> a[k] == b[k]
  {
  }

  /** Main result: whatever the tables held, the usage tables do not depend on the order in which writes arrive, so
    every interleaving of the tasks and processes that share a database ends in the same rows. */
  lemma UsageIgnoresDeliveryOrder(t: Tables, a: seq<Write>, b: seq<Write>)
    requires multiset(a) == multiset(b)
    ensures After(t, a).usageStats == After(t, b).usageStats
    ensures After(t, a).dailyUsage == After(t, b).dailyUsage
  {
    var ta, tb := After(t, a), After(t, b);
    forall key: string
      ensures key in ta.usageStats <==> key in tb.usageStats
      ensures key in ta.usageStats ==> ta.usageStats[key] == tb.usageStats[key]
    {
      UsageRowIsSum(t, a, key);
      UsageRowIsSum(t, b, key);
      SumIgnoresOrder(a, b, ToUsage(key));
      SameGrowth(t.usageStats, ta.usageStats, tb.usageStats, key, Sum(a, ToUsage(key)));
    }
    forall k: (string, int)
      ensures k in ta.dailyUsage <==> k in tb.dailyUsage
      ensures k in ta.dailyUsage ==> ta.dailyUsage[k] == tb.dailyUsage[k]
    {
      DayRowIsSum(t, a, k.0, k.1);
      DayRowIsSum(t, b, k.0, k.1);
      SumIgnoresOrder(a, b, ToDay(k.0, k.1));
      SameGrowth(t.dailyUsage, ta.dailyUsage, tb.dailyUsage, k, Sum(a, ToDay(k.0, k.1)));
    }
  }

  /** What a write adds to the spend of a client, whatever the period. */
  function ToSpend(client: string): Write -> Totals {
    (w: Write) => if w.ClientSpend? && w.client == client then Totals(1, 0, 0, w.cost) else ZERO
  }

  ghost predicate OnePeriod(ws: seq<Write>, client: string) {
    forall v, w | v in ws && w in ws && Touches(v, client) && Touches(w, client) :: v.periodKey == w.periodKey
  }

  /** There is no reset, or nothing that a reset could take away. */
  ghost predicate ResetsTakeNothing(ws: seq<Write>, client: string) {
    forall v, w | v in ws && w in ws && Touches(v, client) && Touches(w, client) ::
      v.ResetClientSpend? && w.ClientSpend? ==> w.cost == 0.0
  }

  ghost predicate PeriodIs(ws: seq<Write>, client: string, key: int) {
    forall w | w in ws && Touches(w, client) :: w.periodKey == key
  }

  lemma SoFar(ws: seq<Write>)
    requires ws != []
    ensures ws[|ws| - 1] in ws && forall w :: w in ws[..|ws| - 1] ==> w in ws
    ensures forall w | w in ws :: w == ws[|ws| - 1] || w in ws[..|ws| - 1]
  {
  }

  lemma SumStep(ws: seq<Write>, client: string)
    requires ws != []
    ensures var w := ws[|ws| - 1];
            Sum(ws, ToSpend(client)).costUsd == Sum(ws[..|ws| - 1], ToSpend(client)).costUsd
            + if w.ClientSpend? && w.client == client then w.cost else 0.0
  {
  }

  /** Without resets everything is added up. */
  lemma {:induction false} OnePeriodIsSum(b: Balance, ws: seq<Write>, client: string, key: int)
    requires PeriodIs(ws, client, key) && forall w | w in ws && Touches(w, client) :: w.ClientSpend?
    ensures SpentIn(InMemory(b, ws, client), key) == SpentIn(b, key) + Sum(ws, ToSpend(client)).costUsd
  {
    if ws != [] {
      SoFar(ws);
      OnePeriodIsSum(b, ws[..|ws| - 1], client, key);
      SumStep(ws, client);
    }
  }

  /** With a reset, and spends that cost nothing, nothing is left, not even of what was there before. */
  lemma {:induction false} ResetLeavesNothing(b: Balance, ws: seq<Write>, client: string, key: int, reset: Write)
    requires PeriodIs(ws, client, key) && reset in ws && reset.ResetClientSpend? && Touches(reset, client)
    requires forall w | w in ws && Touches(w, client) && w.ClientSpend? :: w.cost == 0.0
    ensures InMemory(b, ws, client) == Balance(key, 0.0)
  {
    var rest, w := ws[..|ws| - 1], ws[|ws| - 1];
    SoFar(ws);
    if !Touches(w, client) || w.ClientSpend? {
      ResetLeavesNothing(b, rest, client, key, reset);
    }
  }

  lemma {:induction false} TouchedHasKey(b: Balance, ws: seq<Write>, client: string, key: int)
    requires PeriodIs(ws, client, key) && Touched(ws, client)
    ensures InMemory(b, ws, client).periodKey == key
  {
    var rest, w := ws[..|ws| - 1], ws[|ws| - 1];
    SoFar(ws);
    if !Touches(w, client) {
      var i :| 0 <= i < |ws| && Touches(ws[i], client);
      assert Touches(rest[i], client);
      TouchedHasKey(b, rest, client, key);
    }
  }

  lemma {:induction false} UntouchedStays(b: Balance, ws: seq<Write>, client: string)
    requires forall w | w in ws :: !Touches(w, client)
    ensures InMemory(b, ws, client) == b
  {
    if ws != [] {
      SoFar(ws);
      UntouchedStays(b, ws[..|ws| - 1], client);
    }
  }

  /** The client's row in tables that held `t`. */
  function RowOf(t: Tables, ws: seq<Write>, client: string): Option<Balance> {
    if client in After(t, ws).clientSpend then Some(After(t, ws).clientSpend[client]) else None
  }

  lemma RowIsMemory(t: Tables, ws: seq<Write>, client: string)
    ensures RowOf(t, ws, client)
            == if client in t.clientSpend || Touched(ws, client) then
                 Some(InMemory(RowOrUnspent(t, client), ws, client))
               else None
  {
    UpsertRefinesRollover(t, ws, client);
  }

  /** All other writes. */
  lemma Others(ws: seq<Write>, w: Write) returns (rest: seq<Write>)
    requires w in ws
    ensures multiset(ws) == multiset(rest) + multiset{w}
  {
    var i :| 0 <= i < |ws| && ws[i] == w;
    rest := ws[..i] + ws[i + 1..];
    assert ws == ws[..i] + [w] + ws[i + 1..];
  }

  /** A write delivered last decides the period; a reset leaves nothing. */
  lemma LastDecides(t: Tables, rest: seq<Write>, client: string, w: Write)
    requires Touches(w, client)
    ensures var row := RowOf(t, rest + [w], client);
            row.Some? && row.value.periodKey == w.periodKey && (w.ResetClientSpend? ==> row.value.spentUsd == 0.0)
  {
    var p := rest + [w];
    assert p[|p| - 1] == w;
    RowIsMemory(t, p, client);
  }

  /** Just after a reset of its period, a spend leaves its own cost. */
  lemma ResetThenSpend(t: Tables, rest: seq<Write>, client: string, reset: Write, w: Write)
    requires Touches(reset, client) && reset.ResetClientSpend?
    requires Touches(w, client) && w.ClientSpend? && w.periodKey == reset.periodKey
    ensures RowOf(t, rest + [reset] + [w], client) == Some(Balance(w.periodKey, w.cost))
  {
    var p := rest + [reset] + [w];
    assert p[..|p| - 1] == rest + [reset];
    assert p[|p| - 1] == w;
    RowIsMemory(t, p, client);
  }

  lemma SameMembers(ws: seq<Write>, p: seq<Write>)
    requires multiset(p) == multiset(ws)
    ensures forall w :: w in p <==> w in ws
  {
    forall w: Write
      ensures w in p <==> w in ws
    {
      assert w in p <==> w in multiset(p);
      assert w in ws <==> w in multiset(ws);
    }
  }

  lemma TouchedByMember(ws: seq<Write>, client: string)
    ensures Touched(ws, client) <==> exists w :: w in ws && Touches(w, client)
  {
    if Touched(ws, client) {
      var i :| 0 <= i < |ws| && Touches(ws[i], client);
      assert ws[i] in ws;
    }
    if w :| w in ws && Touches(w, client) {
      var i :| 0 <= i < |ws| && ws[i] == w;
      assert Touches(ws[i], client);
    }
  }

  lemma SettledBalance(b: Balance, ws: seq<Write>, p: seq<Write>, client: string)
    requires OnePeriod(ws, client) && ResetsTakeNothing(ws, client)
    requires multiset(p) == multiset(ws) && forall w :: w in p <==> w in ws
    ensures InMemory(b, p, client) == InMemory(b, ws, client)
  {
    TouchedByMember(ws, client);
    TouchedByMember(p, client);
    if reset :| reset in ws && Touches(reset, client) && reset.ResetClientSpend? {
      ResetLeavesNothing(b, ws, client, reset.periodKey, reset);
      ResetLeavesNothing(b, p, client, reset.periodKey, reset);
    } else if w :| w in ws && Touches(w, client) {
      TouchedHasKey(b, ws, client, w.periodKey);
      TouchedHasKey(b, p, client, w.periodKey);
      OnePeriodIsSum(b, ws, client, w.periodKey);
      OnePeriodIsSum(b, p, client, w.periodKey);
      SumIgnoresOrder(p, ws, ToSpend(client));
    } else {
      UntouchedStays(b, ws, client);
      UntouchedStays(b, p, client);
    }
  }

  lemma SettledRow(t: Tables, ws: seq<Write>, p: seq<Write>, client: string)
    requires OnePeriod(ws, client) && ResetsTakeNothing(ws, client) && multiset(p) == multiset(ws)
    ensures RowOf(t, p, client) == RowOf(t, ws, client)
  {
    hide InMemory, After, OnePeriod, ResetsTakeNothing;
    SameMembers(ws, p);
    TouchedByMember(ws, client);
    TouchedByMember(p, client);
    RowIsMemory(t, ws, client);
    RowIsMemory(t, p, client);
    SettledBalance(RowOrUnspent(t, client), ws, p, client);
  }

  /** Two orders that end in different periods. */
  lemma TwoPeriodsRace(t: Tables, ws: seq<Write>, client: string, v: Write, w: Write)
    returns (p: seq<Write>, q: seq<Write>)
    requires v in ws && w in ws && Touches(v, client) && Touches(w, client) && v.periodKey != w.periodKey
    ensures multiset(p) == multiset(q) == multiset(ws) && RowOf(t, p, client) != RowOf(t, q, client)
  {
    hide RowOf;
    p := Others(ws, v);
    LastDecides(t, p, client, v);
    p := p + [v];
    q := Others(ws, w);
    LastDecides(t, q, client, w);
    q := q + [w];
  }

  /** Two orders that end with different amounts. */
  lemma ResetAndSpendRace(t: Tables, ws: seq<Write>, client: string, reset: Write, w: Write)
    returns (p: seq<Write>, q: seq<Write>)
    requires reset in ws && Touches(reset, client) && reset.ResetClientSpend?
    requires w in ws && Touches(w, client) && w.ClientSpend? && w.cost != 0.0 && w.periodKey == reset.periodKey
    ensures multiset(p) == multiset(q) == multiset(ws) && RowOf(t, p, client) != RowOf(t, q, client)
  {
    hide RowOf;
    var others := Others(ws, reset);
    assert w in multiset(others) + multiset{reset};
    var rest := Others(others, w);
    LastDecides(t, others, client, reset);
    ResetThenSpend(t, rest, client, reset, w);
    p, q := others + [reset], rest + [reset] + [w];
  }

  /** Main result: whatever the tables held, a client's spend row is the same for every delivery order of any writes
    exactly when its writes are all for one period and no reset comes with a spend it could take away.  Across a
    rollover the period that arrives last wins, and a spend counts only if it arrives after the reset. */
  lemma SpendIgnoresDeliveryOrderIff(t: Tables, ws: seq<Write>, client: string)
    ensures OnePeriod(ws, client) && ResetsTakeNothing(ws, client)
            <==> (forall p: seq<Write> | multiset(p) == multiset(ws) :: RowOf(t, p, client) == RowOf(t, ws, client))
  {
    hide RowOf;
    if OnePeriod(ws, client) && ResetsTakeNothing(ws, client) {
      forall p: seq<Write> | multiset(p) == multiset(ws)
        ensures RowOf(t, p, client) == RowOf(t, ws, client)
      {
        SettledRow(t, ws, p, client);
      }
    } else if !OnePeriod(ws, client) {
      var v, w :| v in ws && w in ws && Touches(v, client) && Touches(w, client) && v.periodKey != w.periodKey;
      var p, q := TwoPeriodsRace(t, ws, client, v, w);
    } else {
      var v, w :| v in ws && w in ws && Touches(v, client) && Touches(w, client)
                  && v.ResetClientSpend? && w.ClientSpend? && w.cost != 0.0;
      var p, q := ResetAndSpendRace(t, ws, client, v, w);
    }
  }

  /** A reset and a spend of one period that race: the row ends at zero or at five dollars. */
  lemma ResetRaces(t: Tables, client: string)
    ensures var spend, reset := ClientSpend(client, 1, 5.0), ResetClientSpend(client, 1);
            && RowOf(t, [spend] + [reset], client) == Some(Balance(1, 0.0))
            && RowOf(t, [reset] + [spend], client) == Some(Balance(1, 5.0))
  {
    var spend, reset := ClientSpend(client, 1, 5.0), ResetClientSpend(client, 1);
    LastDecides(t, [spend], client, reset);
    ResetThenSpend(t, [], client, reset, spend);
    assert [] + [reset] == [reset];
  }

  // --- Budget events --------------------------------------------------------------------------------

  /** Recording this spend after `ops` fires the event of `limit`: the budget, or its warning amount. */
  predicate Fires(ops: seq<LedgerOp>, w: Write, limit: real)
    requires w.ClientSpend?
  {
    var before := SpentIn(Ledger(ops, w.client), w.periodKey);
    before < limit <= before + w.cost
  }

  /** How often it has fired since the client's spend was last cleared, by a reset, a change of period, a deletion or a
    restart. */
  function FiredSince(ops: seq<LedgerOp>, client: string, key: int, limit: real): nat {
    if ops == [] then 0
    else
      var rest, op := ops[..|ops| - 1], ops[|ops| - 1];
      if Forgets(op, client) || (op.Read? && op.client == client && op.periodKey != key) then 0
      else if !(op.Event? && Touches(op.w, client)) then FiredSince(rest, client, key, limit)
      else if op.w.ClientSpend? && op.w.periodKey == key then
        FiredSince(rest, client, key, limit) + if Fires(rest, op.w, limit) then 1 else 0
      else 0
  }

  /** Main result: at every point of every run, the event has fired once since the client's spend was last cleared if
    the spend has reached the limit, and not at all if not. */
  lemma {:induction false} LimitFiresOnce(ops: seq<LedgerOp>, client: string, key: int, limit: real)
    requires forall i | 0 <= i < |ops| && ops[i].Event? && ops[i].w.ClientSpend? :: ops[i].w.cost >= 0.0
    ensures SpentIn(Ledger(ops, client), key) >= 0.0
    ensures FiredSince(ops, client, key, limit)
            == if 0.0 < limit <= SpentIn(Ledger(ops, client), key) then 1 else 0
  {
    if ops != [] {
      LimitFiresOnce(ops[..|ops| - 1], client, key, limit);
    }
  }
}
