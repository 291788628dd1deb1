/** The exact-match response cache (`ResponseCache` in `cache.rs`): a hash map with a TTL checked on reads, beside
  a queue of keys in insertion order that decides evictions.

  A read that finds an expired entry removes it from the map but not from the queue, so the queue can hold
  stale and repeated keys.  Instants are integers of some fixed unit. */
module ResponseCache {
  import opened Numbers
  import opened Options

  type Key = n: int | 0 <= n < 0x1_0000_0000_0000_0000

  datatype Entry<V> = Entry(insertedAt: int, response: V)

  datatype State<V> = State(order: seq<Key>, entries: map<Key, Entry<V>>)

  datatype Config = Config(ttl: nat, maxEntries: nat) {
    function Capacity(): (n: nat)
      ensures n >= 1
    {
      AtLeastOne(maxEntries)
    }
  }

  /** `elapsed` is zero for an instant that is not in the past. */
  function Age(e: Entry, now: int): int {
    if now >= e.insertedAt then now - e.insertedAt else 0
  }

  // --- The operations -------------------------------------------------------------------

  /** A read removes the entry it finds expired. */
  predicate Drops<V>(c: Config, st: State<V>, key: Key, now: int) {
    key in st.entries && Age(st.entries[key], now) > c.ttl
  }

  function Got<V>(c: Config, st: State<V>, key: Key, now: int): (State<V>, Option<V>) {
    if key !in st.entries then (st, None)
    else if Drops(c, st, key, now) then (st.(entries := st.entries - {key}), None)
    else (st, Some(st.entries[key].response))
  }

  function Inserted<V>(c: Config, st: State<V>, key: Key, response: V, now: int): State<V> {
    if key in st.entries then st.(entries := st.entries[key := Entry(now, response)])
    else
      var order := st.order + [key];
      if |order| > c.Capacity() then
        State(order[1..], (st.entries - {order[0]})[key := Entry(now, response)])
      else
        State(order, st.entries[key := Entry(now, response)])
  }

  class Cache<V(!new)> {
    const config: Config
    var order: seq<Key>
    var entries: map<Key, Entry<V>>

    ghost function Contents(): State<V>
      reads this
    {
      State(order, entries)
    }

    constructor (config: Config)
      ensures this.config == config && Contents() == State([], map[])
    {
      this.config := config;
      order := [];
      entries := map[];
    }

    method Get(key: Key, now: int) returns (response: Option<V>)
      modifies this
      ensures (Contents(), response) == Got(config, old(Contents()), key, now)
    {
      if key !in entries {
        return None;
      }
      var e := entries[key];
      if Age(e, now) > config.ttl {
        entries := entries - {key};
        return None;
      }
      return Some(e.response);
    }

    method Insert(key: Key, response: V, now: int)
      modifies this
      ensures Contents() == Inserted(config, old(Contents()), key, response, now)
    {
      if key !in entries {
        order := order + [key];
        if |order| > config.Capacity() {
          var oldest := order[0];
          order := order[1..];
          entries := entries - {oldest};
        }
      }
      entries := entries[key := Entry(now, response)];
    }
  }

  // --- Runs ---------------------------------------------------------------------------------

  datatype Op<V> = Get(key: Key, now: int) | Insert(key: Key, response: V, now: int)

  function Applied<V>(c: Config, st: State<V>, op: Op<V>): State<V> {
    match op
    case Get(key, now) => Got(c, st, key, now).0
    case Insert(key, response, now) => Inserted(c, st, key, response, now)
  }

  /** The state of a new cache after a run. */
  function After<V>(c: Config, ops: seq<Op<V>>): State<V> {
    if ops == [] then State([], map[]) else Applied(c, After(c, ops[..|ops| - 1]), ops[|ops| - 1])
  }

  /** The last insert of a run under `key`. */
  function LatestInsert<V>(ops: seq<Op<V>>, key: Key): Option<Entry<V>> {
    if ops == [] then None
    else
      var op := ops[|ops| - 1];
      if op.Insert? && op.key == key then Some(Entry(op.now, op.response)) else LatestInsert(ops[..|ops| - 1], key)
  }

  /** The queue holds every key of the map, within the capacity. */
  ghost predicate Bounded<V>(c: Config, st: State<V>) {
    && |st.order| <= c.Capacity()
    && forall k | k in st.entries :: k in st.order
  }

  lemma {:induction false} KeysFit(keys: set<Key>, order: seq<Key>)
    requires forall k | k in keys :: k in order
    ensures |keys| <= |order|
    decreases order
  {
    if order == [] {
      assert keys == {};
    } else {
      assert order == [order[0]] + order[1..];
      KeysFit(keys - {order[0]}, order[1..]);
      assert |keys| <= |keys - {order[0]}| + 1;
    }
  }

  /** As many keys as queue positions: every position holds a key of its own. */
  lemma {:induction false} FullQueue(keys: set<Key>, order: seq<Key>)
    requires forall k | k in keys :: k in order
    requires |keys| == |order|
    ensures forall i, j | 0 <= i < j < |order| :: order[i] != order[j]
    ensures forall k | k in order :: k in keys
    decreases order
  {
    if order != [] {
      var head, rest := order[0], order[1..];
      assert order == [head] + rest;
      KeysFit(keys - {head}, rest);
      assert head in keys;
      if head in rest {
        KeysFit(keys, rest);
      }
      FullQueue(keys - {head}, rest);
    }
  }

  /** Main result, for every run under any clock: the map stays inside the queue, both stay within the capacity,
    and what the map holds for a key is the latest insert under that key. */
  lemma {:induction false} RunsAreBounded<V>(c: Config, ops: seq<Op<V>>)
    ensures Bounded(c, After(c, ops))
    ensures |After(c, ops).entries| <= c.Capacity()
    ensures forall k | k in After(c, ops).entries :: Some(After(c, ops).entries[k]) == LatestInsert(ops, k)
  {
    if ops != [] {
      var op := ops[|ops| - 1];
      RunsAreBounded(c, ops[..|ops| - 1]);
      AppliedIsBounded(c, After(c, ops[..|ops| - 1]), op);
    }
    KeysFit(After(c, ops).entries.Keys, After(c, ops).order);
  }

  lemma PushedMembers(order: seq<Key>, key: Key)
    ensures var pushed := order + [key];
            && (forall k :: k in pushed <==> k in order || k == key)
            && (forall k :: k in pushed <==> k == pushed[0] || k in pushed[1..])
            && (order != [] ==> key in pushed[1..])
  {
    var pushed := order + [key];
    assert pushed == [pushed[0]] + pushed[1..];
    if order != [] {
      assert pushed[1..][|order| - 1] == key;
    }
  }

  lemma AppliedIsBounded<V>(c: Config, st: State<V>, op: Op<V>)
    requires Bounded(c, st)
    ensures Bounded(c, Applied(c, st, op))
  {
    if op.Insert? && op.key !in st.entries {
      PushedMembers(st.order, op.key);
    }
  }

  // --- First in, first out ---------------------------------------------------------------------

  /** The queue lists each key of the map once and nothing else. */
  ghost predicate InStep<V>(st: State<V>) {
    && (forall i, j | 0 <= i < j < |st.order| :: st.order[i] != st.order[j])
    && (forall k :: k in st.order <==> k in st.entries)
  }

  lemma {:induction false} DistinctKeysCount(order: seq<Key>, keys: set<Key>)
    requires forall i, j | 0 <= i < j < |order| :: order[i] != order[j]
    requires forall k :: k in order <==> k in keys
    ensures |keys| == |order|
    decreases order
  {
    if order == [] {
      assert keys == {};
    } else {
      assert order == [order[0]] + order[1..];
      DistinctKeysCount(order[1..], keys - {order[0]});
    }
  }

  /** Two lengths decide it. */
  lemma InStepIffSizesAgree<V>(c: Config, st: State<V>)
    requires Bounded(c, st)
    ensures InStep(st) <==> |st.entries| == |st.order|
  {
    if InStep(st) {
      DistinctKeysCount(st.order, st.entries.Keys);
    } else if |st.entries| == |st.order| {
      FullQueue(st.entries.Keys, st.order);
    }
  }

  /** A read of an entry older than the TTL. */
  predicate DropsOnRead<V>(c: Config, st: State<V>, op: Op<V>) {
    op.Get? && op.key in st.entries && op.now - st.entries[op.key].insertedAt > c.ttl
  }

  lemma DropLeavesStaleKey<V>(st: State<V>, key: Key)
    requires InStep(st) && key in st.entries
    ensures !InStep(st.(entries := st.entries - {key}))
  {
    var st' := st.(entries := st.entries - {key});
    assert key in st'.order && key !in st'.entries;
  }

  lemma PushKeepsStep<V>(c: Config, st: State<V>, key: Key, response: V, now: int)
    requires InStep(st) && key !in st.entries
    ensures InStep(Inserted(c, st, key, response, now))
  {
    PushedMembers(st.order, key);
  }

  lemma ReplaceKeepsStep<V>(st: State<V>, key: Key, e: Entry<V>)
    requires InStep(st) && key in st.entries
    ensures InStep(st.(entries := st.entries[key := e]))
  {
  }

  /** Queue and map stay in step through one operation exactly when it is not a read of an expired entry. */
  lemma OnlyDropsBreakStep<V>(c: Config, st: State<V>, op: Op<V>)
    requires Bounded(c, st) && InStep(st)
    ensures InStep(Applied(c, st, op)) <==> !DropsOnRead(c, st, op)
  {
    hide InStep;
    match op
    case Get(key, now) =>
      if DropsOnRead(c, st, op) {
        DropLeavesStaleKey(st, key);
      }
    case Insert(key, response, now) =>
      if key in st.entries {
        ReplaceKeepsStep(st, key, Entry(now, response));
      } else {
        PushKeepsStep(c, st, key, response, now);
      }
  }

  /** No read of the run dropped an entry. */
  predicate NoDrops<V>(c: Config, ops: seq<Op<V>>) {
    ops == [] || (NoDrops(c, ops[..|ops| - 1]) && !DropsOnRead(c, After(c, ops[..|ops| - 1]), ops[|ops| - 1]))
  }

  /** The reference: a list of at most `capacity` entries, oldest first.  Inserting under a listed key replaces
    its entry in place; otherwise the entry joins at the end and the oldest one makes room. */
  type Fifo<V> = seq<(Key, Entry<V>)>

  function IndexOf<V>(f: Fifo<V>, key: Key): (i: nat)
    ensures i <= |f|
    ensures i < |f| ==> f[i].0 == key
    ensures forall j | 0 <= j < i :: f[j].0 != key
  {
    if f == [] then 0 else if f[0].0 == key then 0 else 1 + IndexOf(f[1..], key)
  }

  function FifoInserted<V>(f: Fifo<V>, capacity: nat, key: Key, e: Entry<V>): Fifo<V> {
    var i := IndexOf(f, key);
    if i < |f| then f[i := (key, e)]
    else
      var longer := f + [(key, e)];
      if |longer| > capacity then longer[1..] else longer
  }

  function FifoAfter<V>(c: Config, ops: seq<Op<V>>): Fifo<V> {
    if ops == [] then []
    else
      var f := FifoAfter(c, ops[..|ops| - 1]);
      match ops[|ops| - 1]
      case Get(_, _) => f
      case Insert(key, response, now) => FifoInserted(f, c.Capacity(), key, Entry(now, response))
  }

  ghost predicate Matches<V>(st: State<V>, f: Fifo<V>) {
    && |st.order| == |f|
    && (forall i | 0 <= i < |f| :: st.order[i] == f[i].0 && f[i].0 in st.entries && st.entries[f[i].0] == f[i].1)
  }

  /** Queue and map together are the list. */
  ghost predicate Represents<V>(st: State<V>, f: Fifo<V>) {
    Matches(st, f) && InStep(st)
  }

  lemma ReplaceRepresents<V>(c: Config, st: State<V>, f: Fifo<V>, key: Key, response: V, now: int)
    requires Represents(st, f) && key in st.entries
    ensures Matches(Inserted(c, st, key, response, now), FifoInserted(f, c.Capacity(), key, Entry(now, response)))
  {
  }

  lemma PushRepresents<V>(c: Config, st: State<V>, f: Fifo<V>, key: Key, response: V, now: int)
    requires Represents(st, f) && key !in st.entries
    ensures Matches(Inserted(c, st, key, response, now), FifoInserted(f, c.Capacity(), key, Entry(now, response)))
  {
    hide InStep;
    assert forall j | 0 <= j < |f| :: st.order[j] != key;
    assert IndexOf(f, key) == |f|;
    var longer, order := f + [(key, Entry(now, response))], st.order + [key];
    assert forall j | 0 <= j < |longer| :: order[j] == longer[j].0;
    if |order| > c.Capacity() {
      assert forall j | 1 <= j < |f| :: order[j] != order[0] by {
        DistinctOrder(st);
      }
    }
  }

  lemma DistinctOrder<V>(st: State<V>)
    requires InStep(st)
    ensures forall i, j | 0 <= i < j < |st.order| :: st.order[i] != st.order[j]
  {
  }

  lemma InsertRepresents<V>(c: Config, st: State<V>, f: Fifo<V>, key: Key, response: V, now: int)
    requires Bounded(c, st) && Represents(st, f)
    ensures Represents(Inserted(c, st, key, response, now), FifoInserted(f, c.Capacity(), key, Entry(now, response)))
  {
    hide Inserted, FifoInserted, InStep;
    OnlyDropsBreakStep(c, st, Insert(key, response, now));
    if key in st.entries {
      ReplaceRepresents(c, st, f, key, response, now);
    } else {
      PushRepresents(c, st, f, key, response, now);
    }
  }

  /** Main result: while no read has dropped an expired entry, the cache is exactly the bounded first-in
    first-out list of entries. */
  lemma {:induction false} CacheIsFifoWithoutDrops<V>(c: Config, ops: seq<Op<V>>)
    requires NoDrops(c, ops)
    ensures Represents(After(c, ops), FifoAfter(c, ops))
  {
    if ops != [] {
      var rest, op := ops[..|ops| - 1], ops[|ops| - 1];
      CacheIsFifoWithoutDrops(c, rest);
      RunsAreBounded(c, rest);
      if op.Insert? {
        InsertRepresents(c, After(c, rest), FifoAfter(c, rest), op.key, op.response, op.now);
      }
    }
  }

  ghost predicate IsFifo<V>(c: Config, ops: seq<Op<V>>) {
    Represents(After(c, ops), FifoAfter(c, ops))
  }

  lemma NoDropsIsFifo<V>(c: Config, ops: seq<Op<V>>)
    requires NoDrops(c, ops)
    ensures IsFifo(c, ops)
  {
    CacheIsFifoWithoutDrops(c, ops);
  }

  lemma DropEndsFifo<V>(c: Config, ops: seq<Op<V>>, op: Op<V>)
    requires IsFifo(c, ops) && IsFifo(c, ops + [op])
    ensures !DropsOnRead(c, After(c, ops), op)
  {
    hide Applied, DropsOnRead, Matches, FifoAfter;
    RunsAreBounded(c, ops);
    OnlyDropsBreakStep(c, After(c, ops), op);
    assert (ops + [op])[..|ops|] == ops;
  }

  /** Main result: the cache is that list at every point of a run exactly when no read of the run drops an entry. */
  lemma {:induction false} CacheIsFifoIffNoDrops<V>(c: Config, ops: seq<Op<V>>)
    ensures NoDrops(c, ops) <==> (forall n: nat | n <= |ops| :: IsFifo(c, ops[..n]))
  {
    hide IsFifo, DropsOnRead;
    assert ops[..|ops|] == ops;
    if NoDrops(c, ops) {
      NoDropsIsFifo(c, ops);
    }
    if ops != [] {
      var rest, op := ops[..|ops| - 1], ops[|ops| - 1];
      CacheIsFifoIffNoDrops(c, rest);
      assert rest[..|rest|] == rest && ops == rest + [op];
      assert forall n: nat | n <= |rest| :: ops[..n] == rest[..n];
      if IsFifo(c, rest) && IsFifo(c, ops) {
        DropEndsFifo(c, rest, op);
      }
    }
  }

  /** A run by its state so far. */
  lemma OneMoreOp<V>(c: Config, ops: seq<Op<V>>, op: Op<V>)
    ensures After(c, ops + [op]) == Applied(c, After(c, ops), op)
    ensures FifoAfter(c, ops + [op])
            == if op.Get? then FifoAfter(c, ops)
               else FifoInserted(FifoAfter(c, ops), c.Capacity(), op.key, Entry(op.now, op.response))
    ensures LatestInsert(ops + [op], 1)
            == if op.Insert? && op.key == 1 then Some(Entry(op.now, op.response)) else LatestInsert(ops, 1)
  {
  }

  /** Without the hypothesis it is not: a key dropped on a read and inserted again stands twice in the queue, and
    the eviction of the first copy takes the new entry along, although only one other key came after it. */
  lemma StaleKeyEvictsNewEntry<V>(c: Config, a: V, b: V)
    requires c == Config(10, 2)
    ensures var ops := [Insert(1, a, 0), Get(1, 11)] + [Insert(1, b, 11)] + [Insert(2, a, 11)];
            && LatestInsert(ops, 1) == Some(Entry(11, b))
            && Got(c, After(c, ops), 1, 11).1 == None
            && |FifoAfter(c, ops)| == 2 && FifoAfter(c, ops)[0] == (1, Entry(11, b))
  {
    var first: seq<Op<V>> := [Insert(1, a, 0)];
    var two := first + [Get(1, 11)];
    var three := two + [Insert(1, b, 11)];
    assert [] + first == first;
    assert two == [Insert(1, a, 0), Get(1, 11)];
    OneMoreOp(c, [], Insert(1, a, 0));
    OneMoreOp(c, first, Get(1, 11));
    OneMoreOp(c, two, Insert(1, b, 11));
    OneMoreOp(c, three, Insert(2, a, 11));
    var none: State<V> := State([], map[]);
    StaleStates(c, none, a, b);
    StaleFifo(c.Capacity(), a, b);
  }

  lemma StaleStates<V>(c: Config, none: State<V>, a: V, b: V)
    requires c == Config(10, 2) && none == State([], map[])
    ensures var dropped := Got(c, Inserted(c, none, 1, a, 0), 1, 11).0;
            1 !in Inserted(c, Inserted(c, dropped, 1, b, 11), 2, a, 11).entries
  {
  }

  lemma StaleFifo<V>(capacity: nat, a: V, b: V)
    requires capacity == 2
    ensures FifoInserted(FifoInserted(FifoInserted([], capacity, 1, Entry(0, a)), capacity, 1, Entry(11, b)),
                         capacity, 2, Entry(11, a))
            == [(1, Entry(11, b)), (2, Entry(11, a))]
  {
  }

  // --- What every run keeps, drops or not ----------------------------------------------------------

  predicate Pushed<V>(c: Config, st: State<V>, op: Op<V>) {
    op.Insert? && op.key !in st.entries
  }

  /** Every key that ever joined the queue, in order. */
  function Pushes<V>(c: Config, ops: seq<Op<V>>): seq<Key> {
    if ops == [] then []
    else
      var rest, op := ops[..|ops| - 1], ops[|ops| - 1];
      Pushes(c, rest) + if Pushed(c, After(c, rest), op) then [op.key] else []
  }

  function Popped<V>(c: Config, ops: seq<Op<V>>): nat {
    if |Pushes(c, ops)| <= c.Capacity() then 0 else |Pushes(c, ops)| - c.Capacity()
  }

  /** The queue is the end of that log. */
  lemma {:induction false} QueueIsEndOfLog<V>(c: Config, ops: seq<Op<V>>)
    ensures After(c, ops).order == Pushes(c, ops)[Popped(c, ops)..]
  {
    if ops != [] {
      QueueIsEndOfLog(c, ops[..|ops| - 1]);
    }
  }

  /** Position of the last push of `key`, or -1. */
  function LastPush(p: seq<Key>, key: Key): (i: int)
    ensures -1 <= i < |p|
  {
    if p == [] then -1 else if p[|p| - 1] == key then |p| - 1 else LastPush(p[..|p| - 1], key)
  }

  /** A read has dropped the entry of `key` after its last push. */
  predicate DroppedSincePush<V>(c: Config, ops: seq<Op<V>>, key: Key) {
    ops != [] &&
    var rest, op := ops[..|ops| - 1], ops[|ops| - 1];
    if op.key == key && Pushed(c, After(c, rest), op) then false
    else (op.key == key && DropsOnRead(c, After(c, rest), op)) || DroppedSincePush(c, rest, key)
  }

  /** One of the positions `from` to `to - 1` of the log holds `key`. */
  ghost predicate Among(p: seq<Key>, from: int, to: int, key: Key)
    requires to <= |p|
  {
    exists j | 0 <= j < to && from <= j :: p[j] == key
  }

  /** The eviction of some copy of `key`, stale or not, came after its last push. */
  ghost predicate PoppedSincePush<V>(c: Config, ops: seq<Op<V>>, key: Key) {
    var p := Pushes(c, ops);
    Among(p, LastPush(p, key) + 1 - c.Capacity(), Popped(c, ops), key)
  }

  lemma LastPushAppended(p: seq<Key>, k: Key, key: Key)
    ensures LastPush(p + [k], key) == if k == key then |p| else LastPush(p, key)
  {
  }

  lemma AmongGrows(p: seq<Key>, k: Key, from: int, to: nat, key: Key)
    requires to <= |p|
    ensures Among(p + [k], from, to, key) <==> Among(p, from, to, key)
    ensures Among(p + [k], from, to + 1, key) <==> Among(p, from, to, key) || (from <= to && (p + [k])[to] == key)
  {
    if Among(p, from, to, key) {
      var j :| 0 <= j < to && from <= j && p[j] == key;
      assert (p + [k])[j] == key;
    }
    if Among(p + [k], from, to, key) {
      var j :| 0 <= j < to && from <= j && (p + [k])[j] == key;
      assert p[j] == key;
    }
    if Among(p + [k], from, to + 1, key) {
      var j :| 0 <= j < to + 1 && from <= j && (p + [k])[j] == key;
      assert j < to ==> p[j] == key;
    }
  }

  /** A push of `k` evicts what stands at the front of a full queue, and nothing else. */
  lemma PushEvicts<V>(c: Config, ops: seq<Op<V>>, op: Op<V>, key: Key)
    requires Pushed(c, After(c, ops), op)
    ensures var st, p' := After(c, ops), Pushes(c, ops) + [op.key];
            var st' := Applied(c, st, op);
            key in st'.entries <==>
            key == op.key || (key in st.entries && !(|p'| > c.Capacity() && p'[Popped(c, ops)] == key))
  {
    QueueIsEndOfLog(c, ops);
    var st, p' := After(c, ops), Pushes(c, ops) + [op.key];
    assert |p'| > c.Capacity() ==> (st.order + [op.key])[0] == p'[Popped(c, ops)];
  }

  /** Exactly when a key of any run is in the cache. */
  lemma {:induction false} PresentIff<V>(c: Config, ops: seq<Op<V>>, key: Key)
    ensures key in After(c, ops).entries <==>
            LastPush(Pushes(c, ops), key) >= 0
            && !DroppedSincePush(c, ops, key)
            && !PoppedSincePush(c, ops, key)
  {
    hide Among, LastPush;
    if ops == [] {
      NeverPushed(key);
    } else {
      var rest, op := ops[..|ops| - 1], ops[|ops| - 1];
      var st, p := After(c, rest), Pushes(c, rest);
      PresentIff(c, rest, key);
      if Pushed(c, st, op) {
        PushEvicts(c, rest, op, key);
        LastPushAppended(p, op.key, key);
        AmongGrows(p, op.key, LastPush(p, key) + 1 - c.Capacity(), Popped(c, rest), key);
        NothingAmong(p + [op.key], |p| + 1 - c.Capacity(), Popped(c, ops), key);
      } else {
        assert Pushes(c, ops) == p;
      }
    }
  }

  lemma NeverPushed(key: Key)
    ensures LastPush([], key) == -1
  {
  }

  lemma NothingAmong(p: seq<Key>, from: int, to: int, key: Key)
    requires to <= |p| && to <= (if from > 0 then from else 0)
    ensures !Among(p, from, to, key)
  {
  }

  /** A read drops an entry exactly when that is older than the TTL. */
  lemma DropsIffOlder<V>(c: Config, st: State<V>, key: Key, now: int)
    ensures var (st', response) := Got(c, st, key, now);
            && (key in st.entries && now - st.entries[key].insertedAt > c.ttl ==>
                  st'.entries == st.entries - {key} && response == None)
            && (key in st.entries && now - st.entries[key].insertedAt <= c.ttl ==>
                  st' == st && response == Some(st.entries[key].response))
            && (key !in st.entries ==> st' == st && response == None)
            && st'.order == st.order
  {
  }

  /** Main result: a lookup after any run hits exactly when the key was pushed, no read has dropped its entry and no
    eviction has taken a copy of it since, and its latest insert is at most the TTL old; the hit is that insert. */
  lemma LookupHitsIff<V>(c: Config, ops: seq<Op<V>>, key: Key, now: int)
    ensures var hit := Got(c, After(c, ops), key, now).1;
            var latest := LatestInsert(ops, key);
            && (hit.Some? <==> LastPush(Pushes(c, ops), key) >= 0 && !DroppedSincePush(c, ops, key)
                               && !PoppedSincePush(c, ops, key)
                               && latest.Some? && now - latest.value.insertedAt <= c.ttl)
            && (hit.Some? ==> hit.value == latest.value.response)
  {
    PresentIff(c, ops, key);
    RunsAreBounded(c, ops);
  }
}
