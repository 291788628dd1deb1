/** The inbound and outbound rate limiter (`rate_limit.rs`): one lazily refilled token bucket for each key.

  Tokens, rates and clock readings are exact reals instead of `f64` and `Instant`. */
module RateLimit {
  import opened Numbers
  import opened Options

  datatype Status = Status(limit: U32, remaining: U32, resetSecs: real, retryAfterSecs: real)

  datatype Result = Ok(status: Status) | Err(status: Status)

  /** The value of a `TokenBucket`. */
  datatype Bucket = Bucket(capacity: real, tokens: real, lastRefill: real)

  // --- What one bucket does -----------------------------------------------------------

  /** `duration_since` is zero when the argument is the later instant. */
  function Elapsed(since: real, now: real): real {
    if now >= since then now - since else 0.0
  }

  function Min(a: real, b: real): real {
    if b < a then b else a
  }

  /** Rust's `as u32` on a float: toward zero, saturating. */
  function AsU32(x: real): U32 {
    if x < 0.0 then 0 else if x.Floor >= U32_LIMIT then U32_LIMIT - 1 else x.Floor
  }

  function Fresh(capacity: real, now: real): Bucket {
    Bucket(capacity, capacity, now)
  }

  function Refilled(b: Bucket, now: real): Bucket {
    Bucket(b.capacity, Min(b.tokens + Elapsed(b.lastRefill, now) * (b.capacity / 60.0), b.capacity), now)
  }

  function ResetSecs(b: Bucket): real {
    if b.capacity <= 0.0 then 0.0 else (b.capacity - b.tokens) / (b.capacity / 60.0)
  }

  function Acquired(b: Bucket, now: real): (Bucket, Result) {
    var r := Refilled(b, now);
    var limit := AsU32(if b.capacity >= 0.0 then b.capacity else 0.0);
    if r.tokens >= 1.0 then
      var left := r.(tokens := r.tokens - 1.0);
      (left, Ok(Status(limit, AsU32(left.tokens), ResetSecs(left), 0.0)))
    else if r.capacity <= 0.0 then
      (r, Err(Status(limit, 0, 60.0, 60.0)))
    else
      (r, Err(Status(limit, 0, ResetSecs(r), (1.0 - r.tokens) / (r.capacity / 60.0))))
  }

  class TokenBucket {
    var capacity: real
    var tokens: real
    var lastRefill: real

    ghost function State(): Bucket
      reads this
    {
      Bucket(capacity, tokens, lastRefill)
    }

    constructor (capacity: real, now: real)
      ensures State() == Fresh(capacity, now)
    {
      this.capacity := capacity;
      this.tokens := capacity;
      this.lastRefill := now;
    }

    method Refill(now: real)
      modifies this
      ensures State() == Refilled(old(State()), now)
    {
      var elapsedSecs := Elapsed(lastRefill, now);
      lastRefill := now;
      tokens := Min(tokens + elapsedSecs * (capacity / 60.0), capacity);
    }

    function ResetSeconds(): real
      reads this
      ensures ResetSeconds() == ResetSecs(State())
    {
      if capacity <= 0.0 then 0.0 else (capacity - tokens) / (capacity / 60.0)
    }

    method TryAcquire(now: real) returns (result: Result)
      modifies this
      ensures State() == Acquired(old(State()), now).0 && result == Acquired(old(State()), now).1
    {
      Refill(now);
      var limit := AsU32(if capacity >= 0.0 then capacity else 0.0);
      if tokens >= 1.0 {
        tokens := tokens - 1.0;
        var reset := ResetSeconds();
        result := Ok(Status(limit, AsU32(tokens), reset, 0.0));
      } else if capacity <= 0.0 {
        result := Err(Status(limit, 0, 60.0, 60.0));
      } else {
        var reset := ResetSeconds();
        result := Err(Status(limit, 0, reset, (1.0 - tokens) / (capacity / 60.0)));
      }
    }
  }

  // --- The limiter -------------------------------------------------------------------------

  datatype Event = Check(key: string, rpm: U32, now: real)

  type Table = map<string, Bucket>

  function BucketFor(t: Table, e: Event): Bucket {
    if e.key in t then t[e.key] else Fresh(e.rpm as real, e.now)
  }

  function Step(t: Table, e: Event): (Table, Result) {
    var (b, result) := Acquired(BucketFor(t, e), e.now);
    (t[e.key := b], result)
  }

  class RateLimiter {
    var buckets: map<string, TokenBucket>

    ghost predicate Valid()
      reads this
    {
      forall j, k | j in buckets && k in buckets && buckets[j] == buckets[k] :: j == k
    }

    ghost function Contents(): Table
      reads this, buckets.Values
    {
      map k | k in buckets :: buckets[k].State()
    }

    constructor ()
      ensures Valid() && Contents() == map[]
    {
      buckets := map[];
    }

    method Check(key: string, rpm: U32, now: real) returns (result: Result)
      requires Valid()
      modifies this, buckets.Values
      ensures Valid()
      ensures (Contents(), result) == Step(old(Contents()), Event.Check(key, rpm, now))
    {
      ghost var b := BucketFor(Contents(), Event.Check(key, rpm, now));
      if key !in buckets {
        var bucket := new TokenBucket(rpm as real, now);
        buckets := buckets[key := bucket];
      }
      assert Contents() == old(Contents())[key := b];
      result := buckets[key].TryAcquire(now);
      assert Contents() == old(Contents())[key := Acquired(b, now).0];
    }
  }

  // --- Whole runs ----------------------------------------------------------------------------

  function Outcomes(t: Table, es: seq<Event>): (os: seq<Result>)
    ensures |os| == |es|
    decreases es
  {
    if es == [] then [] else [Step(t, es[0]).1] + Outcomes(Step(t, es[0]).0, es[1..])
  }

  function After(t: Table, es: seq<Event>): Table
    decreases es
  {
    if es == [] then t else After(Step(t, es[0]).0, es[1..])
  }

  /** A monotone clock: no reading is before `from` or before an earlier reading. */
  ghost predicate Timely(es: seq<Event>, from: real) {
    && (forall i | 0 <= i < |es| :: from <= es[i].now)
    && (forall i, j | 0 <= i < j < |es| :: es[i].now <= es[j].now)
  }

  /** Capacities are whole numbers, and the bucket is neither overdrawn nor overfull. */
  ghost predicate ValidBucket(b: Bucket, now: real) {
    && (b.capacity == 0.0 || b.capacity >= 1.0)
    && 0.0 <= b.tokens <= b.capacity
    && b.lastRefill <= now
  }

  ghost predicate ValidTable(t: Table, now: real) {
    forall k | k in t :: ValidBucket(t[k], now)
  }

  lemma Distribute(a: real, b: real, r: real)
    ensures (a + b) * r == a * r + b * r
  {
  }

  lemma ProductSign(a: real, r: real)
    requires a >= 0.0 && r >= 0.0
    ensures a * r >= 0.0
  {
  }

  lemma AcquiredIsValid(b: Bucket, now: real)
    requires ValidBucket(b, now)
    ensures ValidBucket(Acquired(b, now).0, now)
    ensures Acquired(b, now).0.capacity == b.capacity
  {
    ProductSign(Elapsed(b.lastRefill, now), b.capacity / 60.0);
  }

  lemma StepIsValid(t: Table, e: Event, from: real)
    requires ValidTable(t, from) && from <= e.now
    ensures ValidTable(Step(t, e).0, e.now)
  {
    AcquiredIsValid(BucketFor(t, e), e.now);
  }

  /** Every run keeps every bucket within bounds, and no key ever changes its capacity. */
  lemma {:induction false} RunsKeepBounds(t: Table, es: seq<Event>, from: real, end: real)
    requires ValidTable(t, from) && Timely(es, from) && from <= end
    requires forall i | 0 <= i < |es| :: es[i].now <= end
    ensures ValidTable(After(t, es), end)
    ensures forall k | k in t :: k in After(t, es) && After(t, es)[k].capacity == t[k].capacity
    decreases es
  {
    if es != [] {
      StepIsValid(t, es[0], from);
      AcquiredIsValid(BucketFor(t, es[0]), es[0].now);
      RunsKeepBounds(Step(t, es[0]).0, es[1..], es[0].now, end);
    }
  }

  // --- Admissions per key --------------------------------------------------------------------------

  function Admitted(t: Table, es: seq<Event>, key: string): nat
    decreases es
  {
    if es == [] then 0
    else
      var (t', result) := Step(t, es[0]);
      (if es[0].key == key && result.Ok? then 1 else 0) + Admitted(t', es[1..], key)
  }

  /** The tokens held now and the refill still to come until `end`. */
  function Potential(b: Bucket, end: real): real {
    b.tokens + (end - b.lastRefill) * (b.capacity / 60.0)
  }

  lemma RefillGainsNothing(b: Bucket, now: real, end: real)
    requires ValidBucket(b, now) && now <= end
    ensures Potential(Refilled(b, now), end) <= Potential(b, end)
  {
    Distribute(now - b.lastRefill, end - now, b.capacity / 60.0);
  }

  lemma AcquireTakesOne(b: Bucket, now: real)
    ensures var r, (b', result) := Refilled(b, now), Acquired(b, now);
            b' == if result.Ok? then r.(tokens := r.tokens - 1.0) else r
  {
    hide Refilled, ResetSecs, AsU32;
  }

  lemma OneTokenLess(b: Bucket, end: real)
    ensures Potential(b.(tokens := b.tokens - 1.0), end) == Potential(b, end) - 1.0
  {
  }

  /** One check never gains potential, and an admission costs one token of it. */
  lemma AdmissionIsPaid(b: Bucket, now: real, end: real)
    requires ValidBucket(b, now) && now <= end
    ensures var (b', result) := Acquired(b, now);
            Potential(b', end) + (if result.Ok? then 1.0 else 0.0) <= Potential(b, end)
  {
    hide Acquired, Refilled, Potential;
    RefillGainsNothing(b, now, end);
    AcquireTakesOne(b, now);
    OneTokenLess(Refilled(b, now), end);
  }

  lemma PotentialIsSigned(b: Bucket, end: real)
    requires ValidBucket(b, end)
    ensures Potential(b, end) >= 0.0
    ensures Potential(Refilled(b, end), end) <= b.capacity
  {
    ProductSign(end - b.lastRefill, b.capacity / 60.0);
  }

  lemma {:induction false} PotentialPaysForAdmissions(t: Table, es: seq<Event>, key: string, from: real, end: real)
    requires key in t && ValidTable(t, from) && Timely(es, from) && from <= end
    requires forall i | 0 <= i < |es| :: es[i].now <= end
    ensures Admitted(t, es, key) as real <= Potential(t[key], end)
    decreases es
  {
    if es == [] {
      PotentialIsSigned(t[key], end);
    } else {
      StepIsValid(t, es[0], from);
      AdmissionIsPaid(BucketFor(t, es[0]), es[0].now, end);
      PotentialPaysForAdmissions(Step(t, es[0]).0, es[1..], key, es[0].now, end);
    }
  }

  /** Splitting a wait in two changes nothing. */
  lemma RefillComposes(b: Bucket, now: real, later: real)
    requires ValidBucket(b, now) && now <= later
    ensures Refilled(Refilled(b, now), later) == Refilled(b, later)
  {
    var rate := b.capacity / 60.0;
    Distribute(now - b.lastRefill, later - now, rate);
    ProductSign(now - b.lastRefill, rate);
    ProductSign(later - now, rate);
  }

  lemma AcquireAfterRefill(b: Bucket, now: real, later: real)
    requires ValidBucket(b, now) && now <= later
    ensures Acquired(Refilled(b, now), later) == Acquired(b, later)
  {
    RefillComposes(b, now, later);
  }

  /** Refilling a bucket early, as a rejected check does, changes no outcome of any later run. */
  lemma {:induction false} EarlyRefillIsTransparent(t: Table, es: seq<Event>, key: string, from: real)
    requires key in t && ValidBucket(t[key], from) && Timely(es, from)
    ensures Outcomes(t[key := Refilled(t[key], from)], es) == Outcomes(t, es)
    ensures Admitted(t[key := Refilled(t[key], from)], es, key) == Admitted(t, es, key)
    decreases es
  {
    if es != [] {
      var e := es[0];
      var u := t[key := Refilled(t[key], from)];
      if e.key == key {
        AcquireAfterRefill(t[key], from, e.now);
        assert Step(u, e).0 == Step(t, e).0;
      } else {
        var t' := Step(t, e).0;
        assert Step(u, e).0 == t'[key := Refilled(t'[key], from)];
        EarlyRefillIsTransparent(t', es[1..], key, from);
      }
    }
  }

  /** What a bucket of this capacity may admit between two instants. */
  function Allowance(capacity: real, from: real, end: real): real {
    capacity + (end - from) * (capacity / 60.0)
  }

  lemma AllowanceShrinks(capacity: real, from: real, now: real, end: real)
    requires 0.0 <= capacity && from <= now
    ensures Allowance(capacity, now, end) <= Allowance(capacity, from, end)
  {
    Distribute(now - from, end - now, capacity / 60.0);
    ProductSign(now - from, capacity / 60.0);
  }

  lemma RefillIsCapped(b: Bucket, from: real, end: real)
    requires ValidBucket(b, from)
    ensures ValidBucket(Refilled(b, from), from)
    ensures Potential(Refilled(b, from), end) <= Allowance(b.capacity, from, end)
  {
    ProductSign(from - b.lastRefill, b.capacity / 60.0);
  }

  lemma OpenBucketIsBounded(t: Table, es: seq<Event>, key: string, from: real, end: real)
    requires key in t && ValidTable(t, from) && Timely(es, from) && from <= end
    requires forall i | 0 <= i < |es| :: es[i].now <= end
    ensures Admitted(t, es, key) as real <= Allowance(t[key].capacity, from, end)
  {
    hide Step, Admitted, Potential, Refilled;
    EarlyRefillIsTransparent(t, es, key, from);
    RefillIsCapped(t[key], from, end);
    PotentialPaysForAdmissions(t[key := Refilled(t[key], from)], es, key, from, end);
  }

  lemma FreshPotential(capacity: real, now: real, end: real)
    ensures Potential(Fresh(capacity, now), end) == Allowance(capacity, now, end)
  {
  }

  lemma NewBucketIsBounded(t: Table, es: seq<Event>, end: real)
    requires es != [] && es[0].key !in t && ValidTable(t, es[0].now) && Timely(es, es[0].now) && es[0].now <= end
    requires forall i | 0 <= i < |es| :: es[i].now <= end
    ensures Admitted(t, es, es[0].key) as real <= Allowance(es[0].rpm as real, es[0].now, end)
  {
    hide Acquired, Potential;
    var e := es[0];
    var first := Fresh(e.rpm as real, e.now);
    assert Potential(first, end) == Allowance(first.capacity, e.now, end) by {
      FreshPotential(first.capacity, e.now, end);
    }
    StepIsValid(t, e, e.now);
    AdmissionIsPaid(first, e.now, end);
    PotentialPaysForAdmissions(Step(t, e).0, es[1..], e.key, e.now, end);
  }

  /** Main result: in any window of any run, a key is admitted at most its capacity plus the refill of the
    window, whatever is done to other keys. */
  lemma {:induction false} AdmissionsAreBounded(t: Table, es: seq<Event>, key: string, from: real, end: real)
    requires ValidTable(t, from) && Timely(es, from) && from <= end
    requires forall i | 0 <= i < |es| :: es[i].now <= end
    ensures var t' := After(t, es);
            if key in t' then Admitted(t, es, key) as real <= Allowance(t'[key].capacity, from, end)
            else Admitted(t, es, key) == 0
    decreases es
  {
    hide Acquired, Allowance, Refilled;
    RunsKeepBounds(t, es, from, end);
    if key in t {
      OpenBucketIsBounded(t, es, key, from, end);
    } else if es != [] {
      var e := es[0];
      var t' := Step(t, e).0;
      StepIsValid(t, e, from);
      if e.key == key {
        NewBucketIsBounded(t, es, end);
        AcquiredIsValid(Fresh(e.rpm as real, e.now), e.now);
        RunsKeepBounds(t', es[1..], e.now, end);
        AllowanceShrinks(e.rpm as real, from, e.now, end);
      } else {
        AdmissionsAreBounded(t', es[1..], key, e.now, end);
        if key in After(t', es[1..]) {
          AllowanceShrinks(After(t', es[1..])[key].capacity, from, e.now, end);
        }
      }
    }
  }

  // --- Rejected checks -------------------------------------------------------------------------------

  /** The first check of `key` in `es`, if any, names a positive rate. */
  predicate OpensWithPositiveRate(es: seq<Event>, key: string) {
    es != [] && (if es[0].key == key then es[0].rpm > 0 else OpensWithPositiveRate(es[1..], key))
  }

  /** A bucket opened with rate 0 stands in for no bucket until a check would open it with another rate. */
  lemma {:induction false} ZeroBucketIsTransparentIff(t: Table, es: seq<Event>, key: string, from: real)
    requires key !in t && Timely(es, from)
    ensures Outcomes(t[key := Bucket(0.0, 0.0, from)], es) == Outcomes(t, es) <==> !OpensWithPositiveRate(es, key)
    decreases es
  {
    if es != [] {
      var e := es[0];
      var u := t[key := Bucket(0.0, 0.0, from)];
      if e.key == key {
        if e.rpm == 0 {
          assert Step(u, e).0 == Step(t, e).0;
        }
        assert Outcomes(u, es)[0] == Step(u, e).1 && Outcomes(t, es)[0] == Step(t, e).1;
      } else {
        var t', u' := Step(t, e).0, Step(u, e).0;
        assert u' == t'[key := Bucket(0.0, 0.0, from)];
        ZeroBucketIsTransparentIff(t', es[1..], key, from);
        assert Outcomes(u, es)[1..] == Outcomes(u', es[1..]) && Outcomes(t, es)[1..] == Outcomes(t', es[1..]);
      }
    }
  }

  lemma {:induction false} RunsConcat(t: Table, pre: seq<Event>, post: seq<Event>)
    ensures Outcomes(t, pre + post) == Outcomes(t, pre) + Outcomes(After(t, pre), post)
    ensures After(t, pre + post) == After(After(t, pre), post)
    decreases pre
  {
    if pre == [] {
      assert pre + post == post;
    } else {
      assert (pre + post)[1..] == pre[1..] + post;
      RunsConcat(Step(t, pre[0]).0, pre[1..], post);
    }
  }

  /** A rejected check only refills its bucket; one that opens a bucket opens it with rate 0. */
  lemma RejectedStep(t: Table, e: Event)
    requires ValidTable(t, e.now) && Step(t, e).1.Err?
    ensures Step(t, e).0
            == t[e.key := if e.key in t then Refilled(t[e.key], e.now) else Bucket(0.0, 0.0, e.now)]
  {
  }

  /** The same, for a rejected check at the head of a run. */
  lemma RejectedHeadIsTransparentIff(t: Table, e: Event, post: seq<Event>, from: real)
    requires ValidTable(t, from) && from <= e.now && Timely(post, e.now)
    requires Step(t, e).1.Err?
    ensures Outcomes(Step(t, e).0, post) == Outcomes(t, post)
            <==> e.key in t || !OpensWithPositiveRate(post, e.key)
  {
    hide Step, Refilled;
    RejectedStep(t, e);
    if e.key in t {
      EarlyRefillIsTransparent(t, post, e.key, e.now);
    } else {
      ZeroBucketIsTransparentIff(t, post, e.key, e.now);
    }
  }

  lemma DeletedOutcome<T>(pre: seq<T>, o: T, post: seq<T>, other: seq<T>)
    ensures var kept := pre + ([o] + post);
            kept[..|pre|] + kept[|pre| + 1..] == pre + other <==> post == other
  {
    var kept := pre + ([o] + post);
    assert kept[..|pre|] == pre && kept[|pre| + 1..] == post;
    assert (pre + post)[|pre|..] == post && (pre + other)[|pre|..] == other;
  }

  lemma SplitTimely(pre: seq<Event>, e: Event, post: seq<Event>, from: real)
    requires Timely(pre + ([e] + post), from)
    ensures from <= e.now && Timely(pre, from) && Timely(post, e.now)
    ensures forall i | 0 <= i < |pre| :: pre[i].now <= e.now
  {
    var run := pre + ([e] + post);
    assert e == run[|pre|];
    assert forall i | 0 <= i < |pre| :: pre[i] == run[i];
    assert forall i | 0 <= i < |post| :: post[i] == run[|pre| + 1 + i];
  }

  /** Main result: deleting a rejected check from a run leaves every other outcome as it was, except when that
    check opened its bucket and the next check of the key would have opened it with a positive rate. */
  lemma RejectedCheckIsTransparentIff(t: Table, pre: seq<Event>, e: Event, post: seq<Event>, from: real)
    requires ValidTable(t, from) && Timely(pre + ([e] + post), from)
    requires Step(After(t, pre), e).1.Err?
    ensures var kept, deleted := Outcomes(t, pre + ([e] + post)), Outcomes(t, pre + post);
            kept[..|pre|] + kept[|pre| + 1..] == deleted
            <==> e.key in After(t, pre) || !OpensWithPositiveRate(post, e.key)
  {
    hide Step, ValidTable, Timely;
    var s := After(t, pre);
    SplitTimely(pre, e, post, from);
    RunsKeepBounds(t, pre, from, e.now);
    RejectedHeadIsTransparentIff(s, e, post, e.now);
    RunsConcat(t, pre, [e] + post);
    RunsConcat(t, pre, post);
    assert ([e] + post)[1..] == post;
    DeletedOutcome(Outcomes(t, pre), Step(s, e).1, Outcomes(Step(s, e).0, post), Outcomes(s, post));
  }

  /** A rejected check with rate 0 that does matter: with it the next check finds its bucket, and is rejected too. */
  lemma ZeroRateCheckMatters(zero: Event, next: Event)
    requires zero == Check("k", 0, 0.0) && next == Check("k", 5, 1.0)
    ensures Step(map[], zero).1.Err?
    ensures Step(Step(map[], zero).0, next).1.Err? && Step(map[], next).1.Ok?
  {
    var after: Table := Step(map[], zero).0;
    assert after["k"] == Bucket(0.0, 0.0, 0.0);
  }

  // --- Keys do not share tokens ----------------------------------------------------------------------

  function OnlyKey(es: seq<Event>, key: string): seq<Event> {
    if es == [] then [] else (if es[0].key == key then [es[0]] else []) + OnlyKey(es[1..], key)
  }

  function OutcomesOf(t: Table, es: seq<Event>, key: string): seq<Result>
    decreases es
  {
    if es == [] then []
    else (if es[0].key == key then [Step(t, es[0]).1] else []) + OutcomesOf(Step(t, es[0]).0, es[1..], key)
  }

  /** Striking every check of every other key from a run leaves the answers to a key as they were. */
  lemma {:induction false} KeysAreIndependent(t: Table, u: Table, es: seq<Event>, key: string)
    requires key in t <==> key in u
    requires key in t ==> t[key] == u[key]
    ensures OutcomesOf(t, es, key) == OutcomesOf(u, OnlyKey(es, key), key)
    decreases es
  {
    hide Acquired;
    if es != [] {
      var t' := Step(t, es[0]).0;
      if es[0].key == key {
        assert ([es[0]] + OnlyKey(es[1..], key))[1..] == OnlyKey(es[1..], key);
        KeysAreIndependent(t', Step(u, es[0]).0, es[1..], key);
      } else {
        assert OnlyKey(es, key) == OnlyKey(es[1..], key);
        KeysAreIndependent(t', u, es[1..], key);
      }
    }
  }

  // --- Reported waits -----------------------------------------------------------------------------------

  lemma QuotientAtMost(a: real, r: real, w: real)
    requires r > 0.0
    ensures a / r <= w <==> a <= w * r
  {
    var q := a / r;
    assert q * r == a;
    Distribute(w, -q, r);
    assert (w - q) * r == w * r - a;
    if w < q {
      assert (q - w) * r > 0.0;
    } else {
      ProductSign(w - q, r);
    }
  }

  lemma WaitRefills(b: Bucket, w: real)
    requires w >= 0.0
    ensures Refilled(b, b.lastRefill + w).tokens == Min(b.tokens + w * (b.capacity / 60.0), b.capacity)
  {
  }

  lemma AcquireSucceedsIff(b: Bucket, now: real)
    ensures Acquired(b, now).1.Ok? <==> Refilled(b, now).tokens >= 1.0
  {
  }

  lemma AcquiredShape(b: Bucket, now: real)
    requires ValidBucket(b, now)
    ensures var (b', result) := Acquired(b, now);
            && b'.capacity == b.capacity && b'.lastRefill == now
            && (b.capacity > 0.0 ==> result.status.resetSecs == (b.capacity - b'.tokens) / (b.capacity / 60.0))
  {
  }

  lemma RejectionShape(b: Bucket, now: real)
    requires ValidBucket(b, now) && Acquired(b, now).1.Err?
    ensures var (b', result) := Acquired(b, now);
            && b'.capacity == b.capacity && b'.lastRefill == now && b'.tokens < 1.0
            && (b.capacity > 0.0 ==> result.status.retryAfterSecs == (1.0 - b'.tokens) / (b.capacity / 60.0))
  {
  }

  /** `retry_after_secs` is exact: the next check of a nonzero bucket succeeds after a wait of `w` seconds just
    when `w` is at least the reported value.  An empty bucket of rate 0 never admits anything. */
  lemma RetryAfterIsExact(b: Bucket, now: real, w: real)
    requires ValidBucket(b, now) && w >= 0.0
    requires Acquired(b, now).1.Err?
    ensures var (b', result) := Acquired(b, now);
            && (b.capacity > 0.0 ==> (Acquired(b', now + w).1.Ok? <==> w >= result.status.retryAfterSecs))
            && (b.capacity == 0.0 ==> Acquired(b', now + w).1.Err?)
  {
    hide Acquired, Refilled;
    var b' := Acquired(b, now).0;
    RejectionShape(b, now);
    AcquireSucceedsIff(b', now + w);
    WaitRefills(b', w);
    if b.capacity > 0.0 {
      QuotientAtMost(1.0 - b'.tokens, b.capacity / 60.0, w);
    }
  }

  /** `reset_secs` is exact too, after an admission as after a rejection: that is when the bucket is full again. */
  lemma ResetIsExact(b: Bucket, now: real, w: real)
    requires ValidBucket(b, now) && b.capacity > 0.0 && w >= 0.0
    ensures var (b', result) := Acquired(b, now);
            Refilled(b', now + w).tokens == b.capacity <==> w >= result.status.resetSecs
  {
    hide Acquired, Refilled;
    var b' := Acquired(b, now).0;
    AcquiredShape(b, now);
    WaitRefills(b', w);
    QuotientAtMost(b.capacity - b'.tokens, b.capacity / 60.0, w);
  }

  /** The outcomes of `n` more checks at one instant. */
  function Burst(b: Bucket, now: real, n: nat): seq<Result>
    decreases n
  {
    if n == 0 then [] else [Acquired(b, now).1] + Burst(Acquired(b, now).0, now, n - 1)
  }

  /** A bucket that was just checked admits exactly as many more checks at once as it has whole tokens. */
  lemma {:induction false} BurstIsWholeTokens(b: Bucket, now: real, n: nat)
    requires 0.0 <= b.tokens <= b.capacity && b.lastRefill == now
    ensures |Burst(b, now, n)| == n
    ensures forall i | 0 <= i < n :: Burst(b, now, n)[i].Ok? <==> (i + 1) as real <= b.tokens
    decreases n
  {
    if n > 0 {
      BurstIsWholeTokens(Acquired(b, now).0, now, n - 1);
    }
  }

  /** `remaining` is exact: it is the number of checks that would still succeed at the same instant. */
  lemma RemainingIsExact(b: Bucket, now: real, n: nat)
    requires ValidBucket(b, now) && b.capacity < U32_LIMIT as real
    ensures var (b', result) := Acquired(b, now);
            && |Burst(b', now, n)| == n
            && forall i | 0 <= i < n :: Burst(b', now, n)[i].Ok? <==> i < result.status.remaining
  {
    var (b', result) := Acquired(b, now);
    AcquiredIsValid(b, now);
    RemainingIsFloor(b, now);
    BurstIsWholeTokens(b', now, n);
  }

  lemma RemainingIsFloor(b: Bucket, now: real)
    requires ValidBucket(b, now) && b.capacity < U32_LIMIT as real
    ensures var (b', result) := Acquired(b, now);
            result.status.remaining == b'.tokens.Floor && b'.lastRefill == now
  {
    AcquiredIsValid(b, now);
  }

  // --- Which rate a check is held to -------------------------------------------------------------------

  /** Capacities come from `u32` rates. */
  predicate IsRate(capacity: real) {
    0 <= capacity.Floor < U32_LIMIT && capacity == capacity.Floor as real
  }

  ghost predicate WholeNumbers(t: Table) {
    forall k | k in t :: IsRate(t[k].capacity)
  }

  lemma LimitIsCapacity(b: Bucket, rpm: U32, now: real)
    requires b.capacity == rpm as real
    ensures Acquired(b, now).1.status.limit == rpm
  {
  }

  /** A check is held to the rate it names exactly when the key has no bucket yet or one opened with that rate. */
  lemma LimitIsNamedRateIff(t: Table, e: Event)
    requires WholeNumbers(t)
    ensures Step(t, e).1.status.limit == e.rpm <==> e.key !in t || t[e.key].capacity == e.rpm as real
    ensures WholeNumbers(Step(t, e).0)
  {
    var b := BucketFor(t, e);
    if e.key in t {
      LimitIsCapacity(b, b.capacity.Floor, e.now);
    } else {
      LimitIsCapacity(b, e.rpm, e.now);
    }
    assert Acquired(b, e.now).0.capacity == b.capacity;
  }

  /** The rate that the first check of `key` names. */
  function FirstRate(es: seq<Event>, key: string): Option<U32> {
    if es == [] then None else if es[0].key == key then Some(es[0].rpm) else FirstRate(es[1..], key)
  }

  lemma {:induction false} CapacityIsFirstRate(t: Table, es: seq<Event>, key: string)
    ensures key in After(t, es) <==> key in t || FirstRate(es, key).Some?
    ensures key in t ==> After(t, es)[key].capacity == t[key].capacity
    ensures key !in t && FirstRate(es, key).Some? ==> After(t, es)[key].capacity == FirstRate(es, key).value as real
    decreases es
  {
    if es != [] {
      CapacityIsFirstRate(Step(t, es[0]).0, es[1..], key);
    }
  }

  /** Main result: in every run of a new limiter a check is held to the rate that the first check of its key named,
    so a change of rate reaches no open bucket. */
  lemma LimitIsFirstRate(es: seq<Event>, e: Event)
    ensures Step(After(map[], es), e).1.status.limit
            == if FirstRate(es, e.key).Some? then FirstRate(es, e.key).value else e.rpm
  {
    var t := After(map[], es);
    CapacityIsFirstRate(map[], es, e.key);
    LimitIsCapacity(BucketFor(t, e), if FirstRate(es, e.key).Some? then FirstRate(es, e.key).value else e.rpm, e.now);
  }

  // --- The other fields of a status --------------------------------------------------------------------

  /** An admission asks for no wait, a rejection leaves nothing, and rate 0 always answers a minute. */
  lemma StatusFields(b: Bucket, now: real)
    requires ValidBucket(b, now)
    ensures var result := Acquired(b, now).1;
            && (result.Ok? ==> result.status.retryAfterSecs == 0.0)
            && (result.Err? ==> result.status.remaining == 0)
            && (b.capacity == 0.0 ==>
                  result.Err? && result.status.retryAfterSecs == 60.0 && result.status.resetSecs == 60.0)
  {
    hide ResetSecs, AsU32;
    if b.capacity == 0.0 {
      ZeroRateStaysEmpty(b, now);
    }
  }

  lemma ZeroRateStaysEmpty(b: Bucket, now: real)
    requires ValidBucket(b, now) && b.capacity == 0.0
    ensures Refilled(b, now).tokens == 0.0
  {
  }

  /** A clock that goes back refills nothing. */
  lemma EarlierClockRefillsNothing(b: Bucket, now: real)
    requires now <= b.lastRefill && b.tokens <= b.capacity
    ensures Refilled(b, now) == b.(lastRefill := now)
  {
  }
}
