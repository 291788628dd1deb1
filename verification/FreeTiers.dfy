/** Token usage against operator-declared free tiers (`free_tiers.rs`). */
module FreeTiers {
  import opened Calendar

  const U64_MAX: int := 0xffff_ffff_ffff_ffff

  type U64 = n: int | 0 <= n <= U64_MAX

  datatype Setting = Setting(monthlyFreeTokens: U64, period: BudgetPeriod)

  datatype TokenState = TokenState(periodKey: int, tokensUsed: U64)

  datatype Status = Status(monthlyFreeTokens: U64, tokensUsed: U64, tokensRemaining: U64, period: BudgetPeriod)

  const DEFAULT_STATE: TokenState := TokenState(0, 0)

  type Settings = map<string, Setting>

  type UsageMap = map<string, TokenState>

  function SaturatingAdd(a: U64, b: U64): U64 {
    if a + b > U64_MAX then U64_MAX else a + b
  }

  function SaturatingSub(a: U64, b: U64): U64 {
    if a < b then 0 else a - b
  }

  function Rolled(state: TokenState, currentKey: int): TokenState {
    if state.periodKey != currentKey then TokenState(currentKey, 0) else state
  }

  /** `entry(key).or_default()` */
  function StateOf(usage: UsageMap, key: string): TokenState {
    if key in usage then usage[key] else DEFAULT_STATE
  }

  function CurrentState(settings: Settings, usage: UsageMap, key: string, nowUnix: int): TokenState
    requires key in settings
  {
    Rolled(StateOf(usage, key), PeriodKeyAt(settings[key].period, nowUnix))
  }

  function Recorded(settings: Settings, usage: UsageMap, key: string, tokens: U64, nowUnix: int): UsageMap {
    if key !in settings then usage
    else
      var state := CurrentState(settings, usage, key, nowUnix);
      usage[key := state.(tokensUsed := SaturatingAdd(state.tokensUsed, tokens))]
  }

  /** A snapshot creates and rolls over the state of every configured key; these are the keys it has visited. */
  function TouchedAt(settings: Settings, usage: UsageMap, visited: set<string>, nowUnix: int): UsageMap
    requires visited <= settings.Keys
  {
    usage + map key | key in visited :: CurrentState(settings, usage, key, nowUnix)
  }

  function Touched(settings: Settings, usage: UsageMap, nowUnix: int): UsageMap {
    TouchedAt(settings, usage, settings.Keys, nowUnix)
  }

  function StatusOf(setting: Setting, used: U64): Status {
    Status(setting.monthlyFreeTokens, used, SaturatingSub(setting.monthlyFreeTokens, used), setting.period)
  }

  function ReportOf(settings: Settings, usage: UsageMap, visited: set<string>, nowUnix: int): map<string, Status>
    requires visited <= settings.Keys
  {
    map key | key in visited :: StatusOf(settings[key], CurrentState(settings, usage, key, nowUnix).tokensUsed)
  }

  function Report(settings: Settings, usage: UsageMap, nowUnix: int): map<string, Status> {
    ReportOf(settings, usage, settings.Keys, nowUnix)
  }

  lemma NothingVisited(settings: Settings, usage: UsageMap, nowUnix: int)
    ensures TouchedAt(settings, usage, settings.Keys - settings.Keys, nowUnix) == usage
    ensures ReportOf(settings, usage, settings.Keys - settings.Keys, nowUnix) == map[]
  {
    assert settings.Keys - settings.Keys == {};
  }

  lemma VisitOne(settings: Settings, usage: UsageMap, visited: set<string>, key: string, nowUnix: int)
    requires visited <= settings.Keys && key in settings.Keys - visited
    ensures var state := CurrentState(settings, TouchedAt(settings, usage, visited, nowUnix), key, nowUnix);
            && TouchedAt(settings, usage, visited, nowUnix)[key := state]
               == TouchedAt(settings, usage, visited + {key}, nowUnix)
            && ReportOf(settings, usage, visited, nowUnix)[key := StatusOf(settings[key], state.tokensUsed)]
               == ReportOf(settings, usage, visited + {key}, nowUnix)
  {
    hide CurrentState, StatusOf;
    SameState(settings, usage, TouchedAt(settings, usage, visited, nowUnix), key, nowUnix);
  }

  lemma SameState(settings: Settings, a: UsageMap, b: UsageMap, key: string, nowUnix: int)
    requires key in settings && (key in a <==> key in b) && (key in a ==> a[key] == b[key])
    ensures CurrentState(settings, a, key, nowUnix) == CurrentState(settings, b, key, nowUnix)
  {
  }

  class Tracker {
    const settings: Settings
    var usage: UsageMap

    constructor (settings: Settings)
      ensures this.settings == settings && usage == map[]
    {
      this.settings := settings;
      usage := map[];
    }

    method RecordUsage(key: string, tokens: U64, nowUnix: int)
      modifies this
      ensures usage == Recorded(settings, old(usage), key, tokens, nowUnix)
    {
      if key !in settings {
        return;
      }
      var state := Rolled(StateOf(usage, key), PeriodKeyAt(settings[key].period, nowUnix));
      usage := usage[key := state.(tokensUsed := SaturatingAdd(state.tokensUsed, tokens))];
    }

    /** The configured keys are visited in any order. */
    method StatusSnapshot(nowUnix: int) returns (report: map<string, Status>)
      modifies this
      ensures usage == Touched(settings, old(usage), nowUnix)
      ensures report == Report(settings, old(usage), nowUnix)
    {
      hide StatusOf, CurrentState, TouchedAt, ReportOf;
      report := map[];
      var rest := settings.Keys;
      NothingVisited(settings, usage, nowUnix);
      while rest != {}
        invariant rest <= settings.Keys
        invariant usage == TouchedAt(settings, old(usage), settings.Keys - rest, nowUnix)
        invariant report == ReportOf(settings, old(usage), settings.Keys - rest, nowUnix)
        decreases rest
      {
        var key :| key in rest;
        VisitOne(settings, old(usage), settings.Keys - rest, key, nowUnix);
        assert settings.Keys - (rest - {key}) == settings.Keys - rest + {key};
        var state := CurrentState(settings, usage, key, nowUnix);
        usage := usage[key := state];
        report := report[key := StatusOf(settings[key], state.tokensUsed)];
        rest := rest - {key};
      }
      assert settings.Keys - {} == settings.Keys;
    }
  }

  // --- Runs -----------------------------------------------------------------------------

  datatype Op = Record(key: string, tokens: U64, now: int) | Snapshot(now: int)

  function Applied(settings: Settings, usage: UsageMap, op: Op): UsageMap {
    match op
    case Record(key, tokens, now) => Recorded(settings, usage, key, tokens, now)
    case Snapshot(now) => Touched(settings, usage, now)
  }

  function After(settings: Settings, ops: seq<Op>): UsageMap {
    if ops == [] then map[] else Applied(settings, After(settings, ops[..|ops| - 1]), ops[|ops| - 1])
  }

  /** Clock readings never go back, end at `now` or before, and lie in `i32` years. */
  ghost predicate Timely(ops: seq<Op>, now: int) {
    && InRange(now)
    && (forall i | 0 <= i < |ops| :: ops[i].now <= now && InRange(ops[i].now))
    && (forall i, j | 0 <= i < j < |ops| :: ops[i].now <= ops[j].now)
  }

  /** The tokens recorded for `key` in one period. */
  function TokensIn(ops: seq<Op>, key: string, period: BudgetPeriod, periodKey: int): nat {
    if ops == [] then 0
    else
      var op := ops[|ops| - 1];
      TokensIn(ops[..|ops| - 1], key, period, periodKey)
      + if op.Record? && op.key == key && PeriodKeyAt(period, op.now) == periodKey then op.tokens else 0
  }

  lemma {:induction false} NothingInTheFuture(ops: seq<Op>, key: string, period: BudgetPeriod, last: int, now: int)
    requires Timely(ops, last) && last <= now && InRange(now)
    requires PeriodKeyAt(period, last) < PeriodKeyAt(period, now)
    ensures TokensIn(ops, key, period, PeriodKeyAt(period, now)) == 0
  {
    if ops != [] {
      PeriodKeysAreMonotone(period, ops[|ops| - 1].now, last);
      NothingInTheFuture(ops[..|ops| - 1], key, period, last, now);
    }
  }

  /** The state of a configured key answers for the current period and any later one. */
  lemma {:induction false} StateCountsPeriod(settings: Settings, ops: seq<Op>, key: string, now: int)
    requires key in settings && Timely(ops, now)
    ensures var period := settings[key].period;
            var total := TokensIn(ops, key, period, PeriodKeyAt(period, now));
            CurrentState(settings, After(settings, ops), key, now).tokensUsed
            == if total > U64_MAX then U64_MAX else total
  {
    hide PeriodKeyAt;
    if ops != [] {
      var rest, op, period := ops[..|ops| - 1], ops[|ops| - 1], settings[key].period;
      assert Timely(rest, op.now) && Timely(rest, now) && Timely(ops, op.now);
      StateCountsPeriod(settings, rest, key, op.now);
      StateCountsPeriod(settings, rest, key, now);
      PeriodKeysAreMonotone(period, op.now, now);
      if PeriodKeyAt(period, op.now) < PeriodKeyAt(period, now) {
        NothingInTheFuture(ops, key, period, op.now, now);
        NothingInTheFuture(rest, key, period, op.now, now);
      }
    }
  }

  lemma {:induction false} OnlyConfiguredKeys(settings: Settings, ops: seq<Op>)
    ensures After(settings, ops).Keys <= settings.Keys
  {
    if ops != [] {
      OnlyConfiguredKeys(settings, ops[..|ops| - 1]);
    }
  }

  /** Main result: after any run under a monotone clock, the report names exactly the configured keys, and gives for
    each the tokens recorded in the current period (up to the largest `u64`) and what is left of its budget.  Since
    `TokensIn` does not look at snapshots, inserting or deleting them anywhere changes no later report. */
  lemma ReportIsExact(settings: Settings, ops: seq<Op>, now: int)
    requires Timely(ops, now)
    ensures var report := Report(settings, After(settings, ops), now);
            && report.Keys == settings.Keys
            && forall key | key in settings ::
                var setting := settings[key];
                var total := TokensIn(ops, key, setting.period, PeriodKeyAt(setting.period, now));
                && report[key].tokensUsed == (if total > 0xffff_ffff_ffff_ffff then 0xffff_ffff_ffff_ffff else total)
                && report[key].tokensRemaining
                   == (if total > setting.monthlyFreeTokens then 0 else setting.monthlyFreeTokens - total)
                && report[key].monthlyFreeTokens == setting.monthlyFreeTokens && report[key].period == setting.period
  {
    hide PeriodKeyAt;
    forall key | key in settings {
      StateCountsPeriod(settings, ops, key, now);
    }
  }

  function WithoutSnapshots(ops: seq<Op>): seq<Op> {
    if ops == [] then []
    else WithoutSnapshots(ops[..|ops| - 1]) + if ops[|ops| - 1].Record? then [ops[|ops| - 1]] else []
  }

  lemma OneMore(ops: seq<Op>, op: Op, key: string, period: BudgetPeriod, periodKey: int)
    ensures TokensIn(ops + [op], key, period, periodKey)
            == TokensIn(ops, key, period, periodKey)
               + if op.Record? && op.key == key && PeriodKeyAt(period, op.now) == periodKey then op.tokens else 0
  {
  }

  lemma {:induction false} SnapshotsDoNotCount(ops: seq<Op>, key: string, period: BudgetPeriod, periodKey: int)
    ensures TokensIn(WithoutSnapshots(ops), key, period, periodKey) == TokensIn(ops, key, period, periodKey)
  {
    hide PeriodKeyAt;
    if ops != [] {
      var rest, op := ops[..|ops| - 1], ops[|ops| - 1];
      SnapshotsDoNotCount(rest, key, period, periodKey);
      if op.Record? {
        OneMore(WithoutSnapshots(rest), op, key, period, periodKey);
      } else {
        assert WithoutSnapshots(ops) == WithoutSnapshots(rest);
      }
    }
  }

  lemma {:induction false} WithoutSnapshotsIsTimely(ops: seq<Op>, now: int)
    requires Timely(ops, now)
    ensures Timely(WithoutSnapshots(ops), now)
  {
    if ops != [] {
      var rest, op := ops[..|ops| - 1], ops[|ops| - 1];
      WithoutSnapshotsIsTimely(rest, op.now);
    }
  }

  /** Reading the report has no effect on any later report. */
  lemma SnapshotsAreTransparent(settings: Settings, ops: seq<Op>, now: int)
    requires Timely(ops, now)
    ensures Report(settings, After(settings, ops), now) == Report(settings, After(settings, WithoutSnapshots(ops)), now)
  {
    hide PeriodKeyAt;
    WithoutSnapshotsIsTimely(ops, now);
    var kept := WithoutSnapshots(ops);
    forall key | key in settings
      ensures Report(settings, After(settings, ops), now)[key] == Report(settings, After(settings, kept), now)[key]
    {
      var period := settings[key].period;
      StateCountsPeriod(settings, ops, key, now);
      StateCountsPeriod(settings, kept, key, now);
      SnapshotsDoNotCount(ops, key, period, PeriodKeyAt(period, now));
    }
  }
}
