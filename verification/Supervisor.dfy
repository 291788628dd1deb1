/** The supervisors that keep MCP upstreams connected (`gateway.rs`): one task for each upstream that connected at
  startup, all sharing the `peers` map.

  Each step below is what one task does between two points where another task may run; a run is any interleaving of
  enabled steps.  Connection results and drops are chosen by the environment.  A connection is the number of those
  made before it, and stands for the handle that is kept in `peers`. */
module Supervisor {
  import opened Options
  import Retry

  datatype Policy = Policy(initialBackoff: nat, maxBackoff: nat, maxAttempts: Option<nat>)

  /** `attempts` counts the connects since the last drop; `backoff` is the next sleep. */
  datatype Phase =
    | NotTried
    | Failed
    | Linked(connection: nat)
    | Waiting(connection: nat)
    | Dropped(connection: nat)
    | Deciding(attempts: nat, backoff: nat)
    | Sleeping(attempts: nat, backoff: nat)
    | Connecting(attempts: nat, backoff: nat)
    | Relinked(attempts: nat, connection: nat)
    | GaveUp(attempts: nat)

  /** The upstream names of the config are the keys of `phases`: they are unique. */
  datatype State = State(phases: map<string, Phase>, peers: map<string, nat>, made: nat)

  datatype Action =
    | StartupConnect(name: string, ok: bool)
    | StartupInsert(name: string)
    | Drop(name: string)
    | Remove(name: string)
    | Decide(name: string)
    | Wake(name: string)
    | Connect(name: string, ok: bool)
    | Insert(name: string)

  predicate ShouldGiveUp(attempts: nat, maxAttempts: Option<nat>) {
    maxAttempts.Some? && attempts >= maxAttempts.value
  }

  /** The phase an action needs, and the phase it leads to; `made` names the next connection. */
  function PhaseAfter(policy: Policy, phase: Phase, made: nat, action: Action): Option<Phase> {
    match (action, phase)
    case (StartupConnect(_, ok), NotTried) => Some(if ok then Linked(made) else Failed)
    case (StartupInsert(_), Linked(connection)) => Some(Waiting(connection))
    case (Drop(_), Waiting(connection)) => Some(Dropped(connection))
    case (Remove(_), Dropped(_)) => Some(Deciding(0, policy.initialBackoff))
    case (Decide(_), Deciding(attempts, backoff)) =>
      Some(if ShouldGiveUp(attempts, policy.maxAttempts) then GaveUp(attempts) else Sleeping(attempts, backoff))
    case (Wake(_), Sleeping(attempts, backoff)) => Some(Connecting(attempts + 1, backoff))
    case (Connect(_, ok), Connecting(attempts, backoff)) =>
      Some(if ok then Relinked(attempts, made) else Deciding(attempts, Retry.NextBackoff(backoff, policy.maxBackoff)))
    case (Insert(_), Relinked(_, connection)) => Some(Waiting(connection))
    case _ => None
  }

  predicate Enabled(policy: Policy, s: State, action: Action) {
    action.name in s.phases && PhaseAfter(policy, s.phases[action.name], s.made, action).Some?
  }

  predicate Connects(action: Action) {
    (action.StartupConnect? || action.Connect?) && action.ok
  }

  function Next(policy: Policy, s: State, action: Action): State
    requires Enabled(policy, s, action)
  {
    var phase := s.phases[action.name];
    State(s.phases[action.name := PhaseAfter(policy, phase, s.made, action).value],
          if action.StartupInsert? || action.Insert? then s.peers[action.name := phase.connection]
          else if action.Remove? then s.peers - {action.name}
          else s.peers,
          s.made + if Connects(action) then 1 else 0)
  }

  function Initial(names: set<string>): State {
    State(map name | name in names :: NotTried, map[], 0)
  }

  /** Every action is enabled when its turn comes. */
  predicate IsRun(policy: Policy, names: set<string>, run: seq<Action>)
    decreases |run|, 0
  {
    run == [] || (IsRun(policy, names, run[..|run| - 1])
                  && Enabled(policy, After(policy, names, run[..|run| - 1]), run[|run| - 1]))
  }

  function After(policy: Policy, names: set<string>, run: seq<Action>): State
    requires IsRun(policy, names, run)
    decreases |run|, 1
  {
    if run == [] then Initial(names) else Next(policy, After(policy, names, run[..|run| - 1]), run[|run| - 1])
  }

  // --- The peers map ------------------------------------------------------------------------

  /** The connection a supervisor holds, if any. */
  function Held(phase: Phase): Option<nat> {
    if phase.Linked? || phase.Waiting? || phase.Dropped? || phase.Relinked? then Some(phase.connection) else None
  }

  /** A name is in `peers`, with the connection of its supervisor, just while that one waits or has seen it drop. */
  ghost predicate PeersAreHeld(s: State) {
    && (forall name :: name in s.peers
                       <==> name in s.phases && (s.phases[name].Waiting? || s.phases[name].Dropped?))
    && (forall name | name in s.peers :: s.peers[name] == s.phases[name].connection)
  }

  /** No two supervisors share a connection. */
  ghost predicate HeldAreDistinct(s: State) {
    && (forall name | name in s.phases && Held(s.phases[name]).Some? :: Held(s.phases[name]).value < s.made)
    && (forall a, b | a in s.phases && b in s.phases && a != b && Held(s.phases[a]).Some? ::
          Held(s.phases[a]) != Held(s.phases[b]))
  }

  lemma StepKeepsPeers(policy: Policy, s: State, action: Action)
    requires PeersAreHeld(s) && Enabled(policy, s, action)
    ensures PeersAreHeld(Next(policy, s, action))
  {
  }

  lemma StepKeepsDistinct(policy: Policy, s: State, action: Action)
    requires HeldAreDistinct(s) && Enabled(policy, s, action)
    ensures HeldAreDistinct(Next(policy, s, action))
  {
    var s' := Next(policy, s, action);
    var before, after := Held(s.phases[action.name]), Held(s'.phases[action.name]);
    assert after.None? || after == before || (after == Some(s.made) && s'.made == s.made + 1);
  }

  /** Main result: in every reachable state of every interleaving, a name is in `peers` exactly while its supervisor
    waits on a connection or has not yet removed a dropped one; the handle in `peers` is that very connection, and
    no other name leads to it. */
  lemma {:induction false} PeersAreTheLiveConnections(policy: Policy, names: set<string>, run: seq<Action>)
    requires IsRun(policy, names, run)
    ensures After(policy, names, run).phases.Keys == names
    ensures PeersAreHeld(After(policy, names, run))
    ensures HeldAreDistinct(After(policy, names, run))
  {
    if run != [] {
      var rest := run[..|run| - 1];
      PeersAreTheLiveConnections(policy, names, rest);
      StepKeepsPeers(policy, After(policy, names, rest), run[|run| - 1]);
      StepKeepsDistinct(policy, After(policy, names, rest), run[|run| - 1]);
    }
  }

  predicate GivenUp(phase: Phase) {
    phase.GaveUp? || phase.Failed?
  }

  lemma GivenUpIsOut(s: State, name: string)
    requires PeersAreHeld(s) && name in s.phases && GivenUp(s.phases[name])
    ensures name !in s.peers
  {
  }

  /** Giving up is for good, at startup as after a drop: the name never comes back into `peers`. */
  lemma {:induction false} GivingUpIsPermanent(policy: Policy, names: set<string>, run: seq<Action>, more: seq<Action>,
                                               name: string)
    requires IsRun(policy, names, run + more)
    requires IsRun(policy, names, run) && name in names
    requires name in After(policy, names, run).phases && GivenUp(After(policy, names, run).phases[name])
    ensures var s := After(policy, names, run + more);
            name in s.phases && s.phases[name] == After(policy, names, run).phases[name] && name !in s.peers
  {
    hide PeersAreHeld, HeldAreDistinct;
    PeersAreTheLiveConnections(policy, names, run);
    GivenUpIsOut(After(policy, names, run), name);
    if more == [] {
      assert run + more == run;
    } else {
      var less := more[..|more| - 1];
      assert (run + more)[..|run + more| - 1] == run + less;
      GivingUpIsPermanent(policy, names, run, less, name);
      PeersAreTheLiveConnections(policy, names, run + more);
      GivenUpIsOut(After(policy, names, run + more), name);
    }
  }

  // --- Attempts and sleeps -----------------------------------------------------------------------

  /** The connects to `name` since its connection last dropped. */
  function ConnectsSinceDrop(run: seq<Action>, name: string): nat {
    if run == [] then 0
    else
      var last := run[|run| - 1];
      if last == Drop(name) then 0
      else ConnectsSinceDrop(run[..|run| - 1], name) + if last == Wake(name) then 1 else 0
  }

  /** What the local variables of a supervisor say about its past. */
  predicate Consistent(policy: Policy, phase: Phase, connects: nat) {
    match phase
    case Deciding(attempts, backoff) =>
      && attempts == connects
      && backoff == Retry.SleepAt(policy.initialBackoff, policy.maxBackoff, attempts)
      && Allowed(policy, attempts)
    case Sleeping(attempts, backoff) =>
      && attempts == connects
      && backoff == Retry.SleepAt(policy.initialBackoff, policy.maxBackoff, attempts)
      && Allowed(policy, attempts + 1)
    case Connecting(attempts, backoff) =>
      && attempts == connects && attempts > 0
      && backoff == Retry.SleepAt(policy.initialBackoff, policy.maxBackoff, attempts - 1)
      && Allowed(policy, attempts)
    case Relinked(attempts, _) => attempts == connects && Allowed(policy, attempts)
    case GaveUp(attempts) => attempts == connects && policy.maxAttempts == Some(attempts)
    case Waiting(_) => Allowed(policy, connects)
    case _ => connects == 0
  }

  predicate Allowed(policy: Policy, attempts: nat) {
    policy.maxAttempts.None? || attempts <= policy.maxAttempts.value
  }

  lemma StepIsConsistent(policy: Policy, phase: Phase, made: nat, connects: nat, action: Action)
    requires Consistent(policy, phase, connects)
    requires PhaseAfter(policy, phase, made, action).Some?
    ensures Consistent(policy, PhaseAfter(policy, phase, made, action).value,
                       if action.Drop? then 0 else if action.Wake? then connects + 1 else connects)
  {
  }

  lemma {:induction false} RunsAreConsistent(policy: Policy, names: set<string>, run: seq<Action>, name: string)
    requires IsRun(policy, names, run) && name in names
    ensures name in After(policy, names, run).phases
    ensures Consistent(policy, After(policy, names, run).phases[name], ConnectsSinceDrop(run, name))
  {
    if run != [] {
      var rest, last := run[..|run| - 1], run[|run| - 1];
      RunsAreConsistent(policy, names, rest, name);
      if last.name == name {
        var s := After(policy, names, rest);
        StepIsConsistent(policy, s.phases[name], s.made, ConnectsSinceDrop(rest, name), last);
      }
    }
  }

  /** Main result: at most `max_attempts` connects follow any drop, and a supervisor gives up only after exactly
    that many. */
  lemma ConnectsAreBounded(policy: Policy, names: set<string>, run: seq<Action>, name: string)
    requires IsRun(policy, names, run) && name in names
    ensures policy.maxAttempts.Some? ==> ConnectsSinceDrop(run, name) <= policy.maxAttempts.value
    ensures name in After(policy, names, run).phases
    ensures After(policy, names, run).phases[name].GaveUp?
            ==> policy.maxAttempts == Some(ConnectsSinceDrop(run, name))
  {
    RunsAreConsistent(policy, names, run, name);
  }

  /** The sleep before the connect that follows `k` failed ones has the closed form of exponential backoff. */
  lemma SleepsAreExponential(policy: Policy, names: set<string>, run: seq<Action>, name: string)
    requires IsRun(policy, names, run) && name in names
    requires name in After(policy, names, run).phases && After(policy, names, run).phases[name].Sleeping?
    ensures var k := ConnectsSinceDrop(run, name);
            var doubled := policy.initialBackoff * Retry.Pow2(k);
            After(policy, names, run).phases[name].backoff
            == if k == 0 then policy.initialBackoff
               else if doubled <= policy.maxBackoff then doubled else policy.maxBackoff
  {
    var k := ConnectsSinceDrop(run, name);
    RunsAreConsistent(policy, names, run, name);
    Retry.SleepClosedForm(policy.initialBackoff, policy.maxBackoff, k);
  }

  // --- Progress ------------------------------------------------------------------------------------------

  /** A supervisor that has not given up is never stuck. */
  lemma SomethingIsEnabled(policy: Policy, s: State, name: string) returns (action: Action)
    requires name in s.phases && !GivenUp(s.phases[name])
    ensures action.name == name && Enabled(policy, s, action)
  {
    match s.phases[name]
    case NotTried => action := StartupConnect(name, true);
    case Linked(_) => action := StartupInsert(name);
    case Waiting(_) => action := Drop(name);
    case Dropped(_) => action := Remove(name);
    case Deciding(_, _) => action := Decide(name);
    case Sleeping(_, _) => action := Wake(name);
    case Connecting(_, _) => action := Connect(name, true);
    case Relinked(_, _) => action := Insert(name);
  }

  /** A connect that succeeds, at startup or after a drop, puts the name into `peers` with the new connection. */
  lemma ConnectingPublishes(policy: Policy, s: State, name: string)
    requires name in s.phases && (s.phases[name].NotTried? || s.phases[name].Connecting?)
    ensures var first := s.phases[name].NotTried?;
            var connect := if first then StartupConnect(name, true) else Connect(name, true);
            var insert := if first then StartupInsert(name) else Insert(name);
            && Enabled(policy, s, connect)
            && Enabled(policy, Next(policy, s, connect), insert)
            && var s' := Next(policy, Next(policy, s, connect), insert);
               s'.peers == s.peers[name := s.made] && s'.phases[name] == Waiting(s.made)
  {
  }

  /** A dropped connection leaves `peers`; then comes a sleep of the initial length and a connect, unless none is
    allowed. */
  lemma DropIsNoticed(policy: Policy, s: State, name: string)
    requires name in s.phases && s.phases[name].Waiting?
    ensures Enabled(policy, s, Drop(name))
    ensures var dropped := Next(policy, s, Drop(name));
            && dropped.peers == s.peers
            && Enabled(policy, dropped, Remove(name))
            && var removed := Next(policy, dropped, Remove(name));
               && removed.peers == s.peers - {name}
               && Enabled(policy, removed, Decide(name))
               && var decided := Next(policy, removed, Decide(name));
                  decided.phases[name]
                  == if policy.maxAttempts == Some(0) then GaveUp(0) else Sleeping(0, policy.initialBackoff)
  {
  }

  /** A failed connect is followed by giving up if it was the last one allowed, and by a sleep otherwise. */
  lemma FailureIsRetried(policy: Policy, s: State, name: string)
    requires name in s.phases && s.phases[name].Connecting?
    requires policy.maxAttempts.Some? ==> s.phases[name].attempts <= policy.maxAttempts.value
    ensures Enabled(policy, s, Connect(name, false))
    ensures var failed := Next(policy, s, Connect(name, false));
            && Enabled(policy, failed, Decide(name))
            && var after := Next(policy, failed, Decide(name)).phases[name];
               && (policy.maxAttempts == Some(s.phases[name].attempts) ==> after.GaveUp?)
               && (policy.maxAttempts != Some(s.phases[name].attempts) ==> after.Sleeping?)
  {
  }
}
