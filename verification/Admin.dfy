/** The client registry of the server (`routes.rs`, `state.rs`, `main.rs`): the list of clients, the map from API keys
  to clients and the budget table, under admin requests scoped to organizations.  Handlers are atomic. */
module Admin {
  import opened Options
  import opened Calendar

  datatype Role = Member | AdminRole

  datatype Client = Client(
    name: string,
    requestsPerMinute: nat,
    budgetUsd: Option<real>,
    budgetPeriod: BudgetPeriod,
    organization: Option<string>,
    workspace: Option<string>,
    role: Role)

  datatype KeyEntry = KeyEntry(name: string, rpm: nat)

  datatype Budget = Budget(usd: real, period: BudgetPeriod)

  datatype State = State(clients: seq<Client>, keys: map<string, KeyEntry>, budgets: map<string, Budget>)

  // --- Authorization ----------------------------------------------------------------------

  datatype Identity = Global | Scoped(organization: Option<string>)

  datatype Auth = Granted(identity: Identity) | Denied(status: nat)

  /** Index of the first client that `find` would return, or the length of the list. */
  function Find(clients: seq<Client>, matches: Client -> bool): (i: nat)
    ensures i <= |clients|
    ensures i < |clients| ==> matches(clients[i])
    ensures forall j | 0 <= j < i :: !matches(clients[j])
  {
    if clients == [] || matches(clients[0]) then 0 else 1 + Find(clients[1..], matches)
  }

  function Named(name: string): Client -> bool {
    (c: Client) => c.name == name
  }

  function AdminNamed(name: string): Client -> bool {
    (c: Client) => c.name == name && c.role == AdminRole
  }

  predicate InScope(identity: Identity, c: Client) {
    identity.Global? || c.organization == identity.organization
  }

  function Managed(identity: Identity, name: string): Client -> bool {
    (c: Client) => c.name == name && InScope(identity, c)
  }

  function CheckAdminAuth(adminKey: Option<string>, s: State, token: Option<string>): Auth {
    if adminKey.None? && !(exists i | 0 <= i < |s.clients| :: s.clients[i].role == AdminRole) then Denied(404)
    else if token.None? then Denied(401)
    else if adminKey == token then Granted(Global)
    else if token.value in s.keys then
      var i := Find(s.clients, AdminNamed(s.keys[token.value].name));
      if i < |s.clients| then Granted(Scoped(s.clients[i].organization)) else Denied(401)
    else Denied(401)
  }

  // --- Requests -------------------------------------------------------------------------------

  datatype CreateBody = CreateBody(
    name: string,
    requestsPerMinute: nat,
    budgetUsd: Option<real>,
    budgetPeriod: BudgetPeriod,
    apiKey: Option<string>,
    organization: Option<string>,
    workspace: Option<string>,
    role: Role)

  datatype UpdateBody = UpdateBody(
    requestsPerMinute: Option<nat>,
    budgetUsd: Option<Option<real>>,
    budgetPeriod: Option<BudgetPeriod>,
    rotateApiKey: bool)

  /** A body of `None` does not deserialize; `generated` is the key the handler would make up. */
  datatype Request =
    | Create(create: Option<CreateBody>, generated: string)
    | Update(name: string, update: Option<UpdateBody>, generated: string)
    | Delete(name: string)

  function WithBudget(budgets: map<string, Budget>, c: Client): map<string, Budget> {
    if c.budgetUsd.Some? then budgets[c.name := Budget(c.budgetUsd.value, c.budgetPeriod)] else budgets - {c.name}
  }

  function RequestedKey(body: CreateBody, generated: string): string {
    if body.apiKey.Some? then body.apiKey.value else generated
  }

  function NewClient(identity: Identity, b: CreateBody): Client {
    Client(b.name, b.requestsPerMinute, b.budgetUsd, b.budgetPeriod,
           if identity.Scoped? then identity.organization else b.organization, b.workspace, b.role)
  }

  function Created(s: State, identity: Identity, body: Option<CreateBody>, generated: string): (State, nat) {
    if body.None? then (s, 400)
    else
      var b := body.value;
      if b.name == "" || b.requestsPerMinute == 0 || (b.budgetUsd.Some? && b.budgetUsd.value < 0.0) then (s, 400)
      else if Find(s.clients, Named(b.name)) < |s.clients| then (s, 409)
      else
        var key := RequestedKey(b, generated);
        if key in s.keys then (s, 409)
        else
          var c := NewClient(identity, b);
          (State(s.clients + [c], s.keys[key := KeyEntry(c.name, c.requestsPerMinute)], WithBudget(s.budgets, c)), 201)
  }

  function UpdatedClient(c: Client, b: UpdateBody): Client {
    c.(requestsPerMinute := if b.requestsPerMinute.Some? then b.requestsPerMinute.value else c.requestsPerMinute,
       budgetUsd := if b.budgetUsd.Some? then b.budgetUsd.value else c.budgetUsd,
       budgetPeriod := if b.budgetPeriod.Some? then b.budgetPeriod.value else c.budgetPeriod)
  }

  /** The keys of a client; the handler takes the first it meets. */
  function KeysOf(keys: map<string, KeyEntry>, name: string): set<string> {
    set k | k in keys && keys[k].name == name
  }

  /** Rotation replaces the existing key, if any; otherwise the existing key gets the new rate. */
  ghost function UpdatedKeys(keys: map<string, KeyEntry>, c: Client, rotate: bool, generated: string)
    : map<string, KeyEntry>
  {
    var entry := KeyEntry(c.name, c.requestsPerMinute);
    if KeysOf(keys, c.name) == {} then (if rotate then keys[generated := entry] else keys)
    else
      var existing :| existing in KeysOf(keys, c.name);
      if rotate then (keys - {existing})[generated := entry] else keys[existing := entry]
  }

  /** The state after client `i` became `c`. */
  ghost function Replaced(s: State, i: nat, c: Client, rotate: bool, generated: string): State
    requires i < |s.clients|
  {
    State(s.clients[i := c], UpdatedKeys(s.keys, c, rotate, generated), WithBudget(s.budgets, c))
  }

  ghost function Updated(s: State, identity: Identity, name: string, body: Option<UpdateBody>, generated: string)
    : (State, nat)
  {
    if body.None? then (s, 400)
    else
      var b := body.value;
      if b.requestsPerMinute == Some(0) then (s, 400)
      else if b.budgetUsd.Some? && b.budgetUsd.value.Some? && b.budgetUsd.value.value < 0.0 then (s, 400)
      else
        var i := Find(s.clients, Managed(identity, name));
        if i == |s.clients| then (s, 404)
        else
          var c := UpdatedClient(s.clients[i], b);
          (Replaced(s, i, c, b.rotateApiKey, generated), 200)
  }

  /** `retain(|c| !matches(c))` */
  function Without(clients: seq<Client>, matches: Client -> bool): (kept: seq<Client>)
    ensures |kept| <= |clients|
  {
    if clients == [] then []
    else
      var last := clients[|clients| - 1];
      Without(clients[..|clients| - 1], matches) + if matches(last) then [] else [last]
  }

  function Deleted(s: State, identity: Identity, name: string): (State, nat) {
    var kept := Without(s.clients, Managed(identity, name));
    if |kept| == |s.clients| then (s, 404)
    else (State(kept, s.keys - KeysOf(s.keys, name), s.budgets - {name}), 200)
  }

  ghost function Handled(adminKey: Option<string>, s: State, token: Option<string>, request: Request): (State, nat) {
    var auth := CheckAdminAuth(adminKey, s, token);
    if auth.Denied? then (s, auth.status)
    else
      match request
      case Create(body, generated) => Created(s, auth.identity, body, generated)
      case Update(name, body, generated) => Updated(s, auth.identity, name, body, generated)
      case Delete(name) => Deleted(s, auth.identity, name)
  }

  // --- The invariant ------------------------------------------------------------------------------

  ghost predicate UniqueNames(clients: seq<Client>) {
    forall i, j | 0 <= i < j < |clients| :: clients[i].name != clients[j].name
  }

  ghost predicate Exists(clients: seq<Client>, name: string) {
    exists c | c in clients :: c.name == name
  }

  /** A key belongs to an existing client, at that client's rate. */
  ghost predicate KeyMatches(clients: seq<Client>, e: KeyEntry) {
    exists c | c in clients :: c.name == e.name && c.requestsPerMinute == e.rpm
  }

  ghost predicate OneKeyEach(keys: map<string, KeyEntry>) {
    forall k, l | k in keys && l in keys && keys[k].name == keys[l].name :: k == l
  }

  ghost predicate BudgetIs(budgets: map<string, Budget>, c: Client) {
    if c.budgetUsd.Some? then c.name in budgets && budgets[c.name] == Budget(c.budgetUsd.value, c.budgetPeriod)
    else c.name !in budgets
  }

  ghost predicate BudgetsMatch(s: State) {
    && (forall c | c in s.clients :: BudgetIs(s.budgets, c))
    && (forall name | name in s.budgets :: Exists(s.clients, name))
  }

  ghost predicate KeysMatch(s: State) {
    && (forall k | k in s.keys :: KeyMatches(s.clients, s.keys[k]))
    && OneKeyEach(s.keys)
  }

  ghost predicate Consistent(s: State) {
    UniqueNames(s.clients) && KeysMatch(s) && BudgetsMatch(s)
  }

  // --- What the handlers do to the three tables -------------------------------------------------------

  /** With unique names a filter that only matches one name removes at most one client. */
  lemma {:induction false} WithoutIsRemoval(clients: seq<Client>, matches: Client -> bool, i: nat)
    requires i < |clients| && matches(clients[i])
    requires forall j | 0 <= j < |clients| && j != i :: !matches(clients[j])
    ensures Without(clients, matches) == clients[..i] + clients[i + 1..]
  {
    var n := |clients| - 1;
    if i == n {
      WithoutNothing(clients[..n], matches);
    } else {
      WithoutIsRemoval(clients[..n], matches, i);
      assert clients[..n][i + 1..] + [clients[n]] == clients[i + 1..];
    }
  }

  lemma {:induction false} WithoutNothing(clients: seq<Client>, matches: Client -> bool)
    requires forall j | 0 <= j < |clients| :: !matches(clients[j])
    ensures Without(clients, matches) == clients
  {
    if clients != [] {
      WithoutNothing(clients[..|clients| - 1], matches);
    }
  }

  /** Everybody but the client called `name`. */
  ghost predicate OthersStay(clients: seq<Client>, clients': seq<Client>, name: string) {
    forall c: Client | c.name != name :: c in clients' <==> c in clients
  }

  lemma RemovedClient(clients: seq<Client>, i: nat)
    requires UniqueNames(clients) && i < |clients|
    ensures var kept := clients[..i] + clients[i + 1..];
            UniqueNames(kept) && OthersStay(clients, kept, clients[i].name) && !Exists(kept, clients[i].name)
  {
  }

  lemma ReplacedClient(clients: seq<Client>, i: nat, c: Client)
    requires UniqueNames(clients) && i < |clients| && c.name == clients[i].name
    ensures var changed := clients[i := c];
            && UniqueNames(changed) && OthersStay(clients, changed, c.name)
            && forall d | d in changed && d.name == c.name :: d == c
  {
    var changed := clients[i := c];
    forall d: Client | d.name != c.name
      ensures d in changed <==> d in clients
    {
      if d in clients {
        var j :| 0 <= j < |clients| && clients[j] == d;
        assert changed[j] == d;
      }
    }
  }

  lemma AddedClient(clients: seq<Client>, c: Client)
    requires UniqueNames(clients) && forall j | 0 <= j < |clients| :: clients[j].name != c.name
    ensures var longer := clients + [c];
            && UniqueNames(longer) && OthersStay(clients, longer, c.name) && !Exists(clients, c.name)
            && forall d | d in longer && d.name == c.name :: d == c
  {
  }

  /** The index a handler works on is the only one of that name. */
  lemma ManagedIndex(s: State, identity: Identity, name: string) returns (i: nat)
    requires UniqueNames(s.clients)
    ensures i == Find(s.clients, Managed(identity, name))
    ensures i < |s.clients| ==> s.clients[i].name == name && InScope(identity, s.clients[i])
    ensures Without(s.clients, Managed(identity, name))
            == if i < |s.clients| then s.clients[..i] + s.clients[i + 1..] else s.clients
  {
    i := Find(s.clients, Managed(identity, name));
    if i < |s.clients| {
      WithoutIsRemoval(s.clients, Managed(identity, name), i);
    } else {
      WithoutNothing(s.clients, Managed(identity, name));
    }
  }

  /** Keys and budgets of everybody but the client called `name`. */
  ghost predicate RestStays(s: State, s': State, name: string) {
    && OthersStay(s.clients, s'.clients, name)
    && (forall k | k in s.keys && s.keys[k].name != name :: k in s'.keys && s'.keys[k] == s.keys[k])
    && (forall k | k in s'.keys && s'.keys[k].name != name :: k in s.keys && s'.keys[k] == s.keys[k])
    && (forall n | n != name :: n in s'.budgets <==> n in s.budgets)
    && (forall n | n != name && n in s.budgets :: s'.budgets[n] == s.budgets[n])
  }

  /** The client called `name` is `c`, with these keys at its rate and its budget. */
  ghost predicate ClientIs(s: State, c: Client, keys: set<string>) {
    && c in s.clients
    && (forall d | d in s.clients && d.name == c.name :: d == c)
    && KeysOf(s.keys, c.name) == keys
    && (forall k, l | k in keys && l in keys :: k == l)
    && (forall k | k in keys :: s.keys[k] == KeyEntry(c.name, c.requestsPerMinute))
    && BudgetIs(s.budgets, c)
  }

  /** Nothing is left of a client called `name`. */
  ghost predicate ClientIsGone(s: State, name: string) {
    !Exists(s.clients, name) && KeysOf(s.keys, name) == {} && name !in s.budgets
  }

  /** The client called `name` is whole, or nothing is left of it. */
  ghost predicate WholeOrGone(s: State, name: string) {
    ClientIsGone(s, name) || exists c: Client, keys: set<string> :: c.name == name && ClientIs(s, c, keys)
  }

  lemma KeysStayMatched(s: State, s': State, name: string)
    requires KeysMatch(s) && RestStays(s, s', name) && WholeOrGone(s', name)
    ensures KeysMatch(s')
  {
    assert forall k | k in s'.keys && s'.keys[k].name == name :: k in KeysOf(s'.keys, name);
    forall k | k in s'.keys && s'.keys[k].name != name
      ensures KeyMatches(s'.clients, s'.keys[k])
    {
      var d :| d in s.clients && d.name == s.keys[k].name && d.requestsPerMinute == s.keys[k].rpm;
      assert d in s'.clients;
    }
  }

  lemma BudgetsStayMatched(s: State, s': State, name: string)
    requires BudgetsMatch(s) && RestStays(s, s', name) && WholeOrGone(s', name)
    ensures BudgetsMatch(s')
  {
    forall n | n in s'.budgets && n != name
      ensures Exists(s'.clients, n)
    {
      var d :| d in s.clients && d.name == n;
      assert d in s'.clients;
    }
  }

  /** A change to one client that leaves it whole or takes it away whole keeps the tables consistent. */
  lemma OneClientChanged(s: State, s': State, name: string)
    requires Consistent(s) && UniqueNames(s'.clients) && RestStays(s, s', name) && WholeOrGone(s', name)
    ensures Consistent(s')
  {
    KeysStayMatched(s, s', name);
    BudgetsStayMatched(s, s', name);
  }

  lemma NobodyHasKeys(s: State, name: string)
    requires KeysMatch(s) && !Exists(s.clients, name)
    ensures KeysOf(s.keys, name) == {}
  {
  }

  lemma CreateEffect(s: State, identity: Identity, body: Option<CreateBody>, generated: string)
    requires Consistent(s)
    ensures var (s', status) := Created(s, identity, body, generated);
            if status != 201 then s' == s
            else
              var c := NewClient(identity, body.value);
              var key := RequestedKey(body.value, generated);
              && body.Some? && !Exists(s.clients, c.name) && key !in s.keys
              && UniqueNames(s'.clients) && RestStays(s, s', c.name) && ClientIs(s', c, {key})
  {
    var (s', status) := Created(s, identity, body, generated);
    if status == 201 {
      var c := NewClient(identity, body.value);
      AddedClient(s.clients, c);
      NobodyHasKeys(s, c.name);
      assert s'.clients[|s.clients|] == c;
    }
  }

  /** What `UpdatedKeys` does, whichever key of the client it is that the handler meets. */
  lemma UpdatedKeysShape(keys: map<string, KeyEntry>, c: Client, rotate: bool, generated: string)
    requires OneKeyEach(keys) && generated !in keys
    ensures var keys' := UpdatedKeys(keys, c, rotate, generated);
            && (forall k | k in keys && keys[k].name != c.name :: k in keys' && keys'[k] == keys[k])
            && (forall k | k in keys' && keys'[k].name != c.name :: k in keys && keys[k] == keys'[k])
            && KeysOf(keys', c.name) == (if rotate then {generated} else KeysOf(keys, c.name))
            && (forall k | k in KeysOf(keys', c.name) :: keys'[k] == KeyEntry(c.name, c.requestsPerMinute))
            && (rotate ==> forall k | k in KeysOf(keys, c.name) :: k !in keys')
  {
  }

  lemma ReplacedEffect(s: State, i: nat, c: Client, rotate: bool, generated: string)
    requires Consistent(s) && generated !in s.keys && i < |s.clients| && c.name == s.clients[i].name
    ensures var s' := Replaced(s, i, c, rotate, generated);
            && UniqueNames(s'.clients) && RestStays(s, s', c.name)
            && ClientIs(s', c, if rotate then {generated} else KeysOf(s.keys, c.name))
            && (rotate ==> forall k | k in KeysOf(s.keys, c.name) :: k !in s'.keys)
  {
    hide UpdatedKeys;
    ReplacedClient(s.clients, i, c);
    UpdatedKeysShape(s.keys, c, rotate, generated);
    assert Replaced(s, i, c, rotate, generated).clients[i] == c;
  }

  lemma UpdateEffect(s: State, identity: Identity, name: string, body: Option<UpdateBody>, generated: string)
    returns (was: Client)
    requires Consistent(s) && generated !in s.keys
    ensures var (s', status) := Updated(s, identity, name, body, generated);
            if status != 200 then s' == s
            else
              && body.Some? && was in s.clients && was.name == name && InScope(identity, was)
              && UniqueNames(s'.clients) && RestStays(s, s', name)
              && ClientIs(s', UpdatedClient(was, body.value),
                          if body.value.rotateApiKey then {generated} else KeysOf(s.keys, name))
              && (body.value.rotateApiKey ==> forall k | k in KeysOf(s.keys, name) :: k !in s'.keys)
  {
    hide UpdatedKeys, ClientIs, RestStays, UniqueNames, WithBudget;
    var (s', status) := Updated(s, identity, name, body, generated);
    var i := Find(s.clients, Managed(identity, name));
    if status == 200 {
      was := s.clients[i];
      assert was in s.clients;
      ReplacedEffect(s, i, UpdatedClient(was, body.value), body.value.rotateApiKey, generated);
    } else {
      was :| true;
    }
  }

  lemma DroppedKeys(keys: map<string, KeyEntry>, name: string)
    ensures var kept := keys - KeysOf(keys, name);
            && KeysOf(kept, name) == {} && (forall k | k in KeysOf(keys, name) :: k !in kept)
            && (forall k | k in keys && keys[k].name != name :: k in kept && kept[k] == keys[k])
            && (forall k | k in kept && kept[k].name != name :: k in keys && kept[k] == keys[k])
  {
  }

  lemma DeletedIsGone(s: State, kept: seq<Client>, name: string)
    requires OthersStay(s.clients, kept, name) && !Exists(kept, name)
    ensures var s' := State(kept, s.keys - KeysOf(s.keys, name), s.budgets - {name});
            && RestStays(s, s', name) && ClientIsGone(s', name)
            && forall k | k in KeysOf(s.keys, name) :: k !in s'.keys
  {
    hide OthersStay, KeysOf, Exists;
    DroppedKeys(s.keys, name);
  }

  lemma DeleteEffect(s: State, identity: Identity, name: string)
    requires Consistent(s)
    ensures var (s', status) := Deleted(s, identity, name);
            if status != 200 then s' == s
            else
              && UniqueNames(s'.clients) && RestStays(s, s', name) && ClientIsGone(s', name)
              && (forall k | k in KeysOf(s.keys, name) :: k !in s'.keys)
              && exists was: Client | was in s.clients :: was.name == name && InScope(identity, was)
  {
    hide UniqueNames, KeysMatch, BudgetsMatch, Without, Managed, InScope, OthersStay, KeysOf, Exists, RestStays,
         ClientIsGone;
    var (s', status) := Deleted(s, identity, name);
    var i := ManagedIndex(s, identity, name);
    if status == 200 {
      RemovedClient(s.clients, i);
      DeletedIsGone(s, s'.clients, name);
      assert s.clients[i] in s.clients;
    }
  }

  // --- Main results ----------------------------------------------------------------------------------

  predicate FreshKey(s: State, request: Request) {
    request.Delete? || request.generated !in s.keys
  }

  /** Every request, allowed or not, keeps names unique, every key at an existing client's rate, one key for each
    client at most, and the budget table equal to the clients' budgets. */
  lemma RequestsKeepConsistent(adminKey: Option<string>, s: State, token: Option<string>, request: Request)
    requires Consistent(s) && FreshKey(s, request)
    ensures Consistent(Handled(adminKey, s, token, request).0)
  {
    hide Consistent, Created, Updated, Deleted, ClientIs, RestStays, ClientIsGone, UniqueNames;
    var auth := CheckAdminAuth(adminKey, s, token);
    var (s', status) := Handled(adminKey, s, token, request);
    if auth.Granted? {
      match request
      case Create(body, generated) =>
        CreateEffect(s, auth.identity, body, generated);
        if status == 201 {
          OneClientChanged(s, s', NewClient(auth.identity, body.value).name);
        }
      case Update(name, body, generated) =>
        var was := UpdateEffect(s, auth.identity, name, body, generated);
        if status == 200 {
          OneClientChanged(s, s', name);
        }
      case Delete(name) =>
        DeleteEffect(s, auth.identity, name);
        if status == 200 {
          OneClientChanged(s, s', name);
        }
    }
  }

  /** A client, its key and its budget are the same in both states. */
  ghost predicate SameClient(s: State, s': State, c: Client) {
    && c in s.clients && c in s'.clients
    && KeysOf(s'.keys, c.name) == KeysOf(s.keys, c.name)
    && (forall k | k in KeysOf(s.keys, c.name) :: s'.keys[k] == s.keys[k])
    && (c.name in s'.budgets <==> c.name in s.budgets)
    && (c.name in s.budgets ==> s'.budgets[c.name] == s.budgets[c.name])
  }

  /** Nothing outside the organization of a scoped administrator changes, appears or disappears. */
  ghost predicate StaysInScope(s: State, s': State, identity: Identity) {
    identity.Scoped? ==>
      && (forall c | c in s.clients && c.organization != identity.organization :: SameClient(s, s', c))
      && (forall c | c in s'.clients && c.organization != identity.organization :: c in s.clients)
  }

  lemma OthersAreSame(s: State, s': State, name: string, identity: Identity)
    requires RestStays(s, s', name)
    requires forall c | c in s.clients && c.name == name :: InScope(identity, c)
    requires forall c | c in s'.clients && c.name == name :: InScope(identity, c)
    ensures StaysInScope(s, s', identity)
  {
  }

  lemma SameNameSameClient(clients: seq<Client>, c: Client, d: Client)
    requires UniqueNames(clients) && c in clients && d in clients && c.name == d.name
    ensures c == d
  {
  }

  /** A request that is denied or refused changes nothing at all; one that is carried out changes nothing outside the
    organization of a scoped administrator: no client, no key and no budget. */
  lemma RequestsStayInScope(adminKey: Option<string>, s: State, token: Option<string>, request: Request)
    requires Consistent(s) && FreshKey(s, request)
    ensures var (s', status) := Handled(adminKey, s, token, request);
            var auth := CheckAdminAuth(adminKey, s, token);
            && (status >= 400 ==> s' == s)
            && (auth.Granted? ==> StaysInScope(s, s', auth.identity))
  {
    hide Created, Updated, Deleted, RestStays, StaysInScope;
    var auth := CheckAdminAuth(adminKey, s, token);
    var (s', status) := Handled(adminKey, s, token, request);
    if auth.Granted? {
      NothingChanged(s, auth.identity);
      match request
      case Create(body, generated) =>
        CreateEffect(s, auth.identity, body, generated);
        if status == 201 {
          OthersAreSame(s, s', NewClient(auth.identity, body.value).name, auth.identity);
        }
      case Update(name, body, generated) =>
        var was := UpdateEffect(s, auth.identity, name, body, generated);
        if status == 200 {
          forall c | c in s.clients && c.name == name { SameNameSameClient(s.clients, c, was); }
          OthersAreSame(s, s', name, auth.identity);
        }
      case Delete(name) =>
        DeleteEffect(s, auth.identity, name);
        if status == 200 {
          var was :| was in s.clients && was.name == name && InScope(auth.identity, was);
          forall c | c in s.clients && c.name == name { SameNameSameClient(s.clients, c, was); }
          OthersAreSame(s, s', name, auth.identity);
        }
    }
  }

  lemma NothingChanged(s: State, identity: Identity)
    ensures StaysInScope(s, s, identity)
  {
  }

  /** A client that is there before and after a request keeps its organization, workspace and role. */
  lemma OrganizationAndRoleAreFixed(adminKey: Option<string>, s: State, token: Option<string>, request: Request,
                                    before: Client, after: Client)
    requires Consistent(s) && FreshKey(s, request)
    requires before in s.clients && after in Handled(adminKey, s, token, request).0.clients && before.name == after.name
    ensures after.organization == before.organization && after.workspace == before.workspace
    ensures after.role == before.role
  {
    hide Created, Updated, Deleted;
    var auth := CheckAdminAuth(adminKey, s, token);
    var (s', status) := Handled(adminKey, s, token, request);
    if after in s.clients {
      SameNameSameClient(s.clients, before, after);
    } else if auth.Granted? {
      match request
      case Create(body, generated) => CreateEffect(s, auth.identity, body, generated);
      case Update(name, body, generated) =>
        var was := UpdateEffect(s, auth.identity, name, body, generated);
        if status == 200 && was.name == before.name {
          SameNameSameClient(s.clients, before, was);
        }
      case Delete(name) => DeleteEffect(s, auth.identity, name);
    }
  }

  /** A created client is what was asked for, in the caller's own organization when the caller is scoped, and the key
    it was given is its only one. */
  lemma CreatedClientIsAsRequested(adminKey: Option<string>, s: State, token: Option<string>, body: CreateBody,
                                   generated: string)
    requires Consistent(s) && CheckAdminAuth(adminKey, s, token).Granted?
    requires Handled(adminKey, s, token, Create(Some(body), generated)).1 == 201
    ensures var s' := Handled(adminKey, s, token, Create(Some(body), generated)).0;
            var identity := CheckAdminAuth(adminKey, s, token).identity;
            && (exists c | c in s'.clients ::
                  && c.name == body.name && c.requestsPerMinute == body.requestsPerMinute
                  && c.budgetUsd == body.budgetUsd && c.budgetPeriod == body.budgetPeriod
                  && c.workspace == body.workspace && c.role == body.role
                  && c.organization == if identity.Scoped? then identity.organization else body.organization)
            && (forall k :: k in s'.keys && s'.keys[k].name == body.name
                            <==> k == if body.apiKey.Some? then body.apiKey.value else generated)
  {
    hide Created;
    var s' := Handled(adminKey, s, token, Create(Some(body), generated)).0;
    CreateEffect(s, CheckAdminAuth(adminKey, s, token).identity, Some(body), generated);
    assert forall k :: k in KeysOf(s'.keys, body.name) <==> k in s'.keys && s'.keys[k].name == body.name;
  }

  /** An update sets the fields the request names and keeps the others. */
  lemma UpdateSetsNamedFields(adminKey: Option<string>, s: State, token: Option<string>, name: string, body: UpdateBody,
                              generated: string, before: Client, after: Client)
    requires Consistent(s) && generated !in s.keys && CheckAdminAuth(adminKey, s, token).Granted?
    requires Handled(adminKey, s, token, Update(name, Some(body), generated)).1 == 200
    requires before in s.clients && before.name == name
    requires after in Handled(adminKey, s, token, Update(name, Some(body), generated)).0.clients && after.name == name
    ensures after.requestsPerMinute
            == if body.requestsPerMinute.Some? then body.requestsPerMinute.value else before.requestsPerMinute
    ensures after.budgetUsd == if body.budgetUsd.Some? then body.budgetUsd.value else before.budgetUsd
    ensures after.budgetPeriod == if body.budgetPeriod.Some? then body.budgetPeriod.value else before.budgetPeriod
  {
    hide Updated;
    var was := UpdateEffect(s, CheckAdminAuth(adminKey, s, token).identity, name, Some(body), generated);
    SameNameSameClient(s.clients, was, before);
  }

  /** A rotated key resolves to nobody and its successor to the client; a deleted client leaves nothing behind. */
  lemma RevokedKeysResolveToNobody(adminKey: Option<string>, s: State, token: Option<string>, request: Request)
    requires Consistent(s) && FreshKey(s, request)
    requires Handled(adminKey, s, token, request).1 == 200
    ensures var s' := Handled(adminKey, s, token, request).0;
            && (request.Update? && request.update.value.rotateApiKey ==>
                  && (forall k | k in s.keys && s.keys[k].name == request.name :: k !in s'.keys)
                  && (forall k :: k in s'.keys && s'.keys[k].name == request.name <==> k == request.generated))
            && (request.Delete? ==>
                  && ClientIsGone(s', request.name)
                  && (forall k | k in s.keys && s.keys[k].name == request.name :: k !in s'.keys)
                  && (forall k | k in s'.keys :: s'.keys[k].name != request.name))
  {
    hide UpdatedKeys;
    var s' := Handled(adminKey, s, token, request).0;
    assert forall t: State, k, name :: k in KeysOf(t.keys, name) <==> k in t.keys && t.keys[k].name == name;
    var auth := CheckAdminAuth(adminKey, s, token);
    if request.Update? {
      var was := UpdateEffect(s, auth.identity, request.name, request.update, request.generated);
    } else if request.Delete? {
      DeleteEffect(s, auth.identity, request.name);
    }
  }

  // --- Who may do what ---------------------------------------------------------------------------------

  /** An administrator's own key. */
  ghost predicate IsAdminKey(s: State, token: string, organization: Option<string>) {
    exists c | c in s.clients ::
      c.role == AdminRole && c.organization == organization && token in s.keys && s.keys[token].name == c.name
  }

  /** The global token is unscoped, the key of an admin-role client is scoped to that client's organization, and
    nothing else is let in; without a global token and an admin-role client the API does not exist. */
  lemma AuthorizationIsExact(adminKey: Option<string>, s: State, token: Option<string>)
    requires Consistent(s)
    ensures var auth := CheckAdminAuth(adminKey, s, token);
            && (auth == Granted(Global) <==> token.Some? && token == adminKey)
            && (forall organization ::
                  auth == Granted(Scoped(organization))
                  <==> token.Some? && token != adminKey && IsAdminKey(s, token.value, organization))
            && (auth == Denied(404) <==> adminKey.None? && forall c | c in s.clients :: c.role == Member)
            && (auth.Denied? ==> auth.status == 401 || auth.status == 404)
  {
  }

  predicate ValidCreate(b: CreateBody) {
    b.name != "" && b.requestsPerMinute > 0 && (b.budgetUsd.Some? ==> b.budgetUsd.value >= 0.0)
  }

  predicate ValidUpdate(b: UpdateBody) {
    && b.requestsPerMinute != Some(0)
    && (b.budgetUsd.Some? && b.budgetUsd.value.Some? ==> b.budgetUsd.value.value >= 0.0)
  }

  ghost predicate Manages(s: State, identity: Identity, name: string) {
    exists c | c in s.clients ::
      c.name == name && (identity.Scoped? ==> c.organization == identity.organization)
  }

  /** A granted request is carried out exactly when it is well-formed and what it names is free, or in scope. */
  lemma StatusesAreExact(adminKey: Option<string>, s: State, token: Option<string>, request: Request)
    requires CheckAdminAuth(adminKey, s, token).Granted?
    ensures var identity := CheckAdminAuth(adminKey, s, token).identity;
            var status := Handled(adminKey, s, token, request).1;
            match request
            case Create(body, generated) =>
              && (status == 400 <==> body.None? || !ValidCreate(body.value))
              && (status == 201 <==> body.Some? && ValidCreate(body.value) && !Exists(s.clients, body.value.name)
                                     && (if body.value.apiKey.Some? then body.value.apiKey.value !in s.keys
                                         else generated !in s.keys))
              && (status == 201 || status == 400 || status == 409)
            case Update(name, body, _) =>
              && (status == 400 <==> body.None? || !ValidUpdate(body.value))
              && (status == 200 <==> body.Some? && ValidUpdate(body.value) && Manages(s, identity, name))
              && (status == 200 || status == 400 || status == 404)
            case Delete(name) =>
              && (status == 200 <==> Manages(s, identity, name))
              && (status == 200 || status == 404)
  {
    hide UpdatedKeys;
    var identity := CheckAdminAuth(adminKey, s, token).identity;
    match request
    case Create(body, generated) =>
      if body.Some? {
        FindsExactly(s.clients, Named(body.value.name));
        assert forall c | c in s.clients :: Named(body.value.name)(c) <==> c.name == body.value.name;
      }
    case Update(name, body, _) =>
      FindsExactly(s.clients, Managed(identity, name));
      ManagedMeans(s, identity, name);
    case Delete(name) =>
      FindsExactly(s.clients, Managed(identity, name));
      ManagedMeans(s, identity, name);
      WithoutKeepsLength(s.clients, Managed(identity, name));
  }

  lemma FindsExactly(clients: seq<Client>, matches: Client -> bool)
    ensures Find(clients, matches) < |clients| <==> exists c | c in clients :: matches(c)
  {
  }

  lemma ManagedMeans(s: State, identity: Identity, name: string)
    ensures Manages(s, identity, name) <==> exists c | c in s.clients :: Managed(identity, name)(c)
  {
  }

  lemma {:induction false} WithoutKeepsLength(clients: seq<Client>, matches: Client -> bool)
    ensures |Without(clients, matches)| == |clients| <==> !exists c | c in clients :: matches(c)
  {
    if clients != [] {
      var n := |clients| - 1;
      WithoutKeepsLength(clients[..n], matches);
      assert clients == clients[..n] + [clients[n]];
    }
  }

  // --- Startup and whole runs -----------------------------------------------------------------------

  /** `env` gives the environment variable of each client, when it is set. */
  function LoadedKeys(clients: seq<Client>, env: map<string, string>): map<string, KeyEntry> {
    if clients == [] then map[]
    else
      var keys, c := LoadedKeys(clients[..|clients| - 1], env), clients[|clients| - 1];
      if c.name in env && env[c.name] != "" then keys[env[c.name] := KeyEntry(c.name, c.requestsPerMinute)] else keys
  }

  /** `settings_from_clients` */
  function LoadedBudgets(clients: seq<Client>): map<string, Budget> {
    if clients == [] then map[]
    else
      var budgets, c := LoadedBudgets(clients[..|clients| - 1]), clients[|clients| - 1];
      if c.budgetUsd.Some? then budgets[c.name := Budget(c.budgetUsd.value, c.budgetPeriod)] else budgets
  }

  function Startup(clients: seq<Client>, env: map<string, string>): State {
    State(clients, LoadedKeys(clients, env), LoadedBudgets(clients))
  }

  method LoadKeys(clients: seq<Client>, env: map<string, string>) returns (keys: map<string, KeyEntry>)
    ensures keys == LoadedKeys(clients, env)
  {
    keys := map[];
    for i := 0 to |clients|
      invariant keys == LoadedKeys(clients[..i], env)
    {
      var c := clients[i];
      assert clients[..i + 1][..i] == clients[..i];
      if c.name in env && env[c.name] != "" {
        keys := keys[env[c.name] := KeyEntry(c.name, c.requestsPerMinute)];
      }
    }
    assert clients[..|clients|] == clients;
  }

  /** A loaded key is the variable of the client it names. */
  lemma {:induction false} LoadedKeysMatch(clients: seq<Client>, env: map<string, string>)
    ensures forall k | k in LoadedKeys(clients, env) ::
              var e := LoadedKeys(clients, env)[k];
              KeyMatches(clients, e) && e.name in env && env[e.name] == k
  {
    if clients != [] {
      var rest, c := clients[..|clients| - 1], clients[|clients| - 1];
      LoadedKeysMatch(rest, env);
      assert clients == rest + [c];
      forall e | KeyMatches(rest, e)
        ensures KeyMatches(clients, e)
      {
        var d :| d in rest && d.name == e.name && d.requestsPerMinute == e.rpm;
        assert d in clients;
      }
      assert c in clients;
    }
  }

  /** Every client whose variable is set and not empty gets its key, and nobody else does. */
  lemma {:induction false} LoadedKeysAre(clients: seq<Client>, env: map<string, string>, key: string)
    ensures key in LoadedKeys(clients, env)
            <==> key != "" && exists c | c in clients :: c.name in env && env[c.name] == key
    ensures key in LoadedKeys(clients, env) ==>
              exists c | c in clients :: c.name in env && env[c.name] == key
                                         && LoadedKeys(clients, env)[key] == KeyEntry(c.name, c.requestsPerMinute)
  {
    if clients != [] {
      var rest, c := clients[..|clients| - 1], clients[|clients| - 1];
      LoadedKeysAre(rest, env, key);
      assert clients == rest + [c];
      assert c in clients;
    }
  }

  lemma {:induction false} LoadedBudgetsMatch(clients: seq<Client>)
    requires UniqueNames(clients)
    ensures forall c | c in clients :: BudgetIs(LoadedBudgets(clients), c)
    ensures forall name | name in LoadedBudgets(clients) :: Exists(clients, name)
  {
    if clients != [] {
      var n := |clients| - 1;
      var rest, c := clients[..n], clients[n];
      LoadedBudgetsMatch(rest);
      assert clients == rest + [c];
      assert forall d | d in rest :: d.name != c.name;
      forall name | name in LoadedBudgets(clients)
        ensures Exists(clients, name)
      {
        if name in LoadedBudgets(rest) {
          var d :| d in rest && d.name == name;
          assert d in clients;
        } else {
          assert c in clients;
        }
      }
    }
  }

  /** Any set of differently named clients starts consistent, whatever the environment holds. */
  lemma StartupIsConsistent(clients: seq<Client>, env: map<string, string>)
    requires UniqueNames(clients)
    ensures Consistent(Startup(clients, env))
  {
    LoadedKeysMatch(clients, env);
    LoadedBudgetsMatch(clients);
  }

  datatype Call = Call(token: Option<string>, request: Request)

  ghost function After(adminKey: Option<string>, s: State, calls: seq<Call>): State {
    if calls == [] then s
    else
      var last := calls[|calls| - 1];
      Handled(adminKey, After(adminKey, s, calls[..|calls| - 1]), last.token, last.request).0
  }

  /** Every generated key is new when it is made up. */
  ghost predicate FreshKeys(adminKey: Option<string>, s: State, calls: seq<Call>) {
    forall i | 0 <= i < |calls| :: FreshKey(After(adminKey, s, calls[..i]), calls[i].request)
  }

  /** Main result: every state a server can reach by admin requests is consistent. */
  lemma {:induction false} ReachableIsConsistent(adminKey: Option<string>, clients: seq<Client>,
                                                 env: map<string, string>, calls: seq<Call>)
    requires UniqueNames(clients) && FreshKeys(adminKey, Startup(clients, env), calls)
    ensures Consistent(After(adminKey, Startup(clients, env), calls))
  {
    hide Handled, Consistent, FreshKey;
    if calls == [] {
      StartupIsConsistent(clients, env);
    } else {
      var rest, last := calls[..|calls| - 1], calls[|calls| - 1];
      assert forall i | 0 <= i < |rest| :: rest[..i] == calls[..i];
      ReachableIsConsistent(adminKey, clients, env, rest);
      RequestsKeepConsistent(adminKey, After(adminKey, Startup(clients, env), rest), last.token, last.request);
    }
  }

  /** The request asks for `key`, or is the one it was generated for. */
  predicate Brings(request: Request, key: string) {
    match request
    case Create(body, generated) =>
      body.Some? && key == if body.value.apiKey.Some? then body.value.apiKey.value else generated
    case Update(_, body, generated) => body.Some? && body.value.rotateApiKey && generated == key
    case Delete(_) => false
  }

  /** The request is carried out and takes this key of this client away. */
  ghost predicate Revokes(adminKey: Option<string>, s: State, call: Call, name: string, key: string) {
    && key in s.keys && s.keys[key].name == name
    && Handled(adminKey, s, call.token, call.request).1 == 200
    && ((call.request.Update? && call.request.name == name && call.request.update.value.rotateApiKey)
        || call.request == Delete(name))
  }

  lemma NewKeysAreBrought(adminKey: Option<string>, s: State, token: Option<string>, request: Request, key: string)
    requires key !in s.keys && !Brings(request, key)
    ensures key !in Handled(adminKey, s, token, request).0.keys
  {
  }

  lemma {:induction false} AbsentKeysStayOut(adminKey: Option<string>, s: State, calls: seq<Call>, key: string)
    requires key !in s.keys && forall i | 0 <= i < |calls| :: !Brings(calls[i].request, key)
    ensures key !in After(adminKey, s, calls).keys
  {
    hide Handled, Brings;
    if calls != [] {
      var rest, last := calls[..|calls| - 1], calls[|calls| - 1];
      AbsentKeysStayOut(adminKey, s, rest, key);
      NewKeysAreBrought(adminKey, After(adminKey, s, rest), last.token, last.request, key);
    }
  }

  lemma KeyIsRevoked(adminKey: Option<string>, s: State, call: Call, name: string, key: string)
    requires Consistent(s) && FreshKey(s, call.request) && Revokes(adminKey, s, call, name, key)
    ensures key !in Handled(adminKey, s, call.token, call.request).0.keys
  {
    hide Handled, Consistent, FreshKey;
    RevokedKeysResolveToNobody(adminKey, s, call.token, call.request);
  }

  lemma {:induction false} RunsConcat(adminKey: Option<string>, s: State, a: seq<Call>, b: seq<Call>)
    ensures After(adminKey, s, a + b) == After(adminKey, After(adminKey, s, a), b)
  {
    hide Handled;
    if b == [] {
      assert a + b == a;
    } else {
      var n := |b| - 1;
      assert (a + b)[..|a + b| - 1] == a + b[..n];
      RunsConcat(adminKey, s, a, b[..n]);
    }
  }

  /** Main result: over every run from startup, a key that was rotated away or whose client was deleted stays out, and
    lets nobody in, until a later request asks for that very key. */
  lemma RevokedKeysStayOut(adminKey: Option<string>, clients: seq<Client>, env: map<string, string>, pre: seq<Call>,
                           call: Call, post: seq<Call>, name: string, key: string)
    requires UniqueNames(clients) && FreshKeys(adminKey, Startup(clients, env), pre + [call])
    requires Revokes(adminKey, After(adminKey, Startup(clients, env), pre), call, name, key)
    requires forall i | 0 <= i < |post| :: !Brings(post[i].request, key)
    ensures var s := After(adminKey, Startup(clients, env), pre + [call] + post);
            key !in s.keys && (Some(key) != adminKey ==> CheckAdminAuth(adminKey, s, Some(key)).Denied?)
  {
    hide Handled, Consistent, Revokes, Brings, FreshKey;
    var start := Startup(clients, env);
    var before := After(adminKey, start, pre);
    var run := pre + [call];
    assert run[..|pre|] == pre && run[|pre|] == call;
    assert forall i | 0 <= i < |pre| :: pre[..i] == run[..i] && pre[i] == run[i];
    ReachableIsConsistent(adminKey, clients, env, pre);
    KeyIsRevoked(adminKey, before, call, name, key);
    assert After(adminKey, start, run) == Handled(adminKey, before, call.token, call.request).0;
    AbsentKeysStayOut(adminKey, After(adminKey, start, run), post, key);
    RunsConcat(adminKey, start, run, post);
  }

  // --- Rate limits -------------------------------------------------------------------------------------

  /** `resolve_rate_limit`: the bucket and rate of a request, from the client list. */
  function ResolveRateLimit(s: State, clientName: Option<string>, ip: string, defaultRpm: Option<nat>)
    : Option<(string, nat)>
  {
    var i := if clientName.Some? then Find(s.clients, Named(clientName.value)) else |s.clients|;
    if i < |s.clients| then Some(("client:" + s.clients[i].name, s.clients[i].requestsPerMinute))
    else if defaultRpm.Some? then Some(("ip:" + ip, defaultRpm.value))
    else None
  }

  /** A caller is held to the client it was identified as; the address counts for nobody else, and only if there is a
    default rate. */
  lemma RateLimitIs(s: State, clientName: Option<string>, ip: string, defaultRpm: Option<nat>)
    requires UniqueNames(s.clients)
    ensures var limit := ResolveRateLimit(s, clientName, ip, defaultRpm);
            && (forall c | c in s.clients && clientName == Some(c.name) ::
                  limit == Some(("client:" + c.name, c.requestsPerMinute)))
            && ((forall c | c in s.clients :: clientName != Some(c.name)) ==>
                  && (defaultRpm.Some? ==> limit == Some(("ip:" + ip, defaultRpm.value)))
                  && (defaultRpm.None? ==> limit == None))
  {
  }

  /** In a consistent state a caller with an API key gets the rate stored beside that key, never the fallback. */
  lemma KeyDecidesRate(s: State, key: string, ip: string, defaultRpm: Option<nat>)
    requires Consistent(s) && key in s.keys
    ensures ResolveRateLimit(s, Some(s.keys[key].name), ip, defaultRpm)
            == Some(("client:" + s.keys[key].name, s.keys[key].rpm))
  {
  }

  // --- The shared state of the server ----------------------------------------------------------------------

  class AppState {
    const adminKey: Option<string>
    var clients: seq<Client>
    var clientKeys: map<string, KeyEntry>
    var budgets: map<string, Budget>

    ghost function Contents(): State
      reads this
    {
      State(clients, clientKeys, budgets)
    }

    constructor (adminKey: Option<string>, configured: seq<Client>, env: map<string, string>)
      ensures this.adminKey == adminKey && Contents() == Startup(configured, env)
    {
      this.adminKey := adminKey;
      clients := configured;
      budgets := LoadedBudgets(configured);
      var keys := LoadKeys(configured, env);
      clientKeys := keys;
    }

    method CreateClient(token: Option<string>, body: Option<CreateBody>, generated: string) returns (status: nat)
      modifies this
      ensures (Contents(), status) == Handled(adminKey, old(Contents()), token, Create(body, generated))
    {
      var auth := CheckAdminAuth(adminKey, State(clients, clientKeys, budgets), token);
      if auth.Denied? {
        return auth.status;
      }
      if body.None? {
        return 400;
      }
      var b := body.value;
      if b.name == "" || b.requestsPerMinute == 0 || (b.budgetUsd.Some? && b.budgetUsd.value < 0.0) {
        return 400;
      }
      if Find(clients, Named(b.name)) < |clients| {
        return 409;
      }
      var key := if b.apiKey.Some? then b.apiKey.value else generated;
      if key in clientKeys {
        return 409;
      }
      clientKeys := clientKeys[key := KeyEntry(b.name, b.requestsPerMinute)];
      var c := NewClient(auth.identity, b);
      clients := clients + [c];
      budgets := WithBudget(budgets, c);
      return 201;
    }

    method UpdateClient(token: Option<string>, name: string, body: Option<UpdateBody>, generated: string)
      returns (status: nat, newKey: Option<string>)
      requires Consistent(Contents())
      modifies this
      ensures (Contents(), status) == Handled(adminKey, old(Contents()), token, Update(name, body, generated))
      ensures newKey == if status == 200 && body.value.rotateApiKey then Some(generated) else None
    {
      newKey := None;
      var auth := CheckAdminAuth(adminKey, State(clients, clientKeys, budgets), token);
      if auth.Denied? {
        return auth.status, None;
      }
      if body.None? {
        return 400, None;
      }
      var b := body.value;
      if b.requestsPerMinute == Some(0) {
        return 400, None;
      }
      if b.budgetUsd.Some? && b.budgetUsd.value.Some? && b.budgetUsd.value.value < 0.0 {
        return 400, None;
      }
      var i := Find(clients, Managed(auth.identity, name));
      if i == |clients| {
        return 404, None;
      }
      var c := UpdatedClient(clients[i], b);
      clients := clients[i := c];
      var existing := KeysOf(clientKeys, name);
      if existing == {} {
        if b.rotateApiKey {
          clientKeys := clientKeys[generated := KeyEntry(name, c.requestsPerMinute)];
          newKey := Some(generated);
        }
      } else {
        var found :| found in existing;
        assert existing == {found};
        if b.rotateApiKey {
          clientKeys := (clientKeys - {found})[generated := KeyEntry(name, c.requestsPerMinute)];
          newKey := Some(generated);
        } else {
          clientKeys := clientKeys[found := KeyEntry(name, c.requestsPerMinute)];
        }
      }
      budgets := WithBudget(budgets, c);
      status := 200;
    }

    method DeleteClient(token: Option<string>, name: string) returns (status: nat)
      modifies this
      ensures (Contents(), status) == Handled(adminKey, old(Contents()), token, Delete(name))
    {
      var auth := CheckAdminAuth(adminKey, State(clients, clientKeys, budgets), token);
      if auth.Denied? {
        return auth.status;
      }
      var before := |clients|;
      var kept := Without(clients, Managed(auth.identity, name));
      if |kept| == before {
        return 404;
      }
      clients := kept;
      clientKeys := clientKeys - KeysOf(clientKeys, name);
      budgets := budgets - {name};
      return 200;
    }
  }
}
