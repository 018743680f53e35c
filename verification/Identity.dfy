/**
 Tenants, memberships, identity clients and user sessions, and when a session token authenticates
 (src/shared_integration/identity.py). Each method is one transaction. Times are microseconds; nothing
 here needs the clock to be monotone. Ids and tokens are drawn by a generator and passed in.
 */
module Identity {
  import opened Prelude
  import opened Findings

  const ROLES := {"viewer", "analyst", "admin"}
  const TENANT_STATUSES := {"active", "suspended", "disabled"}
  const MEMBERSHIP_STATUSES := {"active", "suspended"}
  const SECOND := 1_000_000
  const MAX_SESSION_TTL_SECONDS := 15 * 60

  datatype Membership = Membership(role: string, status: string)
  datatype Client = Client(
    name: string, issuers: seq<string>, active: bool, revokedAt: Option<int>, rotatedFrom: Option<string>)
  datatype Session = Session(
    id: string, user: string, tenant: string, client: string,
    createdAt: int, expiresAt: int, lastSeenAt: Option<int>, revokedAt: Option<int>)

  datatype State = State(
    tenants: map<string, string>,
    users: set<string>,
    memberships: map<(string, string), Membership>,
    clients: map<string, Client>,
    sessions: map<string, Session>)

  datatype IdentityError = ValueError | KeyError

  /** The arguments of the state-changing calls, with the time each reads and the values it draws. */
  datatype Op =
    | AddTenant(tenant: string)
    | AddUser(user: string)
    | SetTenantStatus(tenant: string, status: string)
    | SetMembership(tenant: string, user: string, role: string)
    | SetMembershipStatus(tenant: string, user: string, status: string)
    | IssueClient(client: string, name: string, issuers: seq<string>)
    | RotateClient(previous: string, client: string)
    | RevokeClient(client: string, now: int)
    | IssueSession(client: string, tenant: string, user: string, ttl: int, id: string, token: string, now: int)
    | Authenticate(token: string, now: int)
    | RevokeSession(tenant: string, id: string, now: int)
    | Cleanup(cutoff: int)

  datatype Principal = Principal(tenant: string, user: string, role: string, session: string, client: string)

  // ---------------------------------------------------------------- client names and issuers

  const MAX_NAME := 255
  const MAX_ISSUER := 512
  const MAX_ISSUERS := 16

  function CleanName(name: string): Option<string> {
    if 1 <= |Strip(name)| <= MAX_NAME then Some(Strip(name)) else None
  }

  predicate IssuerOk(issuer: string) {
    1 <= |Strip(issuer)| <= MAX_ISSUER
  }

  function Stripped(issuers: seq<string>): seq<string> {
    seq(|issuers|, i requires 0 <= i < |issuers| => Strip(issuers[i]))
  }

  /** The stripped issuers without repeats, if each is acceptable and there are one to sixteen of them. */
  function CleanIssuers(issuers: seq<string>): Option<seq<string>> {
    if (forall i :: 0 <= i < |issuers| ==> IssuerOk(issuers[i])) && 1 <= |Dedup(Stripped(issuers))| <= MAX_ISSUERS
    then Some(Dedup(Stripped(issuers))) else None
  }

  method NormalizeIssuers(issuers: seq<string>) returns (r: Result<seq<string>, IdentityError>)
    ensures r == match CleanIssuers(issuers) case Some(clean) => Ok(clean) case None => Raised(ValueError)
  {
    var result := [];
    for k := 0 to |issuers|
      invariant forall i :: 0 <= i < k ==> IssuerOk(issuers[i])
      invariant result == Dedup(Stripped(issuers[..k]))
    {
      var clean := Strip(issuers[k]);
      if clean == "" || |clean| > MAX_ISSUER {
        assert !IssuerOk(issuers[k]);
        return Raised(ValueError);
      }
      assert Stripped(issuers[..k + 1]) == Stripped(issuers[..k]) + [clean];
      DedupAppend(Stripped(issuers[..k]), clean);
      if clean !in result { result := result + [clean]; }
    }
    assert issuers[..|issuers|] == issuers;
    if result == [] || |result| > MAX_ISSUERS { return Raised(ValueError); }
    r := Ok(result);
  }

  // ---------------------------------------------------------------- the transactions

  predicate ClientLive(s: State, client: string) {
    client in s.clients && s.clients[client].active && s.clients[client].revokedAt == None
  }

  predicate MemberLive(s: State, tenant: string, user: string) {
    && (tenant, user) in s.memberships
    && s.memberships[(tenant, user)].status == "active" && s.memberships[(tenant, user)].role in ROLES
  }

  predicate TenantLive(s: State, tenant: string) {
    tenant in s.tenants && s.tenants[tenant] == "active"
  }

  /** Why a session cannot be issued, in the order the checks are made. */
  function IssueFault(s: State, client: string, tenant: string, user: string, ttl: int): Option<IdentityError> {
    if !(1 <= ttl <= MAX_SESSION_TTL_SECONDS) then Some(ValueError)
    else if !ClientLive(s, client) then Some(ValueError)
    else if tenant !in s.tenants then Some(KeyError)
    else if s.tenants[tenant] != "active" then Some(ValueError)
    else if user !in s.users then Some(KeyError)
    else if !MemberLive(s, tenant, user) then Some(ValueError)
    else None
  }

  /** The principal a token stands for at `now`, if any. */
  function PrincipalOf(s: State, token: string, now: int): Option<Principal> {
    if token !in s.sessions then None
    else
      var row := s.sessions[token];
      if row.revokedAt.Some? || row.expiresAt <= now then None
      else if !ClientLive(s, row.client) || !TenantLive(s, row.tenant) || !MemberLive(s, row.tenant, row.user) then None
      else Some(Principal(row.tenant, row.user, s.memberships[(row.tenant, row.user)].role, row.id, row.client))
  }

  function NewSession(client: string, tenant: string, user: string, ttl: int, id: string, now: int): Session {
    Session(id, user, tenant, client, now, now + ttl * SECOND, None, None)
  }

  function Revoked(row: Session, tenant: string, id: string, now: int): Session {
    if row.tenant == tenant && row.id == id && row.revokedAt == None then row.(revokedAt := Some(now)) else row
  }

  /** The state a call leaves behind; a call that raises changes nothing. */
  function Apply(s: State, op: Op): State {
    match op
    case AddTenant(tenant) => if tenant in s.tenants then s else s.(tenants := s.tenants[tenant := "active"])
    case AddUser(user) => s.(users := s.users + {user})
    case SetTenantStatus(tenant, status) =>
      if status in TENANT_STATUSES && tenant in s.tenants then s.(tenants := s.tenants[tenant := status]) else s
    case SetMembership(tenant, user, role) =>
      if role !in ROLES || tenant !in s.tenants || user !in s.users then s
      else
        var status := if (tenant, user) in s.memberships then s.memberships[(tenant, user)].status else "active";
        s.(memberships := s.memberships[(tenant, user) := Membership(role, status)])
    case SetMembershipStatus(tenant, user, status) =>
      if status !in MEMBERSHIP_STATUSES || (tenant, user) !in s.memberships then s
      else s.(memberships := s.memberships[(tenant, user) := s.memberships[(tenant, user)].(status := status)])
    case IssueClient(client, name, issuers) =>
      if client in s.clients || CleanName(name).None? || CleanIssuers(issuers).None? then s
      else
        var row := Client(CleanName(name).value, CleanIssuers(issuers).value, true, None, None);
        s.(clients := s.clients[client := row])
    case RotateClient(previous, client) =>
      if !ClientLive(s, previous) || client in s.clients then s
      else
        var row := s.clients[previous];
        s.(clients := s.clients[client := Client(row.name, row.issuers, true, None, Some(previous))])
    case RevokeClient(client, now) =>
      if client !in s.clients || s.clients[client].revokedAt.Some? then s
      else s.(clients := s.clients[client := s.clients[client].(active := false, revokedAt := Some(now))])
    case IssueSession(client, tenant, user, ttl, id, token, now) =>
      if IssueFault(s, client, tenant, user, ttl).Some? || token in s.sessions then s
      else s.(sessions := s.sessions[token := NewSession(client, tenant, user, ttl, id, now)])
    case Authenticate(token, now) =>
      if PrincipalOf(s, token, now).None? then s
      else s.(sessions := s.sessions[token := s.sessions[token].(lastSeenAt := Some(now))])
    case RevokeSession(tenant, id, now) =>
      s.(sessions := map token | token in s.sessions :: Revoked(s.sessions[token], tenant, id, now))
    case Cleanup(cutoff) =>
      s.(sessions := map token | token in s.sessions && s.sessions[token].expiresAt > cutoff :: s.sessions[token])
  }

  // ---------------------------------------------------------------- the repository as an object

  class Repository {
    var tenants: map<string, string>
    var users: set<string>
    var memberships: map<(string, string), Membership>
    var clients: map<string, Client>
    var sessions: map<string, Session>

    ghost function Contents(): State
      reads this
    {
      State(tenants, users, memberships, clients, sessions)
    }

    constructor ()
      ensures Contents() == EMPTY
    {
      tenants, users, memberships, clients, sessions := map[], {}, map[], map[], map[];
    }

    method SetTenantStatus(tenant: string, status: string) returns (r: Result<string, IdentityError>)
      modifies this`tenants
      ensures Contents() == Apply(old(Contents()), Op.SetTenantStatus(tenant, status))
      ensures r == if status !in TENANT_STATUSES then Raised(ValueError)
                   else if tenant in old(tenants) then Ok(old(tenants)[tenant]) else Raised(KeyError)
      ensures tenants == if r.Ok? then old(tenants)[tenant := status] else old(tenants)
    {
      if status !in TENANT_STATUSES { return Raised(ValueError); }
      if tenant !in tenants { return Raised(KeyError); }
      var previous := tenants[tenant];
      tenants := tenants[tenant := status];
      r := Ok(previous);
    }

    method SetMembership(tenant: string, user: string, role: string) returns (r: Result<Membership, IdentityError>)
      modifies this`memberships
      ensures Contents() == Apply(old(Contents()), Op.SetMembership(tenant, user, role))
      ensures role !in ROLES ==> r == Raised(ValueError)
      ensures role in ROLES ==> (r.Ok? <==> tenant in tenants && user in users) && (r.Raised? ==> r.error == KeyError)
      ensures r.Ok? ==> memberships == old(memberships)[(tenant, user) := r.value] && r.value.role == role
      ensures r.Ok? && (tenant, user) in old(memberships) ==>
        r.value.status == old(memberships)[(tenant, user)].status
      ensures r.Ok? && (tenant, user) !in old(memberships) ==> r.value.status == "active"
      ensures r.Raised? ==> memberships == old(memberships)
    {
      if role !in ROLES { return Raised(ValueError); }
      if tenant !in tenants { return Raised(KeyError); }
      if user !in users { return Raised(KeyError); }
      var row := Membership(role, "active");
      if (tenant, user) in memberships { row := memberships[(tenant, user)].(role := role); }
      memberships := memberships[(tenant, user) := row];
      r := Ok(row);
    }

    method SetMembershipStatus(tenant: string, user: string, status: string)
      returns (r: Result<Membership, IdentityError>)
      modifies this`memberships
      ensures Contents() == Apply(old(Contents()), Op.SetMembershipStatus(tenant, user, status))
      ensures r == if status !in MEMBERSHIP_STATUSES then Raised(ValueError)
                   else if (tenant, user) in old(memberships)
                   then Ok(Membership(old(memberships)[(tenant, user)].role, status))
                   else Raised(KeyError)
      ensures memberships == if r.Ok? then old(memberships)[(tenant, user) := r.value] else old(memberships)
    {
      if status !in MEMBERSHIP_STATUSES { return Raised(ValueError); }
      if (tenant, user) !in memberships { return Raised(KeyError); }
      var row := memberships[(tenant, user)].(status := status);
      memberships := memberships[(tenant, user) := row];
      r := Ok(row);
    }

    method IssueClient(client: string, name: string, issuers: seq<string>) returns (r: Result<Client, IdentityError>)
      requires client !in clients
      modifies this`clients
      ensures Contents() == Apply(old(Contents()), Op.IssueClient(client, name, issuers))
      ensures r.Ok? <==> CleanName(name).Some? && CleanIssuers(issuers).Some?
      ensures r.Ok? ==> r.value == Client(CleanName(name).value, CleanIssuers(issuers).value, true, None, None)
      ensures clients == if r.Ok? then old(clients)[client := r.value] else old(clients)
      ensures r.Raised? ==> r.error == ValueError
    {
      var clean := Strip(name);
      if clean == "" || |clean| > MAX_NAME { return Raised(ValueError); }
      var allowed := NormalizeIssuers(issuers);
      if allowed.Raised? { return Raised(ValueError); }
      var row := Client(clean, allowed.value, true, None, None);
      clients := clients[client := row];
      r := Ok(row);
    }

    /** Rotation issues a successor and leaves its predecessor live until it is revoked. */
    method RotateClient(previous: string, client: string) returns (r: Result<Client, IdentityError>)
      requires client !in clients
      modifies this`clients
      ensures Contents() == Apply(old(Contents()), Op.RotateClient(previous, client))
      ensures r.Ok? <==> ClientLive(old(Contents()), previous)
      ensures r.Ok? ==> ClientLive(Contents(), previous) && ClientLive(Contents(), client)
      ensures r.Ok? ==> previous in old(clients)
      ensures r.Ok? ==>
        r.value == Client(old(clients)[previous].name, old(clients)[previous].issuers, true, None, Some(previous))
      ensures clients == if r.Ok? then old(clients)[client := r.value] else old(clients)
      ensures r.Raised? ==> r.error == if previous in old(clients) then ValueError else KeyError
    {
      if previous !in clients { return Raised(KeyError); }
      if !clients[previous].active || clients[previous].revokedAt.Some? { return Raised(ValueError); }
      var row := Client(clients[previous].name, clients[previous].issuers, true, None, Some(previous));
      clients := clients[client := row];
      r := Ok(row);
    }

    method RevokeClient(client: string, now: int) returns (found: bool)
      modifies this`clients
      ensures Contents() == Apply(old(Contents()), Op.RevokeClient(client, now))
      ensures found <==> client in old(clients)
      ensures clients ==
        if found && old(clients)[client].revokedAt == None
        then old(clients)[client := old(clients)[client].(active := false, revokedAt := Some(now))] else old(clients)
    {
      if client !in clients { return false; }
      var row := clients[client];
      if row.revokedAt == None {
        row := row.(active := false);
        row := row.(revokedAt := Some(now));
        clients := clients[client := row];
      }
      found := true;
    }

    method IssueSession(client: string, tenant: string, user: string, ttl: int, id: string, token: string, now: int)
      returns (r: Result<Session, IdentityError>)
      requires token !in sessions
      modifies this`sessions
      ensures Contents() == Apply(old(Contents()), Op.IssueSession(client, tenant, user, ttl, id, token, now))
      ensures r.Raised? <==> IssueFault(old(Contents()), client, tenant, user, ttl).Some?
      ensures r.Raised? ==> Some(r.error) == IssueFault(old(Contents()), client, tenant, user, ttl)
      ensures r.Ok? <==>
        && 1 <= ttl <= 900
        && client in clients && clients[client].active && clients[client].revokedAt == None
        && tenant in tenants && tenants[tenant] == "active" && user in users
        && (tenant, user) in memberships && memberships[(tenant, user)].status == "active"
        && memberships[(tenant, user)].role in ROLES
      ensures r.Raised? ==> (r.error == KeyError <==>
        && 1 <= ttl <= 900
        && client in clients && clients[client].active && clients[client].revokedAt == None
        && (tenant in tenants ==> tenants[tenant] == "active" && user !in users))
      ensures r.Ok? ==> r.value == Session(id, user, tenant, client, now, now + ttl * 1_000_000, None, None)
      ensures sessions == if r.Ok? then old(sessions)[token := r.value] else old(sessions)
    {
      if ttl < 1 || ttl > MAX_SESSION_TTL_SECONDS { return Raised(ValueError); }
      var expires := now + ttl * SECOND;
      if client !in clients || !clients[client].active || clients[client].revokedAt.Some? { return Raised(ValueError); }
      if tenant !in tenants { return Raised(KeyError); }
      if tenants[tenant] != "active" { return Raised(ValueError); }
      if user !in users { return Raised(KeyError); }
      if (tenant, user) !in memberships || memberships[(tenant, user)].status != "active" { return Raised(ValueError); }
      if memberships[(tenant, user)].role !in ROLES { return Raised(ValueError); }
      var row := Session(id, user, tenant, client, now, expires, None, None);
      sessions := sessions[token := row];
      r := Ok(row);
    }

    method Authenticate(token: string, now: int) returns (principal: Option<Principal>)
      modifies this`sessions
      ensures Contents() == Apply(old(Contents()), Op.Authenticate(token, now))
      ensures principal == PrincipalOf(old(Contents()), token, now)
      ensures sessions == if principal.Some? && token in old(sessions)
                          then old(sessions)[token := old(sessions)[token].(lastSeenAt := Some(now))] else old(sessions)
    {
      if token !in sessions { return None; }
      var row := sessions[token];
      if row.revokedAt.Some? || row.expiresAt <= now { return None; }
      if row.client !in clients || !clients[row.client].active || clients[row.client].revokedAt.Some? { return None; }
      if row.tenant !in tenants || tenants[row.tenant] != "active" { return None; }
      if (row.tenant, row.user) !in memberships { return None; }
      var membership := memberships[(row.tenant, row.user)];
      if membership.status != "active" || membership.role !in ROLES { return None; }
      sessions := sessions[token := row.(lastSeenAt := Some(now))];
      principal := Some(Principal(row.tenant, row.user, membership.role, row.id, row.client));
    }

    /** The row is looked up by tenant and id; the id is the primary key. */
    method RevokeSession(tenant: string, id: string, now: int) returns (found: bool)
      requires IdsUnique(Contents())
      modifies this`sessions
      ensures Contents() == Apply(old(Contents()), Op.RevokeSession(tenant, id, now))
      ensures found <==>
        exists token :: token in old(sessions) && old(sessions)[token].tenant == tenant && old(sessions)[token].id == id
      ensures sessions.Keys == old(sessions.Keys)
      ensures forall token :: token in old(sessions) ==>
        var row := old(sessions)[token];
        sessions[token] == if row.tenant == tenant && row.id == id && row.revokedAt == None
                           then row.(revokedAt := Some(now)) else row
    {
      if token :| token in sessions && sessions[token].tenant == tenant && sessions[token].id == id {
        var row := sessions[token];
        if row.revokedAt == None { sessions := sessions[token := row.(revokedAt := Some(now))]; }
        found := true;
      } else {
        found := false;
      }
    }

    method Cleanup(cutoff: int) returns (deleted: nat)
      modifies this`sessions
      ensures Contents() == Apply(old(Contents()), Op.Cleanup(cutoff))
      ensures deleted + |sessions| == |old(sessions)|
      ensures forall token :: token in sessions <==> token in old(sessions) && old(sessions)[token].expiresAt > cutoff
      ensures forall token :: token in sessions ==> sessions[token] == old(sessions)[token]
    {
      var before := sessions;
      sessions := map token | token in sessions && sessions[token].expiresAt > cutoff :: sessions[token];
      assert sessions.Keys <= before.Keys;
      assert |sessions| == |sessions.Keys| && |before| == |before.Keys|;
      assert before.Keys == sessions.Keys + (before.Keys - sessions.Keys);
      deleted := |before.Keys - sessions.Keys|;
    }
  }

  predicate IdsUnique(s: State) {
    forall a, b :: a in s.sessions && b in s.sessions && s.sessions[a].id == s.sessions[b].id ==> a == b
  }

  // ---------------------------------------------------------------- histories

  const EMPTY := State(map[], {}, map[], map[], map[])

  /** The state after the first `n` calls. */
  function After(ops: seq<Op>, n: nat): State
    requires n <= |ops|
  {
    if n == 0 then EMPTY else Apply(After(ops, n - 1), ops[n - 1])
  }

  /** The generator never draws a session id or a token twice. */
  predicate Fresh(ops: seq<Op>) {
    forall i, j :: 0 <= i < |ops| && 0 <= j < |ops| && Clash(ops[i], ops[j]) ==> i == j
  }

  predicate Clash(a: Op, b: Op) {
    a.IssueSession? && b.IssueSession? && (a.token == b.token || a.id == b.id)
  }

  /** Call `j` issues a session under `token`. */
  predicate Issues(ops: seq<Op>, j: int, token: string)
    requires 0 <= j < |ops|
  {
    && ops[j].IssueSession? && ops[j].token == token
    && IssueFault(After(ops, j), ops[j].client, ops[j].tenant, ops[j].user, ops[j].ttl) == None
  }

  function Expiry(op: Op): int
    requires op.IssueSession?
  {
    op.now + op.ttl * SECOND
  }

  /** Between calls `j` and `k` the session issued by call `j` was revoked. */
  predicate SessionRevoked(ops: seq<Op>, j: nat, k: nat)
    requires j < k <= |ops| && ops[j].IssueSession?
  {
    exists i :: j < i < k && ops[i].RevokeSession? && ops[i].tenant == ops[j].tenant && ops[i].id == ops[j].id
  }

  predicate ClientRevoked(ops: seq<Op>, j: nat, k: nat, client: string)
    requires j <= k <= |ops|
  {
    exists i :: j <= i < k && ops[i].RevokeClient? && ops[i].client == client
  }

  predicate CleanedUp(ops: seq<Op>, j: nat, k: nat)
    requires j < k <= |ops| && ops[j].IssueSession?
  {
    exists i :: j < i < k && ops[i].Cleanup? && Expiry(ops[j]) <= ops[i].cutoff
  }

  /** Every stored session comes from a call that issued it, and keeps its columns. */
  predicate ComesFrom(row: Session, op: Op)
  {
    op.IssueSession? && row.id == op.id && row.user == op.user && row.tenant == op.tenant && row.client == op.client
    && row.createdAt == op.now && row.expiresAt == Expiry(op)
  }

  /** The one call that can store a session is the one that issues it. */
  lemma SessionArrives(s: State, op: Op, s': State, token: string)
    requires s' == Apply(s, op) && token in s'.sessions && token !in s.sessions
    ensures op.IssueSession? && op.token == token && ComesFrom(s'.sessions[token], op)
    ensures IssueFault(s, op.client, op.tenant, op.user, op.ttl) == None
  {
  }

  /**
   A stored session is lost to a cleanup past its expiry only, marked by its own revocation only, and otherwise kept.
   */
  lemma SessionKept(s: State, op: Op, s': State, token: string)
    requires s' == Apply(s, op) && token in s.sessions
    ensures var row := s.sessions[token];
      && (token in s'.sessions <==> !(op.Cleanup? && row.expiresAt <= op.cutoff))
      && (token in s'.sessions ==>
            && s'.sessions[token] ==
               row.(revokedAt := s'.sessions[token].revokedAt, lastSeenAt := s'.sessions[token].lastSeenAt)
            && (s'.sessions[token].revokedAt.Some? <==>
                  row.revokedAt.Some? || (op.RevokeSession? && op.tenant == row.tenant && op.id == row.id)))
  {
  }

  /** A client is revoked by its own revocation only, and never comes back. */
  lemma ClientKept(s: State, op: Op, s': State, client: string)
    requires s' == Apply(s, op) && client in s.clients
    ensures client in s'.clients
    ensures s'.clients[client]
         == if op.RevokeClient? && op.client == client && s.clients[client].revokedAt == None
            then s.clients[client].(active := false, revokedAt := Some(op.now)) else s.clients[client]
  {
  }

  lemma ClientArrives(s: State, op: Op, s': State, client: string)
    requires s' == Apply(s, op) && client in s'.clients && client !in s.clients
    ensures s'.clients[client].active && s'.clients[client].revokedAt == None
  {
  }

  lemma {:induction false} Origin(ops: seq<Op>, k: nat, s: State, token: string) returns (j: nat)
    requires k <= |ops| && s == After(ops, k) && token in s.sessions
    ensures j < k && Issues(ops, j, token) && ComesFrom(s.sessions[token], ops[j])
  {
    var before := After(ops, k - 1);
    if token in before.sessions {
      j := Origin(ops, k - 1, before, token);
      SessionKept(before, ops[k - 1], s, token);
    } else {
      SessionArrives(before, ops[k - 1], s, token);
      j := k - 1;
    }
  }

  lemma SameDraw(ops: seq<Op>, i: nat, j: nat)
    requires Fresh(ops) && i < |ops| && j < |ops| && ops[i].IssueSession? && ops[j].IssueSession?
    requires ops[i].token == ops[j].token || ops[i].id == ops[j].id
    ensures i == j
  {
    assert Clash(ops[i], ops[j]);
  }

  lemma IdsStayUnique(ops: seq<Op>, k: nat, s: State)
    requires k <= |ops| && Fresh(ops) && s == After(ops, k)
    ensures IdsUnique(s)
  {
    forall a, b | a in s.sessions && b in s.sessions && s.sessions[a].id == s.sessions[b].id ensures a == b {
      var i := Origin(ops, k, s, a);
      var j := Origin(ops, k, s, b);
      SameDraw(ops, i, j);
    }
  }

  lemma NotStoredBefore(ops: seq<Op>, j: nat, s: State, token: string)
    requires Fresh(ops) && j < |ops| && s == After(ops, j) && ops[j].IssueSession? && ops[j].token == token
    ensures token !in s.sessions
  {
    if token in s.sessions {
      var i := Origin(ops, j, s, token);
      SameDraw(ops, i, j);
    }
  }

  /**
   From its issue on, a session is stored until a cleanup past its expiry, and marked revoked exactly once it is
   revoked.
   */
  lemma {:induction false} SessionFollowed(ops: seq<Op>, j: nat, k: nat, s: State, token: string)
    requires Fresh(ops) && j < k <= |ops| && Issues(ops, j, token) && s == After(ops, k)
    ensures token in s.sessions <==> !CleanedUp(ops, j, k)
    ensures token in s.sessions ==>
              ComesFrom(s.sessions[token], ops[j]) && (s.sessions[token].revokedAt.Some? <==> SessionRevoked(ops, j, k))
  {
    var last: nat := k - 1;
    var before, op := After(ops, last), ops[last];
    if k == j + 1 {
      NotStoredBefore(ops, j, before, token);
      IssueStores(before, op, s, token);
    } else {
      SessionFollowed(ops, j, k - 1, before, token);
      SessionRevokedNext(ops, j, k);
      CleanedUpNext(ops, j, k);
      if token in before.sessions {
        SessionKept(before, op, s, token);
      } else if token in s.sessions {
        SessionArrives(before, op, s, token);
        SameDraw(ops, j, last);
      }
    }
  }

  lemma IssueStores(s: State, op: Op, s': State, token: string)
    requires s' == Apply(s, op) && op.IssueSession? && op.token == token && token !in s.sessions
    requires IssueFault(s, op.client, op.tenant, op.user, op.ttl) == None
    ensures token in s'.sessions && ComesFrom(s'.sessions[token], op) && s'.sessions[token].revokedAt == None
  {
  }

  lemma SessionRevokedNext(ops: seq<Op>, j: nat, k: nat)
    requires j + 1 < k <= |ops| && ops[j].IssueSession?
    ensures SessionRevoked(ops, j, k) <==>
      SessionRevoked(ops, j, k - 1)
          || (ops[k - 1].RevokeSession? && ops[k - 1].tenant == ops[j].tenant && ops[k - 1].id == ops[j].id)
  {
  }

  lemma CleanedUpNext(ops: seq<Op>, j: nat, k: nat)
    requires j + 1 < k <= |ops| && ops[j].IssueSession?
    ensures CleanedUp(ops, j, k) <==>
        CleanedUp(ops, j, k - 1) || (ops[k - 1].Cleanup? && Expiry(ops[j]) <= ops[k - 1].cutoff)
  {
  }

  /** A client is live from then on exactly until it is revoked. */
  lemma {:induction false} ClientFollowed(ops: seq<Op>, j: nat, k: nat, s: State, client: string)
    requires j <= k <= |ops| && client in After(ops, j).clients && s == After(ops, k)
    ensures client in s.clients
    ensures ClientLive(s, client) <==> ClientLive(After(ops, j), client) && !ClientRevoked(ops, j, k, client)
  {
    if j < k {
      var before := After(ops, k - 1);
      ClientFollowed(ops, j, k - 1, before, client);
      ClientConsistent(ops, k - 1, before, client);
      ClientKept(before, ops[k - 1], s, client);
      assert ClientRevoked(ops, j, k, client) <==>
        ClientRevoked(ops, j, k - 1, client) || (ops[k - 1].RevokeClient? && ops[k - 1].client == client);
    }
  }

  lemma {:induction false} ClientConsistent(ops: seq<Op>, k: nat, s: State, client: string)
    requires k <= |ops| && s == After(ops, k) && client in s.clients
    ensures s.clients[client].active <==> s.clients[client].revokedAt == None
  {
    var before := After(ops, k - 1);
    if client in before.clients {
      ClientConsistent(ops, k - 1, before, client);
      ClientKept(before, ops[k - 1], s, client);
    } else {
      ClientArrives(before, ops[k - 1], s, client);
    }
  }

  // ---------------------------------------------------------------- when a token authenticates

  /** What call `j` having issued the session must not have been followed by before call `k`, at time `now`. */
  predicate StillGood(ops: seq<Op>, j: nat, k: nat, now: int)
    requires j < k <= |ops| && ops[j].IssueSession?
  {
    && now < Expiry(ops[j])
    && !SessionRevoked(ops, j, k) && !ClientRevoked(ops, j, k, ops[j].client) && !CleanedUp(ops, j, k)
    && TenantLive(After(ops, k), ops[j].tenant) && MemberLive(After(ops, k), ops[j].tenant, ops[j].user)
  }

  /**
   After any history a token authenticates exactly if one call issued it and since then neither the session
   nor its client was revoked, no cleanup passed its expiry, it has not expired, and its tenant and
   membership are active now.
   */
  lemma AuthenticatesIff(ops: seq<Op>, k: nat, token: string, now: int)
    requires Fresh(ops) && k <= |ops|
    ensures PrincipalOf(After(ops, k), token, now).Some? <==>
      exists j: nat :: j < k && Issues(ops, j, token) && StillGood(ops, j, k, now)
  {
    var s := After(ops, k);
    if PrincipalOf(s, token, now).Some? {
      var j := Origin(ops, k, After(ops, k), token);
      SessionFollowed(ops, j, k, After(ops, k), token);
      ClientFollowed(ops, j, k, After(ops, k), ops[j].client);
      assert StillGood(ops, j, k, now);
    }
    if j: nat :| j < k && Issues(ops, j, token) && StillGood(ops, j, k, now) {
      SessionFollowed(ops, j, k, After(ops, k), token);
      ClientFollowed(ops, j, k, After(ops, k), ops[j].client);
    }
  }

  /**
   Whoever a token authenticates was issued that session less than 900 seconds before, by a client not
   revoked since; the session was never revoked; tenant and membership are active; the role is the
   membership's role now.
   */
  lemma AuthenticatedSoundly(ops: seq<Op>, k: nat, token: string, now: int) returns (j: nat)
    requires Fresh(ops) && k <= |ops| && PrincipalOf(After(ops, k), token, now).Some?
    ensures var s, p := After(ops, k), PrincipalOf(After(ops, k), token, now).value;
      && j < k && Issues(ops, j, token)
      && p.session == ops[j].id && p.tenant == ops[j].tenant && p.user == ops[j].user && p.client == ops[j].client
      && now < ops[j].now + 900 * SECOND
      && !ClientRevoked(ops, j, k, p.client)
      && (forall i :: 0 <= i < k && ops[i].RevokeSession? ==>
          i < j || ops[i].tenant != p.tenant || ops[i].id != p.session)
      && TenantLive(s, p.tenant) && MemberLive(s, p.tenant, p.user)
      && p.role == s.memberships[(p.tenant, p.user)].role
  {
    j := Origin(ops, k, After(ops, k), token);
    SessionFollowed(ops, j, k, After(ops, k), token);
    ClientFollowed(ops, j, k, After(ops, k), ops[j].client);
  }

  /** Once a stored session is revoked, no continuation authenticates it again. */
  lemma RevokedSessionStaysOut(ops: seq<Op>, i: nat, k: nat, token: string, now: int)
    requires Fresh(ops) && i < k <= |ops| && token in After(ops, i).sessions
    requires ops[i].RevokeSession? && ops[i].tenant == After(ops, i).sessions[token].tenant
    requires ops[i].id == After(ops, i).sessions[token].id
    ensures PrincipalOf(After(ops, k), token, now) == None
  {
    var j := Origin(ops, i, After(ops, i), token);
    assert Issues(ops, j, token);
    SessionFollowed(ops, j, k, After(ops, k), token);
    assert SessionRevoked(ops, j, k);
  }

  /** Once a client is revoked, no continuation authenticates any session of it, issued before or after. */
  lemma RevokedClientStaysOut(ops: seq<Op>, i: nat, k: nat, token: string, now: int)
    requires Fresh(ops) && i < k <= |ops| && ops[i].RevokeClient? && ops[i].client in After(ops, i).clients
    ensures PrincipalOf(After(ops, k), token, now).Some? ==>
        PrincipalOf(After(ops, k), token, now).value.client != ops[i].client
  {
    ClientFollowed(ops, i, k, After(ops, k), ops[i].client);
    assert ClientRevoked(ops, i, k, ops[i].client);
  }

  /** Cleaning up expired sessions never changes who authenticates from the cutoff on. */
  lemma CleanupOnlyExpired(s: State, cutoff: int, token: string, now: int)
    requires cutoff <= now
    ensures PrincipalOf(Apply(s, Cleanup(cutoff)), token, now) == PrincipalOf(s, token, now)
  {
  }
}
