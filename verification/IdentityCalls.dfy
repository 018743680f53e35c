/**
 Authentication in terms of the calls of a history alone (src/shared_integration/identity.py): what the tenants,
 memberships and clients are after it, and which tokens authenticate.
 */
module IdentityCalls {
  import opened Prelude
  import opened Findings
  import opened Identity

  // ---------------------------------------------------------------- tenants and users

  predicate TenantAdded(ops: seq<Op>, k: nat, tenant: string)
    requires k <= |ops|
  {
    exists i :: 0 <= i < k && ops[i] == AddTenant(tenant)
  }

  predicate UserAdded(ops: seq<Op>, k: nat, user: string)
    requires k <= |ops|
  {
    exists i :: 0 <= i < k && ops[i] == AddUser(user)
  }

  /** A call that gives the tenant an allowed status. */
  predicate SetsTenant(op: Op, tenant: string) {
    op.SetTenantStatus? && op.tenant == tenant && op.status in {"active", "suspended", "disabled"}
  }

  /** Such a call once the tenant exists. */
  predicate TenantSetAt(ops: seq<Op>, i: nat, tenant: string)
    requires i < |ops|
  {
    SetsTenant(ops[i], tenant) && TenantAdded(ops, i, tenant)
  }

  /** The tenant exists, with the status last given to it, or active if none was. */
  predicate TenantHas(ops: seq<Op>, k: nat, tenant: string, status: string)
    requires k <= |ops|
  {
    && TenantAdded(ops, k, tenant)
    && (|| (exists i: nat :: i < k && TenantSetAt(ops, i, tenant) && ops[i].status == status
                             && forall j :: i < j < k ==> !SetsTenant(ops[j], tenant))
        || (status == "active" && forall i: nat :: i < k ==> !TenantSetAt(ops, i, tenant)))
  }

  lemma TenantKept(s: State, op: Op, s': State, tenant: string)
    requires s' == Apply(s, op)
    ensures tenant in s'.tenants <==> tenant in s.tenants || op == AddTenant(tenant)
    ensures tenant in s'.tenants ==>
      s'.tenants[tenant] == if tenant !in s.tenants then "active"
                            else if SetsTenant(op, tenant) then op.status else s.tenants[tenant]
  {
  }

  lemma TenantHasNext(ops: seq<Op>, k: nat, tenant: string, status: string)
    requires k < |ops|
    ensures TenantHas(ops, k + 1, tenant, status) <==>
      if !TenantAdded(ops, k, tenant) then ops[k] == AddTenant(tenant) && status == "active"
      else if SetsTenant(ops[k], tenant) then status == ops[k].status else TenantHas(ops, k, tenant, status)
  {
    if TenantAdded(ops, k, tenant) {
      assert TenantAdded(ops, k + 1, tenant);
      if SetsTenant(ops[k], tenant) {
        assert TenantSetAt(ops, k, tenant);
      }
    } else {
      forall i: nat | i <= k ensures !TenantSetAt(ops, i, tenant) {}
      if ops[k] == AddTenant(tenant) { assert TenantAdded(ops, k + 1, tenant); }
    }
  }

  /** After any history a tenant exists exactly if it was added, with the status last given to it. */
  lemma {:induction false} TenantFollowed(ops: seq<Op>, k: nat, s: State, tenant: string)
    requires k <= |ops| && s == After(ops, k)
    ensures tenant in s.tenants <==> TenantAdded(ops, k, tenant)
    ensures forall status :: TenantHas(ops, k, tenant, status) <==> tenant in s.tenants && s.tenants[tenant] == status
  {
    if k > 0 {
      var last: nat := k - 1;
      var before := After(ops, last);
      TenantFollowed(ops, last, before, tenant);
      TenantKept(before, ops[last], s, tenant);
      forall status ensures TenantHas(ops, k, tenant, status) <==> tenant in s.tenants && s.tenants[tenant] == status {
        TenantHasNext(ops, last, tenant, status);
      }
    }
  }

  lemma {:induction false} UserFollowed(ops: seq<Op>, k: nat, s: State, user: string)
    requires k <= |ops| && s == After(ops, k)
    ensures user in s.users <==> UserAdded(ops, k, user)
  {
    if k > 0 {
      var last: nat := k - 1;
      UserFollowed(ops, last, After(ops, last), user);
      UserKept(After(ops, last), ops[last], s, user);
    }
  }

  lemma UserKept(s: State, op: Op, s': State, user: string)
    requires s' == Apply(s, op)
    ensures user in s'.users <==> user in s.users || op == AddUser(user)
  {
  }

  // ---------------------------------------------------------------- memberships

  /** A call that gives an existing user an allowed role in an existing tenant. */
  predicate RoleGivenAt(ops: seq<Op>, i: nat, tenant: string, user: string)
    requires i < |ops|
  {
    && ops[i].SetMembership? && ops[i].tenant == tenant && ops[i].user == user
    && ops[i].role in {"viewer", "analyst", "admin"}
    && TenantAdded(ops, i, tenant) && UserAdded(ops, i, user)
  }

  predicate Member(ops: seq<Op>, k: nat, tenant: string, user: string)
    requires k <= |ops|
  {
    exists i: nat :: i < k && RoleGivenAt(ops, i, tenant, user)
  }

  /** The role last given. */
  predicate MemberRole(ops: seq<Op>, k: nat, tenant: string, user: string, role: string)
    requires k <= |ops|
  {
    exists i: nat :: i < k && RoleGivenAt(ops, i, tenant, user) && ops[i].role == role
                     && forall j: nat :: i < j < k ==> !RoleGivenAt(ops, j, tenant, user)
  }

  predicate MemberSetAt(ops: seq<Op>, i: nat, tenant: string, user: string)
    requires i < |ops|
  {
    && ops[i].SetMembershipStatus? && ops[i].tenant == tenant && ops[i].user == user
    && ops[i].status in {"active", "suspended"} && Member(ops, i, tenant, user)
  }

  /** The membership exists, with the status last given to it, or active if none was; a new role leaves it. */
  predicate MemberHas(ops: seq<Op>, k: nat, tenant: string, user: string, status: string)
    requires k <= |ops|
  {
    && Member(ops, k, tenant, user)
    && (|| (exists i: nat :: i < k && MemberSetAt(ops, i, tenant, user) && ops[i].status == status
                             && forall j: nat :: i < j < k ==> !MemberSetAt(ops, j, tenant, user))
        || (status == "active" && forall i: nat :: i < k ==> !MemberSetAt(ops, i, tenant, user)))
  }

  /** One call, as the membership sees it. */
  lemma MemberKept(s: State, op: Op, s': State, tenant: string, user: string)
    requires s' == Apply(s, op)
    ensures var key := (tenant, user);
      var given := op.SetMembership? && op.tenant == tenant && op.user == user
          && op.role in {"viewer", "analyst", "admin"}
                   && tenant in s.tenants && user in s.users;
      var set_ := op.SetMembershipStatus? && op.tenant == tenant && op.user == user
                  && op.status in {"active", "suspended"} && key in s.memberships;
      && (key in s'.memberships <==> key in s.memberships || given)
      && (key in s'.memberships ==>
            && s'.memberships[key].role == (if given then op.role else s.memberships[key].role)
            && s'.memberships[key].status == (if key !in s.memberships then "active"
                                              else if set_ then op.status else s.memberships[key].status))
  {
  }

  lemma MemberNext(ops: seq<Op>, k: nat, tenant: string, user: string)
    requires k < |ops|
    ensures Member(ops, k + 1, tenant, user) <==> Member(ops, k, tenant, user) || RoleGivenAt(ops, k, tenant, user)
  {
  }

  lemma MemberRoleNext(ops: seq<Op>, k: nat, tenant: string, user: string, role: string)
    requires k < |ops|
    ensures MemberRole(ops, k + 1, tenant, user, role) <==>
      if RoleGivenAt(ops, k, tenant, user) then role == ops[k].role else MemberRole(ops, k, tenant, user, role)
  {
  }

  lemma MemberHasNext(ops: seq<Op>, k: nat, tenant: string, user: string, status: string)
    requires k < |ops|
    ensures MemberHas(ops, k + 1, tenant, user, status) <==>
      if !Member(ops, k, tenant, user) then RoleGivenAt(ops, k, tenant, user) && status == "active"
      else if MemberSetAt(ops, k, tenant, user) then status == ops[k].status
      else MemberHas(ops, k, tenant, user, status)
  {
    if Member(ops, k, tenant, user) {
      assert Member(ops, k + 1, tenant, user);
    } else {
      forall i: nat | i <= k ensures !MemberSetAt(ops, i, tenant, user) {}
    }
  }

  /** After any history a membership exists exactly if a role was given, with the role and status last given. */
  lemma {:induction false} MemberFollowed(ops: seq<Op>, k: nat, s: State, tenant: string, user: string)
    requires k <= |ops| && s == After(ops, k)
    ensures (tenant, user) in s.memberships <==> Member(ops, k, tenant, user)
    ensures forall role :: MemberRole(ops, k, tenant, user, role) <==>
              (tenant, user) in s.memberships && s.memberships[(tenant, user)].role == role
    ensures forall status :: MemberHas(ops, k, tenant, user, status) <==>
              (tenant, user) in s.memberships && s.memberships[(tenant, user)].status == status
  {
    if k > 0 {
      var last: nat := k - 1;
      var before := After(ops, last);
      MemberFollowed(ops, last, before, tenant, user);
      TenantFollowed(ops, last, before, tenant);
      UserFollowed(ops, last, before, user);
      MemberKept(before, ops[last], s, tenant, user);
      MemberNext(ops, last, tenant, user);
      forall role ensures MemberRole(ops, k, tenant, user, role) <==>
                            (tenant, user) in s.memberships && s.memberships[(tenant, user)].role == role {
        MemberRoleNext(ops, last, tenant, user, role);
      }
      forall status ensures MemberHas(ops, k, tenant, user, status) <==>
                              (tenant, user) in s.memberships && s.memberships[(tenant, user)].status == status {
        MemberHasNext(ops, last, tenant, user, status);
      }
    }
  }

  // ---------------------------------------------------------------- clients

  predicate DrawsClient(op: Op, client: string) {
    (op.IssueClient? || op.RotateClient?) && op.client == client
  }

  /** No client id is drawn twice. */
  predicate FreshClients(ops: seq<Op>) {
    forall i, j :: 0 <= i < |ops| && 0 <= j < |ops| && SameClient(ops[i], ops[j]) ==> i == j
  }

  predicate SameClient(a: Op, b: Op) {
    (a.IssueClient? || a.RotateClient?) && (b.IssueClient? || b.RotateClient?) && a.client == b.client
  }

  lemma SameClientDraw(ops: seq<Op>, i: nat, j: nat, client: string)
    requires FreshClients(ops) && i < |ops| && j < |ops| && DrawsClient(ops[i], client) && DrawsClient(ops[j], client)
    ensures i == j
  {
    assert SameClient(ops[i], ops[j]);
  }

  /** Call `i` brings the client: issued under a usable name and issuers, or the successor of a good one. */
  predicate BornAt(ops: seq<Op>, i: nat, client: string)
    requires i < |ops|
    decreases i, 1
  {
    || (ops[i].IssueClient? && ops[i].client == client && CleanName(ops[i].name).Some?
        && CleanIssuers(ops[i].issuers).Some?)
    || (ops[i].RotateClient? && ops[i].client == client && ClientGood(ops, i, ops[i].previous))
  }

  /** The client was brought and has not been revoked since. */
  predicate ClientGood(ops: seq<Op>, k: nat, client: string)
    requires k <= |ops|
    decreases k, 0
  {
    exists i: nat :: i < k && BornAt(ops, i, client) && !ClientRevoked(ops, i, k, client)
  }

  lemma ClientAppears(s: State, op: Op, s': State, client: string)
    requires s' == Apply(s, op) && client !in s.clients
    ensures client in s'.clients <==>
      || (op.IssueClient? && op.client == client && CleanName(op.name).Some? && CleanIssuers(op.issuers).Some?)
      || (op.RotateClient? && op.client == client && ClientLive(s, op.previous))
    ensures client in s'.clients ==> ClientLive(s', client)
  {
  }

  lemma {:induction false} NotDrawnNotThere(ops: seq<Op>, k: nat, s: State, client: string)
    requires k <= |ops| && s == After(ops, k) && forall i :: 0 <= i < k ==> !DrawsClient(ops[i], client)
    ensures client !in s.clients
  {
    if k > 0 {
      var last: nat := k - 1;
      NotDrawnNotThere(ops, last, After(ops, last), client);
      ClientAppears(After(ops, last), ops[last], s, client);
    }
  }

  lemma DrawnOnce(ops: seq<Op>, i: nat, s: State, client: string)
    requires FreshClients(ops) && i < |ops| && s == After(ops, i) && DrawsClient(ops[i], client)
    ensures client !in s.clients
  {
    forall j | 0 <= j < i ensures !DrawsClient(ops[j], client) {
      if DrawsClient(ops[j], client) { SameClientDraw(ops, j, i, client); }
    }
    NotDrawnNotThere(ops, i, s, client);
  }

  /** After any history a client is live exactly if it was brought and not revoked since. */
  lemma {:induction false} ClientIff(ops: seq<Op>, k: nat, s: State, client: string)
    requires FreshClients(ops) && k <= |ops| && s == After(ops, k)
    ensures ClientLive(s, client) <==> ClientGood(ops, k, client)
    decreases k, 1
  {
    if ClientLive(s, client) {
      var i := BirthOf(ops, k, s, client);
      ClientFollowed(ops, i + 1, k, s, client);
      assert !ClientRevoked(ops, i, k, client);
    }
    if i: nat :| i < k && BornAt(ops, i, client) && !ClientRevoked(ops, i, k, client) {
      var before, after := After(ops, i), After(ops, i + 1);
      DrawnOnce(ops, i, before, client);
      if ops[i].RotateClient? { ClientIff(ops, i, before, ops[i].previous); }
      ClientAppears(before, ops[i], after, client);
      ClientFollowed(ops, i + 1, k, s, client);
      assert !ClientRevoked(ops, i + 1, k, client);
    }
  }

  lemma {:induction false} BirthOf(ops: seq<Op>, k: nat, s: State, client: string) returns (i: nat)
    requires FreshClients(ops) && k <= |ops| && s == After(ops, k) && client in s.clients
    ensures i < k && BornAt(ops, i, client) && client in After(ops, i + 1).clients
    decreases k, 0
  {
    var last: nat := k - 1;
    var before := After(ops, last);
    if client in before.clients {
      i := BirthOf(ops, last, before, client);
    } else {
      i := last;
      ClientAppears(before, ops[last], s, client);
      if ops[last].RotateClient? { ClientIff(ops, last, before, ops[last].previous); }
    }
  }

  // ---------------------------------------------------------------- which tokens authenticate

  /** Call `j` issues a session under `token`, judged by the calls before it. */
  predicate IssuedBy(ops: seq<Op>, j: nat, token: string)
    requires j < |ops|
  {
    && ops[j].IssueSession? && ops[j].token == token && 1 <= ops[j].ttl <= 900
    && ClientGood(ops, j, ops[j].client)
    && TenantHas(ops, j, ops[j].tenant, "active") && UserAdded(ops, j, ops[j].user)
    && MemberHas(ops, j, ops[j].tenant, ops[j].user, "active")
  }

  lemma RolesAllowed(ops: seq<Op>, k: nat, s: State, tenant: string, user: string)
    requires k <= |ops| && s == After(ops, k)
    ensures MemberLive(s, tenant, user) <==> MemberHas(ops, k, tenant, user, "active")
  {
    MemberFollowed(ops, k, s, tenant, user);
    if (tenant, user) in s.memberships {
      var role := s.memberships[(tenant, user)].role;
      assert MemberRole(ops, k, tenant, user, role);
    }
  }

  lemma IssuesIff(ops: seq<Op>, j: nat, token: string)
    requires FreshClients(ops) && j < |ops|
    ensures Issues(ops, j, token) <==> IssuedBy(ops, j, token)
  {
    if ops[j].IssueSession? {
      var s := After(ops, j);
      ClientIff(ops, j, s, ops[j].client);
      TenantFollowed(ops, j, s, ops[j].tenant);
      UserFollowed(ops, j, s, ops[j].user);
      RolesAllowed(ops, j, s, ops[j].tenant, ops[j].user);
    }
  }

  /** What must not have happened between the issue at `j` and now, and what the last calls must have left. */
  predicate GoodSince(ops: seq<Op>, j: nat, k: nat, now: int)
    requires j < k <= |ops| && ops[j].IssueSession?
  {
    var expiry := ops[j].now + ops[j].ttl * 1_000_000;
    && now < expiry
    && (forall i :: j < i < k && ops[i].RevokeSession? ==> ops[i].tenant != ops[j].tenant || ops[i].id != ops[j].id)
    && (forall i :: j < i < k && ops[i].RevokeClient? ==> ops[i].client != ops[j].client)
    && (forall i :: j < i < k && ops[i].Cleanup? ==> ops[i].cutoff < expiry)
    && TenantHas(ops, k, ops[j].tenant, "active")
    && MemberHas(ops, k, ops[j].tenant, ops[j].user, "active")
  }

  lemma StillGoodIff(ops: seq<Op>, j: nat, k: nat, now: int)
    requires j < k <= |ops| && ops[j].IssueSession?
    ensures StillGood(ops, j, k, now) <==> GoodSince(ops, j, k, now)
  {
    var s := After(ops, k);
    TenantFollowed(ops, k, s, ops[j].tenant);
    RolesAllowed(ops, k, s, ops[j].tenant, ops[j].user);
  }

  /**
   After any history a token authenticates exactly if one call issued it, to a user with an active membership in
   an active tenant and by a good client, and since then neither session nor client was revoked, no cleanup passed
   its expiry, it has not expired, and the last calls on tenant and membership leave both active.
   */
  lemma AuthenticatesByCalls(ops: seq<Op>, k: nat, token: string, now: int)
    requires Fresh(ops) && FreshClients(ops) && k <= |ops|
    ensures PrincipalOf(After(ops, k), token, now).Some? <==>
      exists j: nat :: j < k && IssuedBy(ops, j, token) && GoodSince(ops, j, k, now)
  {
    AuthenticatesIff(ops, k, token, now);
    if j: nat :| j < k && Issues(ops, j, token) && StillGood(ops, j, k, now) {
      IssuesIff(ops, j, token);
      StillGoodIff(ops, j, k, now);
    }
    if j: nat :| j < k && IssuedBy(ops, j, token) && GoodSince(ops, j, k, now) {
      IssuesIff(ops, j, token);
      StillGoodIff(ops, j, k, now);
    }
  }

  /** The role an authenticated session acts in is the one last given to its user in its tenant. */
  lemma RoleByCalls(ops: seq<Op>, k: nat, token: string, now: int)
    requires Fresh(ops) && k <= |ops| && PrincipalOf(After(ops, k), token, now).Some?
    ensures var p := PrincipalOf(After(ops, k), token, now).value; MemberRole(ops, k, p.tenant, p.user, p.role)
  {
    var p := PrincipalOf(After(ops, k), token, now).value;
    MemberFollowed(ops, k, After(ops, k), p.tenant, p.user);
  }

  // ---------------------------------------------------------------- which names and issuers a client may have

  /** What is left of a text between surrounding blanks. */
  ghost predicate Trimmed(text: string, core: string) {
    exists left, right :: CoreOf(text, left, core, right)
  }

  lemma TrimmedIs(text: string, core: string)
    ensures Trimmed(text, core) <==> core == Strip(text)
  {
    var left, right := StripIs(text);
    if left, right :| CoreOf(text, left, core, right) { CoreIsStrip(text, left, core, right); }
  }

  /** A client name is kept without its surrounding blanks, and refused unless 1 to 255 characters are left. */
  lemma NameKept(name: string, core: string)
    requires Trimmed(name, core)
    ensures CleanName(name) == if 1 <= |core| <= 255 then Some(core) else None
  {
    TrimmedIs(name, core);
  }

  lemma {:induction false} DistinctCount(s: seq<string>)
    requires forall i, j :: 0 <= i < j < |s| ==> s[i] != s[j]
    ensures |set x | x in s| == |s|
  {
    if s != [] {
      var front, last := s[..|s| - 1], s[|s| - 1];
      DistinctCount(front);
      assert s == front + [last];
      assert (set x | x in s) == (set x | x in front) + {last};
    }
  }

  /**
   The issuers of a client are refused unless each has 1 to 512 characters between its surrounding blanks and there
   are 1 to 16 different ones; they are kept without blanks, each once.
   */
  lemma IssuersKept(issuers: seq<string>, cores: seq<string>)
    requires |cores| == |issuers| && forall i :: 0 <= i < |issuers| ==> Trimmed(issuers[i], cores[i])
    ensures CleanIssuers(issuers).Some? <==>
      (forall i :: 0 <= i < |cores| ==> 1 <= |cores[i]| <= 512) && 1 <= |set x | x in cores| <= 16
    ensures CleanIssuers(issuers).Some? ==>
      var kept := CleanIssuers(issuers).value;
      && (forall x :: x in kept <==> x in cores) && (forall i, j :: 0 <= i < j < |kept| ==> kept[i] != kept[j])
  {
    forall i | 0 <= i < |issuers| ensures cores[i] == Strip(issuers[i]) { TrimmedIs(issuers[i], cores[i]); }
    assert Stripped(issuers) == cores;
    DedupIs(cores);
    DistinctCount(Dedup(cores));
    assert (set x | x in cores) == (set x | x in Dedup(cores));
  }
}
