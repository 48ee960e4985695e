/**
 * The derivations of the users listing: the printed rows of trusts, system
 * users and tenant users, the active and recently-logged-in counts, the role
 * distribution, the summary totals and the user name shown for each tenant
 * credential.
 */
module ShowUsers {
  import opened Optional
  import opened Strings
  import opened DateTimes
  import opened Sequences

  /** A row of `trusts`. */
  datatype Trust = Trust(id: int, trustCode: string, name: Option<string>, status: Option<string>, createdAt: Option<Stamp>)

  /** A row of `system_users`; None is SQL NULL. */
  datatype SystemUser = SystemUser(
    id: int, username: Option<string>, email: Option<string>, fullName: Option<string>,
    role: Option<string>, status: Option<string>, lastLoginAt: Option<Stamp>,
    loginAttempts: Option<int>, createdAt: Option<Stamp>, updatedAt: Option<Stamp>)

  /** A row of the demo tenant's `users`. */
  datatype TrustUser = TrustUser(
    id: int, email: string, fullName: Option<string>, role: Option<string>,
    status: Option<string>, createdAt: Option<Stamp>, updatedAt: Option<Stamp>)

  /** Printed trust row: ID, Trust Code, Name, Status, Created. */
  datatype TrustLine = TrustLine(id: int, trustCode: string, name: Option<string>, status: Option<string>, created: string)

  /** Printed system user row: ID, Username, Email, Full Name, Role, Status, Last Login, Login Attempts, Created. */
  datatype SystemLine = SystemLine(
    id: int, username: Option<string>, email: Option<string>, fullName: string, role: Option<string>,
    status: Option<string>, lastLogin: string, loginAttempts: int, created: string)

  /** Printed tenant user row: ID, Email, Full Name, Role, Status, Created, Updated. */
  datatype TrustUserLine = TrustUserLine(
    id: int, email: string, fullName: string, role: Option<string>, status: Option<string>,
    created: string, updated: string)

  /** `login_attempts or 0`: the stored count, with NULL read as zero. */
  function LoginAttemptsShown(attempts: Option<int>): (n: int)
    ensures n == attempts.GetOr(0)
  {
    if attempts.Some? && attempts.value != 0 then attempts.value else 0
  }

  function ShowTrust(t: Trust): (line: TrustLine)
    ensures line.id == t.id && line.trustCode == t.trustCode && line.name == t.name && line.status == t.status
    ensures line.created == "Never" <==> t.createdAt.None?
    ensures t.createdAt.Some? ==> Parse(line.created) == Some(t.createdAt.value)
  {
    TrustLine(t.id, t.trustCode, t.name, t.status, FormatDatetime(t.createdAt))
  }

  function ShowSystemUser(u: SystemUser): (line: SystemLine)
    ensures line.id == u.id && line.username == u.username && line.email == u.email
    ensures line.fullName == OrElse(u.fullName, "N/A")
    ensures line.role == u.role && line.status == u.status
    ensures line.lastLogin == "Never" <==> u.lastLoginAt.None?
    ensures u.lastLoginAt.Some? ==> Parse(line.lastLogin) == Some(u.lastLoginAt.value)
    ensures line.loginAttempts == u.loginAttempts.GetOr(0)
    ensures line.created == "Never" <==> u.createdAt.None?
    ensures u.createdAt.Some? ==> Parse(line.created) == Some(u.createdAt.value)
  {
    SystemLine(u.id, u.username, u.email, OrElse(u.fullName, "N/A"), u.role, u.status,
               FormatDatetime(u.lastLoginAt), LoginAttemptsShown(u.loginAttempts), FormatDatetime(u.createdAt))
  }

  function ShowTrustUser(u: TrustUser): (line: TrustUserLine)
    ensures line.id == u.id && line.email == u.email && line.fullName == OrElse(u.fullName, "N/A")
    ensures line.role == u.role && line.status == u.status
    ensures line.created == "Never" <==> u.createdAt.None?
    ensures line.updated == "Never" <==> u.updatedAt.None?
    ensures u.createdAt.Some? ==> Parse(line.created) == Some(u.createdAt.value)
    ensures u.updatedAt.Some? ==> Parse(line.updated) == Some(u.updatedAt.value)
  {
    TrustUserLine(u.id, u.email, OrElse(u.fullName, "N/A"), u.role, u.status,
                  FormatDatetime(u.createdAt), FormatDatetime(u.updatedAt))
  }

  predicate IsActive(u: SystemUser) {
    u.status == Some("ACTIVE")
  }

  /** `[u for u in system_users if u['status'] == 'ACTIVE']`. */
  function ActiveUsers(users: seq<SystemUser>): (active: seq<SystemUser>)
    ensures |active| <= |users|
    ensures forall k :: 0 <= k < |active| ==> active[k] in users && active[k].status == Some("ACTIVE")
    ensures forall k :: 0 <= k < |users| && users[k].status == Some("ACTIVE") ==> users[k] in active
  {
    Filter(users, IsActive)
  }

  /** A non-null last login whose `(now - last_login_at).days` is below 7. */
  predicate LoggedInRecently(now: Stamp, u: SystemUser) {
    u.lastLoginAt.Some? && WholeDaysBetween(now, u.lastLoginAt.value) < 7
  }

  /** The recently-logged-in comprehension, with the clock reading `now` as a parameter. */
  function RecentlyLoggedIn(users: seq<SystemUser>, now: Stamp): (recent: seq<SystemUser>)
    ensures |recent| <= |users|
    ensures forall k :: 0 <= k < |recent| ==> recent[k] in users && LoggedInRecently(now, recent[k])
    ensures forall k :: 0 <= k < |users| && LoggedInRecently(now, users[k]) ==> users[k] in recent
  {
    Filter(users, u => LoggedInRecently(now, u))
  }

  /**
   * "Recently" means a last login less than seven whole days (604800 seconds)
   * before `now`; a last login later than `now` counts as recent too.
   */
  lemma RecentMeansWithinAWeek(now: Stamp, u: SystemUser)
    ensures LoggedInRecently(now, u) <==>
      u.lastLoginAt.Some? && Seconds(now) - Seconds(u.lastLoginAt.value) < 7 * 86400
  {
    if u.lastLoginAt.Some? {
      var d := WholeDaysBetween(now, u.lastLoginAt.value);
      if d >= 7 {
        assert d * 86400 >= 7 * 86400;
      }
    }
  }

  /** The role of each tenant user, in order. */
  function Roles(users: seq<TrustUser>): (roles: seq<Option<string>>)
    ensures |roles| == |users| && forall k :: 0 <= k < |users| ==> roles[k] == users[k].role
  {
    Map(users, (u: TrustUser) => u.role)
  }

  /**
   * `order` and `counts` are the key order and the entries of a dictionary
   * that has counted `roles`: the keys in order of first appearance, each
   * mapped to how often it occurs.
   */
  predicate Tallies(roles: seq<Option<string>>, order: seq<Option<string>>, counts: map<Option<string>, nat>) {
    && order == Distinct(roles)
    && (forall k :: 0 <= k < |roles| ==> roles[k] in counts)
    && (forall r :: r in counts ==> r in roles)
    && (forall r :: r in counts ==> counts[r] == Occurrences(roles, r))
  }

  /** `role_counts[role] = role_counts.get(role, 0) + 1` keeps the tally for one more role. */
  lemma TallyStep(roles: seq<Option<string>>, role: Option<string>, order: seq<Option<string>>, counts: map<Option<string>, nat>)
    requires Tallies(roles, order, counts)
    ensures Tallies(roles + [role], if role in counts then order else order + [role],
                    counts[role := (if role in counts then counts[role] else 0) + 1])
  {
    assert role in counts <==> role in order;
    DistinctSnoc(roles, role);
    TallyStepKeys(roles, role, counts);
    TallyStepCounts(roles, role, counts);
  }

  /** Every counted role is a key after the step, and every key is a counted role. */
  lemma TallyStepKeys(roles: seq<Option<string>>, role: Option<string>, counts: map<Option<string>, nat>)
    requires forall k :: 0 <= k < |roles| ==> roles[k] in counts
    requires forall r :: r in counts ==> r in roles
    ensures var next := roles + [role];
      && (forall k :: 0 <= k < |next| ==> next[k] in counts[role := 0])
      && (forall r :: r in counts[role := 0] ==> r in next)
  {
    var next := roles + [role];
    forall k | 0 <= k < |next|
      ensures next[k] in counts[role := 0]
    {
      if k < |roles| {
        assert next[k] == roles[k];
      }
    }
    forall r | r in counts[role := 0]
      ensures r in next
    {
      if r != role {
        assert r in roles;
      }
    }
  }

  /** After the step each key is mapped to its number of occurrences among the counted roles. */
  lemma TallyStepCounts(roles: seq<Option<string>>, role: Option<string>, counts: map<Option<string>, nat>)
    requires forall k :: 0 <= k < |roles| ==> roles[k] in counts
    requires forall r :: r in counts ==> counts[r] == Occurrences(roles, r)
    ensures var counts' := counts[role := (if role in counts then counts[role] else 0) + 1];
      forall r :: r in counts' ==> counts'[r] == Occurrences(roles + [role], r)
  {
    if role !in counts {
      OccurrencesAbsent(roles, role);
    }
    var counts' := counts[role := (if role in counts then counts[role] else 0) + 1];
    forall r | r in counts'
      ensures counts'[r] == Occurrences(roles + [role], r)
    {
      OccurrencesSnoc(roles, role, r);
    }
  }

  /**
   * The `role_counts` loop. The dictionary is returned as its keys in
   * insertion order and its entries: the keys are the roles in order of
   * first appearance, each count is the number of users with that role, and
   * the counts add up to the number of users.
   */
  method CountRoles(users: seq<TrustUser>) returns (order: seq<Option<string>>, counts: map<Option<string>, nat>)
    ensures Tallies(Roles(users), order, counts)
    ensures SumOccurrences(order, Roles(users)) == |users|
    ensures forall i, j :: 0 <= i < j < |order| ==> FirstIndex(Roles(users), order[i]) < FirstIndex(Roles(users), order[j])
  {
    var roles := Roles(users);
    order, counts := [], map[];
    for i := 0 to |users|
      invariant Tallies(roles[..i], order, counts)
    {
      var role := users[i].role;
      assert roles[..i + 1] == roles[..i] + [role];
      TallyStep(roles[..i], role, order, counts);
      if role !in counts {
        order := order + [role];
      }
      counts := counts[role := (if role in counts then counts[role] else 0) + 1];
    }
    assert roles[..|users|] == roles;
    TallyTotals(roles, order, counts);
  }

  /** A finished tally's counts add up to the number of roles, and its keys come in order of first appearance. */
  lemma TallyTotals(roles: seq<Option<string>>, order: seq<Option<string>>, counts: map<Option<string>, nat>)
    requires Tallies(roles, order, counts)
    ensures SumOccurrences(order, roles) == |roles|
    ensures forall i, j :: 0 <= i < j < |order| ==> FirstIndex(roles, order[i]) < FirstIndex(roles, order[j])
  {
    CountsSumToLength(roles);
    DistinctInOrder(roles);
  }

  /**
   * `email.split('@')[0] if '@' in email else email`: the text before the
   * first "@", all of it when there is none.
   */
  function DisplayUsername(email: string): (name: string)
    ensures '@' !in name
    ensures name <= email
    ensures name == email || email[|name|] == '@'
  {
    if '@' in email then BeforeFirst(email, '@') else email
  }

  /** An address `<name>@<domain>` shows `<name>`. */
  lemma {:induction false} DisplayUsernameOfAddress(name: string, domain: string)
    requires '@' !in name
    ensures DisplayUsername(name + "@" + domain) == name
  {
    var email := name + "@" + domain;
    var shown := DisplayUsername(email);
    assert email[|name|] == '@';
  }

  /** A system credential line: the stored user name, e-mail and role, NULLs included. */
  datatype SystemCredential = SystemCredential(username: Option<string>, email: Option<string>, role: Option<string>)

  function SystemUserCredential(u: SystemUser): (c: SystemCredential)
    ensures c.username == u.username && c.email == u.email && c.role == u.role
  {
    SystemCredential(u.username, u.email, u.role)
  }

  /** A tenant credential line: the displayed user name, the e-mail and the role. */
  datatype Credential = Credential(username: string, email: string, role: Option<string>)

  function TrustCredential(u: TrustUser): (c: Credential)
    ensures c.username == DisplayUsername(u.email) && c.email == u.email && c.role == u.role
  {
    Credential(DisplayUsername(u.email), u.email, u.role)
  }

  /** The closing summary. */
  datatype Summary = Summary(totalSystem: nat, totalTrust: nat, grandTotal: nat)

  /** Everything `main` prints, as values. */
  datatype Listing = Listing(
    generatedOn: string, trustTable: seq<TrustLine>, systemTable: seq<SystemLine>,
    activeCount: nat, recentCount: nat, trustUserTable: seq<TrustUserLine>,
    roleOrder: seq<Option<string>>, roleCounts: map<Option<string>, nat>,
    summary: Summary, systemCredentials: seq<SystemCredential>, credentials: seq<Credential>)

  /**
   * `main`, with the three query results and the clock reading `now` as
   * parameters. A section whose list is empty prints nothing but its
   * heading; its table, counts and distribution are then empty or zero.
   */
  method Report(trusts: seq<Trust>, systemUsers: seq<SystemUser>, trustUsers: seq<TrustUser>, now: Stamp)
    returns (listing: Listing)
    ensures listing.generatedOn == FormatDatetime(Some(now))
    ensures listing.trustTable == Map(trusts, ShowTrust)
    ensures listing.systemTable == Map(systemUsers, ShowSystemUser)
    ensures listing.activeCount == |ActiveUsers(systemUsers)| <= |systemUsers|
    ensures listing.recentCount == |RecentlyLoggedIn(systemUsers, now)| <= |systemUsers|
    ensures listing.trustUserTable == Map(trustUsers, ShowTrustUser)
    ensures Tallies(Roles(trustUsers), listing.roleOrder, listing.roleCounts)
    ensures SumOccurrences(listing.roleOrder, Roles(trustUsers)) == |trustUsers|
    ensures listing.summary == Summary(|systemUsers|, |trustUsers|, |systemUsers| + |trustUsers|)
    ensures listing.systemCredentials == Map(systemUsers, SystemUserCredential)
    ensures listing.credentials == Map(trustUsers, TrustCredential)
  {
    var trustTable := AppendEach(trusts, ShowTrust);
    var systemTable := AppendEach(systemUsers, ShowSystemUser);
    var activeCount := |ActiveUsers(systemUsers)|;
    var recentCount := |RecentlyLoggedIn(systemUsers, now)|;
    var trustUserTable := AppendEach(trustUsers, ShowTrustUser);
    var roleOrder, roleCounts := CountRoles(trustUsers);
    var totalSystem := if systemUsers != [] then |systemUsers| else 0;
    var totalTrust := if trustUsers != [] then |trustUsers| else 0;
    var systemCredentials := AppendEach(systemUsers, SystemUserCredential);
    var credentials := AppendEach(trustUsers, TrustCredential);
    listing := Listing(FormatDatetime(Some(now)), trustTable, systemTable, activeCount, recentCount,
                       trustUserTable, roleOrder, roleCounts,
                       Summary(totalSystem, totalTrust, totalSystem + totalTrust),
                       systemCredentials, credentials);
  }
}
