/**
 * The derivations of the database users report: the annotation of tenant
 * rows with their database and trust code, the trust lookup table, the
 * displayed trust name, full name, e-mail and status, and the totals.
 */
module CheckUsers {
  import opened Optional
  import opened Strings
  import opened DateTimes
  import opened Sequences

  /**
   * A row of `SystemUsers` or of a tenant `Users` table, as the dictionary
   * cursor returns it. None is SQL NULL; `database` and `trustCode` are None
   * until the row is annotated (the keys are absent from the dictionary).
   */
  datatype UserRow = UserRow(
    id: int, username: Option<string>, email: Option<string>, role: Option<string>,
    firstName: Option<string>, lastName: Option<string>, isActive: Option<int>,
    createdAt: Option<Stamp>, lastLogin: Option<Stamp>,
    database: Option<string>, trustCode: Option<string>)

  /** A row of `Trusts`. */
  datatype TrustRow = TrustRow(trustCode: string, name: Option<string>, isActive: Option<int>, createdAt: Option<DateTime>)

  /** The prefix every tenant database name starts with. */
  const TrustPrefix := "school_erp_trust_"

  /** `database_name.replace('school_erp_trust_', '')`. */
  function TrustCode(databaseName: string): (code: string)
    ensures |code| <= |databaseName|
  {
    RemoveAll(databaseName, TrustPrefix)
  }

  /** A tenant database named prefix + code yields the code back. */
  lemma {:induction false} TrustCodeOfDatabase(code: string)
    requires !Contains(code, TrustPrefix)
    ensures TrustCode(TrustPrefix + code) == code
  {
    RemoveAllLeading(TrustPrefix, code);
    RemoveAllAbsent(code, TrustPrefix);
  }

  /** `replace` removes every occurrence of the prefix, not only the leading one. */
  lemma {:induction false} TrustCodeRemovesRepeatedPrefix(code: string)
    requires !Contains(code, TrustPrefix)
    ensures TrustCode(TrustPrefix + TrustPrefix + code) == code
  {
    assert TrustPrefix + TrustPrefix + code == TrustPrefix + (TrustPrefix + code);
    RemoveAllLeading(TrustPrefix, TrustPrefix + code);
    TrustCodeOfDatabase(code);
  }

  /** The demo tenant's code. */
  lemma DemoTrustCode()
    ensures TrustCode("school_erp_trust_demo") == "demo"
  {
    assert "school_erp_trust_demo" == TrustPrefix + "demo";
    ContainsLonger("demo", TrustPrefix);
    TrustCodeOfDatabase("demo");
  }

  /** One tenant row after `get_trust_users` adds its database and trust code. */
  function Annotated(u: UserRow, databaseName: string): (r: UserRow)
    ensures r.database == Some(databaseName) && r.trustCode == Some(TrustCode(databaseName))
    ensures r.(database := u.database, trustCode := u.trustCode) == u
  {
    u.(database := Some(databaseName), trustCode := Some(TrustCode(databaseName)))
  }

  /** The annotation loop of `get_trust_users`: every fetched row gains the two keys, in place. */
  method AnnotateTrustUsers(users: array<UserRow>, databaseName: string)
    modifies users
    ensures forall k :: 0 <= k < users.Length ==> users[k] == Annotated(old(users[k]), databaseName)
  {
    for i := 0 to users.Length
      invariant forall k :: 0 <= k < i ==> users[k] == Annotated(old(users[k]), databaseName)
      invariant forall k :: i <= k < users.Length ==> users[k] == old(users[k])
    {
      users[i] := Annotated(users[i], databaseName);
    }
  }

  /** No row after index `k` has the trust code of row `k`. */
  predicate LastWithCode(trusts: seq<TrustRow>, k: int) {
    0 <= k < |trusts| && forall j :: k < j < |trusts| ==> trusts[j].trustCode != trusts[k].trustCode
  }

  /** `{trust['trust_code']: trust for trust in trusts}`: filled row by row, so a later row overwrites. */
  function TrustDict(trusts: seq<TrustRow>): map<string, TrustRow> {
    if trusts == [] then map[]
    else TrustDict(trusts[..|trusts| - 1])[trusts[|trusts| - 1].trustCode := trusts[|trusts| - 1]]
  }

  /** Every trust code is a key of the lookup table. */
  lemma {:induction false} TrustDictKeys(trusts: seq<TrustRow>)
    ensures forall k :: 0 <= k < |trusts| ==> trusts[k].trustCode in TrustDict(trusts)
  {
    if trusts != [] {
      var init := trusts[..|trusts| - 1];
      TrustDictKeys(init);
      assert forall k :: 0 <= k < |init| ==> init[k] == trusts[k];
    }
  }

  /** When codes repeat, the entry is the last row with that code. */
  lemma {:induction false} TrustDictLastWins(trusts: seq<TrustRow>)
    ensures forall k :: LastWithCode(trusts, k) ==>
              trusts[k].trustCode in TrustDict(trusts) && TrustDict(trusts)[trusts[k].trustCode] == trusts[k]
  {
    if trusts != [] {
      var init := trusts[..|trusts| - 1];
      TrustDictLastWins(init);
      forall k | LastWithCode(trusts, k)
        ensures trusts[k].trustCode in TrustDict(trusts) && TrustDict(trusts)[trusts[k].trustCode] == trusts[k]
      {
        if k < |init| {
          assert init[k] == trusts[k];
          assert LastWithCode(init, k);
        }
      }
    }
  }

  /** Every entry of the lookup table is one of the rows, filed under its own code. */
  lemma {:induction false} TrustDictEntries(trusts: seq<TrustRow>)
    ensures forall c :: c in TrustDict(trusts) ==> TrustDict(trusts)[c].trustCode == c && TrustDict(trusts)[c] in trusts
  {
    if trusts != [] {
      var init := trusts[..|trusts| - 1];
      TrustDictEntries(init);
      assert forall r :: r in init ==> r in trusts;
    }
  }

  /** `trust_info.get(code, {}).get('name', f'Trust {code}')`; None is a NULL name. */
  function TrustName(info: map<string, TrustRow>, code: string): (name: Option<string>)
    ensures code !in info ==> name == Some("Trust " + code)
    ensures code in info ==> name == info[code].name
  {
    if code in info then info[code].name else Some("Trust " + code)
  }

  /**
   * Over the lookup table built from the `Trusts` rows, the name shown is
   * the name of the last row with that code, or "Trust <code>" when no row has it.
   */
  lemma {:induction false} TrustNameFromRows(trusts: seq<TrustRow>, code: string)
    ensures (forall k :: 0 <= k < |trusts| ==> trusts[k].trustCode != code) ==>
      TrustName(TrustDict(trusts), code) == Some("Trust " + code)
    ensures forall k :: LastWithCode(trusts, k) && trusts[k].trustCode == code ==>
      TrustName(TrustDict(trusts), code) == trusts[k].name
  {
    var info := TrustDict(trusts);
    TrustDictEntries(trusts);
    TrustDictLastWins(trusts);
    if code in info {
      var k :| 0 <= k < |trusts| && trusts[k] == info[code];
      assert trusts[k].trustCode == code;
    }
  }

  /** `f"{first or ''} {last or ''}"`: the two parts joined by one space. */
  function NameParts(first: Option<string>, last: Option<string>): string {
    OrElse(first, "") + " " + OrElse(last, "")
  }

  /**
   * `f"{first or ''} {last or ''}".strip() or 'N/A'`: the stripped name, or
   * "N/A" when it is blank.
   */
  function FullName(first: Option<string>, last: Option<string>): (r: string)
    ensures r != []
    ensures r == "N/A" || (IsInfix(r, NameParts(first, last)) && !IsSpace(r[0]) && !IsSpace(r[|r| - 1]))
    ensures (forall k :: 0 <= k < |NameParts(first, last)| ==> IsSpace(NameParts(first, last)[k])) ==> r == "N/A"
    ensures Strip(NameParts(first, last)) != [] ==> r == Strip(NameParts(first, last))
  {
    var s := Strip(NameParts(first, last));
    if s == "" then "N/A" else s
  }

  /** Both parts present and unpadded: the name is "<first> <last>". */
  lemma FullNameOfParts(first: string, last: string)
    requires first != [] && !IsSpace(first[0])
    requires last != [] && !IsSpace(last[|last| - 1])
    ensures FullName(Some(first), Some(last)) == first + " " + last
  {
    StripUnpadded(first + " " + last);
  }

  /** Neither part present: the name is "N/A". */
  lemma FullNameMissing()
    ensures FullName(None, None) == "N/A"
    ensures FullName(Some(""), None) == "N/A"
  {
    assert IsSpace(NameParts(None, None)[0]);
  }

  /** `'Active' if is_active else 'Inactive'`: a NULL or zero flag is inactive. */
  function Status(isActive: Option<int>): (shown: string)
    ensures shown == "Active" <==> isActive.Some? && isActive.value != 0
    ensures shown == "Active" || shown == "Inactive"
  {
    if isActive.Some? && isActive.value != 0 then "Active" else "Inactive"
  }

  /** One printed row: ID, Username, Email, Role, Full Name, Status, Created, Last Login. */
  datatype ReportRow = ReportRow(
    id: int, username: Option<string>, email: string, role: Option<string>,
    fullName: string, status: string, created: string, lastLogin: string)

  /** The cells printed for one user. */
  function Display(u: UserRow): (d: ReportRow)
    ensures d.id == u.id && d.username == u.username && d.role == u.role
    ensures d.email == OrElse(u.email, "N/A") && d.fullName == FullName(u.firstName, u.lastName)
    ensures d.status == Status(u.isActive)
    ensures d.created == "Never" <==> u.createdAt.None?
    ensures d.lastLogin == "Never" <==> u.lastLogin.None?
    ensures u.createdAt.Some? ==> Parse(d.created) == u.createdAt
    ensures u.lastLogin.Some? ==> Parse(d.lastLogin) == u.lastLogin
  {
    ReportRow(u.id, u.username, OrElse(u.email, "N/A"), u.role, FullName(u.firstName, u.lastName),
              Status(u.isActive), FormatDatetime(u.createdAt), FormatDatetime(u.lastLogin))
  }

  /** The printed rows of a list of users, one per user, in order. */
  function DisplayAll(users: seq<UserRow>): (table: seq<ReportRow>)
    ensures |table| == |users|
    ensures forall k :: 0 <= k < |users| ==> table[k] == Display(users[k])
  {
    Map(users, Display)
  }

  /** The `table_data.append` loop: one printed row per user, in order. */
  method BuildTable(users: seq<UserRow>) returns (table: seq<ReportRow>)
    ensures table == DisplayAll(users)
  {
    table := AppendEach(users, Display);
  }

  /** The heading and count printed for one tenant database. */
  datatype TrustSection = TrustSection(databaseName: string, trustName: Option<string>, userCount: nat)

  /** The section of one tenant database: the trust name looked up by its code, and its user count. */
  function Section(databaseName: string, info: map<string, TrustRow>, users: seq<UserRow>): (s: TrustSection)
    ensures s.databaseName == databaseName
    ensures s.trustName == TrustName(info, TrustCode(databaseName))
    ensures s.userCount == |users|
  {
    TrustSection(databaseName, TrustName(info, TrustCode(databaseName)), |users|)
  }

  /** The sections of the databases, in order, database `i` having fetched `userLists[i]`. */
  function Sections(databaseNames: seq<string>, info: map<string, TrustRow>, userLists: seq<seq<UserRow>>): (ss: seq<TrustSection>)
    requires |databaseNames| == |userLists|
    ensures |ss| == |databaseNames|
  {
    if databaseNames == [] then []
    else
      var n := |databaseNames| - 1;
      Sections(databaseNames[..n], info, userLists[..n]) + [Section(databaseNames[n], info, userLists[n])]
  }

  /** The sections of the first `i + 1` databases extend those of the first `i`. */
  lemma SectionsSnoc(databaseNames: seq<string>, info: map<string, TrustRow>, userLists: seq<seq<UserRow>>, i: int)
    requires |databaseNames| == |userLists| && 0 <= i < |databaseNames|
    ensures Sections(databaseNames[..i + 1], info, userLists[..i + 1])
      == Sections(databaseNames[..i], info, userLists[..i]) + [Section(databaseNames[i], info, userLists[i])]
  {
    assert databaseNames[..i + 1][..i] == databaseNames[..i];
    assert userLists[..i + 1][..i] == userLists[..i];
  }

  /** Section `i` is the section of database `i`. */
  lemma {:induction false} SectionsAt(databaseNames: seq<string>, info: map<string, TrustRow>, userLists: seq<seq<UserRow>>, i: int)
    requires |databaseNames| == |userLists| && 0 <= i < |databaseNames|
    ensures Sections(databaseNames, info, userLists)[i] == Section(databaseNames[i], info, userLists[i])
  {
    var n := |databaseNames| - 1;
    if i < n {
      assert databaseNames[..n][i] == databaseNames[i] && userLists[..n][i] == userLists[i];
      SectionsAt(databaseNames[..n], info, userLists[..n], i);
    }
  }

  /** The printed table of each tenant database, in order. */
  function DisplayLists(userLists: seq<seq<UserRow>>): (tables: seq<seq<ReportRow>>)
    ensures |tables| == |userLists|
    ensures forall i :: 0 <= i < |userLists| ==> tables[i] == DisplayAll(userLists[i])
  {
    Map(userLists, DisplayAll)
  }

  /** The closing summary. */
  datatype Summary = Summary(systemUsers: nat, trustDatabases: nat, totalTrustUsers: nat, grandTotal: nat)

  /**
   * `main`: the system table, one section and one table per tenant database
   * (the rows of `trustUsers[i]` are what `get_trust_users` returned for
   * `trustDatabases[i]`), the concatenation `all_trust_users` and the
   * summary. The grand total is the system count plus every tenant count.
   */
  method Report(systemUsers: seq<UserRow>, trusts: seq<TrustRow>, trustDatabases: seq<string>, trustUsers: seq<seq<UserRow>>)
    returns (systemTable: seq<ReportRow>, sections: seq<TrustSection>, trustTables: seq<seq<ReportRow>>,
             allTrustUsers: seq<UserRow>, summary: Summary)
    requires |trustUsers| == |trustDatabases|
    ensures systemTable == DisplayAll(systemUsers)
    ensures sections == Sections(trustDatabases, TrustDict(trusts), trustUsers)
    ensures trustTables == DisplayLists(trustUsers)
    ensures allTrustUsers == Flatten(trustUsers)
    ensures summary.systemUsers == |systemUsers| && summary.trustDatabases == |trustDatabases|
    ensures summary.totalTrustUsers == SumLengths(trustUsers)
    ensures summary.grandTotal == |systemUsers| + SumLengths(trustUsers)
  {
    systemTable := BuildTable(systemUsers);
    var info := TrustDict(trusts);
    sections, trustTables, allTrustUsers := [], [], [];
    for i := 0 to |trustDatabases|
      invariant sections == Sections(trustDatabases[..i], info, trustUsers[..i])
      invariant trustTables == Map(trustUsers[..i], DisplayAll)
      invariant allTrustUsers == Flatten(trustUsers[..i])
    {
      var name := TrustName(info, TrustCode(trustDatabases[i]));
      var rows := BuildTable(trustUsers[i]);
      var section := TrustSection(trustDatabases[i], name, |trustUsers[i]|);
      SectionsSnoc(trustDatabases, info, trustUsers, i);
      MapSnoc(trustUsers, DisplayAll, i);
      FlattenSnoc(trustUsers, i);
      sections := sections + [section];
      trustTables := trustTables + [rows];
      allTrustUsers := allTrustUsers + trustUsers[i];
    }
    assert trustDatabases[..|trustDatabases|] == trustDatabases;
    assert trustUsers[..|trustDatabases|] == trustUsers;
    assert |allTrustUsers| == SumLengths(trustUsers) by {
      FlattenLength(trustUsers);
    }
    summary := Summary(|systemUsers|, |trustDatabases|, |allTrustUsers|, |systemUsers| + |allTrustUsers|);
  }
}
