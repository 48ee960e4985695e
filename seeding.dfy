/**
 * Seeding of the admin accounts: the system admin row, the tenant admin row
 * (in one of two table layouts), the "clear the table, then insert the
 * admin" sequence run on each database, and the read-back that verifies it.
 */
module Seeding {
  import opened Optional
  import opened Strings
  import opened DateTimes

  /**
   * A column name of the user tables. The names the scripts write or read
   * have their own constructor; any other column `DESCRIBE` lists is Other.
   * A listed name is read into its own constructor when it has one, so
   * Other never carries one of the names above (`Other("username")` does
   * not arise).
   */
  datatype Column =
    | Username | Email | PasswordHash | FirstName | LastName | FullName
    | Role | Status | UserType | IsActive | CreatedAt | UpdatedAt
    | Other(name: string)

  /** A value bound to an `INSERT` parameter or read back by a `SELECT`. */
  datatype Value = Null | Text(s: string) | Int(i: int) | Time(t: DateTime)

  /** One table row: the value stored under each of its columns. */
  type Row = map<Column, Value>

  /** A table: its columns (what `DESCRIBE` lists) and its rows. */
  datatype Table = Table(columns: seq<Column>, rows: seq<Row>)

  /** The server accepts an `INSERT` only when it names existing columns. */
  predicate Accepts(t: Table, r: Row) {
    forall c :: c in r ==> c in t.columns
  }

  /** The tables of a database after `DELETE FROM name`. */
  function Cleared(tables: map<string, Table>, name: string): map<string, Table> {
    if name in tables then tables[name := tables[name].(rows := [])] else tables
  }

  /** The tables of a database after `INSERT INTO name` of `r`. */
  function Inserted(tables: map<string, Table>, name: string, r: Row): map<string, Table> {
    if name in tables && Accepts(tables[name], r)
    then tables[name := tables[name].(rows := tables[name].rows + [r])]
    else tables
  }

  /** The server side of one database connection: the tables and their rows. */
  class Database {
    var tables: map<string, Table>

    constructor (tables: map<string, Table>)
      ensures this.tables == tables
    {
      this.tables := tables;
    }

    /** `DELETE FROM tableName`; the affected row count, or None when the statement fails. */
    method DeleteAll(tableName: string) returns (affected: Option<nat>)
      modifies this
      ensures tables == Cleared(old(tables), tableName)
      ensures affected.Some? <==> tableName in old(tables)
      ensures affected.Some? ==> affected.value == |old(tables)[tableName].rows|
    {
      if tableName in tables {
        affected := Some(|tables[tableName].rows|);
        tables := tables[tableName := tables[tableName].(rows := [])];
      } else {
        affected := None;
      }
    }

    /** `INSERT INTO tableName (...) VALUES (...)`; false when the statement fails. */
    method Insert(tableName: string, r: Row) returns (ok: bool)
      modifies this
      ensures tables == Inserted(old(tables), tableName, r)
      ensures ok <==> tableName in old(tables) && Accepts(old(tables)[tableName], r)
    {
      ok := tableName in tables && Accepts(tables[tableName], r);
      if ok {
        tables := tables[tableName := tables[tableName].(rows := tables[tableName].rows + [r])];
      }
    }
  }

  /**
   * `clear_existing_users`: deletes every row of the table and reports how
   * many were removed; a failing statement is reported and changes nothing.
   */
  method ClearExistingUsers(db: Database, tableName: string) returns (cleared: Option<nat>)
    modifies db
    ensures db.tables == Cleared(old(db.tables), tableName)
    ensures tableName in db.tables ==> db.tables[tableName].rows == []
    ensures cleared.Some? <==> tableName in old(db.tables)
    ensures cleared.Some? ==> cleared.value == |old(db.tables)[tableName].rows|
  {
    cleared := db.DeleteAll(tableName);
  }

  /** The password and the clock reading used for one seeded row (bcrypt hash kept opaque). */
  datatype Seed = Seed(passwordHash: string, now: DateTime)

  const SystemUserColumns: set<Column> :=
    {Username, PasswordHash, FullName, Role, Status, CreatedAt, UpdatedAt}

  /** The tenant `users` layout that has a `username` column. */
  const UsernameUserColumns: set<Column> :=
    {Username, Email, PasswordHash, FirstName, LastName, UserType, IsActive, CreatedAt, UpdatedAt}

  /** The tenant `users` layout keyed by e-mail. */
  const EmailUserColumns: set<Column> :=
    {Email, PasswordHash, Role, Status, FullName, CreatedAt, UpdatedAt}

  /** The row `seed_system_admin` inserts into `system_users`. */
  function SystemAdminRow(seed: Seed): (r: Row)
    ensures r.Keys == SystemUserColumns
    ensures r[Username] == Text("admin") && r[PasswordHash] == Text(seed.passwordHash)
    ensures r[FullName] == Text("System Administrator")
    ensures r[Role] == Text("SYSTEM_ADMIN") && r[Status] == Text("ACTIVE")
    ensures r[CreatedAt] == r[UpdatedAt] == Time(seed.now)
  {
    map[Username := Text("admin"), PasswordHash := Text(seed.passwordHash),
        FullName := Text("System Administrator"), Role := Text("SYSTEM_ADMIN"), Status := Text("ACTIVE"),
        CreatedAt := Time(seed.now), UpdatedAt := Time(seed.now)]
  }

  /** The tenant admin's e-mail: "admin@" + the last `_`-separated part of the database name + ".school". */
  function AdminEmail(databaseName: string): string {
    "admin@" + LastSegment(databaseName, '_') + ".school"
  }

  /** For a database named `<prefix>_<code>` with no `_` in the code, the e-mail domain is the code. */
  lemma {:induction false} AdminEmailOfTrust(prefix: string, code: string)
    requires '_' !in code
    ensures AdminEmail(prefix + "_" + code) == "admin@" + code + ".school"
  {
    var s := prefix + "_" + code;
    var r := LastSegment(s, '_');
    assert s[|s| - |code| - 1] == '_';
    assert forall k :: |s| - |code| <= k < |s| ==> s[k] == code[k - (|s| - |code|)];
    assert s[|s| - |code|..] == code;
  }

  /** The two tenant databases seeded by `main` get the e-mails their login banner announces. */
  lemma SeededTenantEmails()
    ensures AdminEmail("school_erp_trust_demo") == "admin@demo.school"
    ensures AdminEmail("school_erp_trust_maroon") == "admin@maroon.school"
  {
    DemoEmail();
    MaroonEmail();
  }

  lemma DemoEmail()
    ensures AdminEmail("school_erp_trust_demo") == "admin@demo.school"
  {
    assert "school_erp_trust_demo" == "school_erp_trust" + "_" + "demo";
    AdminEmailOfTrust("school_erp_trust", "demo");
  }

  lemma MaroonEmail()
    ensures AdminEmail("school_erp_trust_maroon") == "admin@maroon.school"
  {
    assert "school_erp_trust_maroon" == "school_erp_trust" + "_" + "maroon";
    AdminEmailOfTrust("school_erp_trust", "maroon");
  }

  /** The tenant admin row in the layout with a `username` column. */
  function UsernameLayoutAdminRow(email: string, seed: Seed): (r: Row)
    ensures r.Keys == UsernameUserColumns
    ensures r[Username] == Text("admin") && r[Email] == Text(email)
    ensures r[PasswordHash] == Text(seed.passwordHash)
    ensures r[FirstName] == Text("Trust") && r[LastName] == Text("Administrator")
    ensures r[UserType] == Text("ADMIN") && r[IsActive] == Int(1)
    ensures r[CreatedAt] == r[UpdatedAt] == Time(seed.now)
  {
    map[Username := Text("admin"), Email := Text(email), PasswordHash := Text(seed.passwordHash),
        FirstName := Text("Trust"), LastName := Text("Administrator"), UserType := Text("ADMIN"),
        IsActive := Int(1), CreatedAt := Time(seed.now), UpdatedAt := Time(seed.now)]
  }

  /** The tenant admin row in the e-mail layout. */
  function EmailLayoutAdminRow(email: string, trustName: string, seed: Seed): (r: Row)
    ensures r.Keys == EmailUserColumns
    ensures r[Email] == Text(email) && r[PasswordHash] == Text(seed.passwordHash)
    ensures r[Role] == Text("TRUST_ADMIN") && r[Status] == Text("ACTIVE")
    ensures r[FullName] == Text(trustName + " Administrator")
    ensures r[CreatedAt] == r[UpdatedAt] == Time(seed.now)
  {
    map[Email := Text(email), PasswordHash := Text(seed.passwordHash), Role := Text("TRUST_ADMIN"),
        Status := Text("ACTIVE"), FullName := Text(trustName + " Administrator"),
        CreatedAt := Time(seed.now), UpdatedAt := Time(seed.now)]
  }

  /**
   * The row `seed_tenant_admin` inserts into `users`: the username layout
   * when `DESCRIBE users` lists a `username` column, the e-mail layout
   * otherwise. Either way it carries the admin e-mail (`AdminEmail` of the
   * database name, computed by the caller), the password hash
   * and one time stamp for creation and update.
   */
  function TenantAdminRow(columns: seq<Column>, email: string, trustName: string, seed: Seed): (r: Row)
    ensures r.Keys == if Username in columns then UsernameUserColumns else EmailUserColumns
    ensures Email in r && r[Email] == Text(email)
    ensures PasswordHash in r && r[PasswordHash] == Text(seed.passwordHash)
    ensures CreatedAt in r && UpdatedAt in r && r[CreatedAt] == r[UpdatedAt] == Time(seed.now)
    ensures Username in columns ==> r == UsernameLayoutAdminRow(email, seed)
    ensures Username !in columns ==> r == EmailLayoutAdminRow(email, trustName, seed)
  {
    if Username in columns then UsernameLayoutAdminRow(email, seed)
    else EmailLayoutAdminRow(email, trustName, seed)
  }

  /** The username layout binds nine values, the e-mail layout seven, the system layout seven. */
  lemma LayoutArity()
    ensures |UsernameUserColumns| == 9 && |EmailUserColumns| == 7 && |SystemUserColumns| == 7
  {
  }

  /** `seed_system_admin`: inserts the system admin; false when the insert fails. */
  method SeedSystemAdmin(db: Database, seed: Seed) returns (created: bool)
    modifies db
    ensures db.tables == Inserted(old(db.tables), "system_users", SystemAdminRow(seed))
    ensures created <==> "system_users" in old(db.tables) && Accepts(old(db.tables)["system_users"], SystemAdminRow(seed))
  {
    created := db.Insert("system_users", SystemAdminRow(seed));
  }

  /** The tables after `seed_tenant_admin`: `DESCRIBE users` fails when there is no `users` table. */
  function TenantSeeded(tables: map<string, Table>, email: string, trustName: string, seed: Seed): map<string, Table> {
    if "users" in tables
    then Inserted(tables, "users", TenantAdminRow(tables["users"].columns, email, trustName, seed))
    else tables
  }

  /** `seed_tenant_admin`: picks the row layout from `DESCRIBE users`, then inserts. */
  method SeedTenantAdmin(db: Database, databaseName: string, trustName: string, seed: Seed) returns (created: bool)
    modifies db
    ensures db.tables == TenantSeeded(old(db.tables), AdminEmail(databaseName), trustName, seed)
    ensures created <==> ("users" in old(db.tables)
      && Accepts(old(db.tables)["users"], TenantAdminRow(old(db.tables)["users"].columns, AdminEmail(databaseName), trustName, seed)))
  {
    if "users" !in db.tables {
      created := false;
    } else {
      var columns := db.tables["users"].columns;
      var email := AdminEmail(databaseName);
      created := db.Insert("users", TenantAdminRow(columns, email, trustName, seed));
    }
  }

  /** A delete followed by an accepted insert leaves the inserted row alone in its table. */
  lemma ClearThenInsert(tables: map<string, Table>, name: string, r: Row)
    requires name in tables && Accepts(tables[name], r)
    ensures Inserted(Cleared(tables, name), name, r) == tables[name := Table(tables[name].columns, [r])]
  {
    assert [] + [r] == [r];
  }

  /**
   * Clearing and then seeding, with both statements succeeding, leaves the
   * system admin as the only row of `system_users` and no other table changed.
   */
  lemma {:induction false} SystemSeedLeavesOnlyAdmin(tables: map<string, Table>, seed: Seed)
    requires "system_users" in tables && Accepts(tables["system_users"], SystemAdminRow(seed))
    ensures var after := Inserted(Cleared(tables, "system_users"), "system_users", SystemAdminRow(seed));
      && after.Keys == tables.Keys
      && after["system_users"] == Table(tables["system_users"].columns, [SystemAdminRow(seed)])
      && forall t :: t in tables && t != "system_users" ==> after[t] == tables[t]
  {
    ClearThenInsert(tables, "system_users", SystemAdminRow(seed));
  }

  /**
   * Clearing and then seeding a tenant database, with both statements
   * succeeding, leaves its admin as the only row of `users`.
   */
  lemma {:induction false} TenantSeedLeavesOnlyAdmin(tables: map<string, Table>, email: string, trustName: string, seed: Seed)
    requires "users" in tables
    requires Accepts(tables["users"], TenantAdminRow(tables["users"].columns, email, trustName, seed))
    ensures var after := TenantSeeded(Cleared(tables, "users"), email, trustName, seed);
      && after.Keys == tables.Keys
      && after["users"] == Table(tables["users"].columns, [TenantAdminRow(tables["users"].columns, email, trustName, seed)])
      && forall t :: t in tables && t != "users" ==> after[t] == tables[t]
  {
    var columns := tables["users"].columns;
    var row := TenantAdminRow(columns, email, trustName, seed);
    assert Cleared(tables, "users")["users"].columns == columns;
    ClearThenInsert(tables, "users", row);
  }

  /**
   * `main`: for each database that accepted a connection (non-null here),
   * clear its user table and seed its admin: system, then demo, then maroon.
   */
  method SeedAll(system: Database?, demo: Database?, maroon: Database?, systemSeed: Seed, demoSeed: Seed, maroonSeed: Seed)
    requires system != null && demo != null ==> system != demo
    requires system != null && maroon != null ==> system != maroon
    requires demo != null && maroon != null ==> demo != maroon
    modifies system, demo, maroon
    ensures system != null ==>
      system.tables == Inserted(Cleared(old(system.tables), "system_users"), "system_users", SystemAdminRow(systemSeed))
    ensures demo != null ==>
      demo.tables == TenantSeeded(Cleared(old(demo.tables), "users"), "admin@demo.school", "Demo Trust", demoSeed)
    ensures maroon != null ==>
      maroon.tables == TenantSeeded(Cleared(old(maroon.tables), "users"), "admin@maroon.school", "Maroon Trust", maroonSeed)
  {
    SeededTenantEmails();
    if system != null {
      var _ := ClearExistingUsers(system, "system_users");
      var _ := SeedSystemAdmin(system, systemSeed);
    }
    if demo != null {
      var _ := ClearExistingUsers(demo, "users");
      var _ := SeedTenantAdmin(demo, "school_erp_trust_demo", "Demo Trust", demoSeed);
    }
    if maroon != null {
      var _ := ClearExistingUsers(maroon, "users");
      var _ := SeedTenantAdmin(maroon, "school_erp_trust_maroon", "Maroon Trust", maroonSeed);
    }
  }

  /** The columns `verify_users` selects and the headers it prints over them. */
  datatype Listing = Listing(selected: seq<Column>, headers: seq<string>)

  /** `verify_users`' choice of query and headers, from the table name and `DESCRIBE users`. */
  function VerifyListing(tableName: string, columns: seq<Column>): (l: Listing)
    ensures |l.headers| == |l.selected|
    ensures tableName == "system_users" ==> |l.headers| == 4 && l.selected == [Username, FullName, Role, Status]
    ensures tableName != "system_users" && Username in columns ==>
      |l.headers| == 6 && l.selected == [Username, Email, FirstName, LastName, UserType, IsActive]
    ensures tableName != "system_users" && Username !in columns ==>
      |l.headers| == 4 && l.selected == [Email, FullName, Role, Status]
  {
    if tableName == "system_users" then
      Listing([Username, FullName, Role, Status], ["Username", "Full Name", "Role", "Status"])
    else if Username in columns then
      Listing([Username, Email, FirstName, LastName, UserType, IsActive],
              ["Username", "Email", "First Name", "Last Name", "Type", "Active"])
    else
      Listing([Email, FullName, Role, Status], ["Email", "Full Name", "Role", "Status"])
  }

  /**
   * The values a `SELECT` of `selected` returns for one row. The model shows
   * NULL for a column the row has no value for.
   */
  function Project(r: Row, selected: seq<Column>): (vs: seq<Value>)
    ensures |vs| == |selected|
    ensures forall k :: 0 <= k < |selected| && selected[k] in r ==> vs[k] == r[selected[k]]
    ensures forall k :: 0 <= k < |selected| && selected[k] !in r ==> vs[k] == Null
  {
    seq(|selected|, k requires 0 <= k < |selected| => if selected[k] in r then r[selected[k]] else Null)
  }

  /**
   * What `verify_users` shows for one database: the selected values of every
   * row, or None ("Error verifying") when the table is missing or lacks a
   * column the `SELECT` names, since the server then rejects the query.
   */
  function VerifyTable(tables: map<string, Table>, tableName: string): (shown: Option<seq<seq<Value>>>)
    ensures shown.Some? <==> (tableName in tables
      && forall c :: c in VerifyListing(tableName, tables[tableName].columns).selected ==> c in tables[tableName].columns)
    ensures shown.Some? ==> |shown.value| == |tables[tableName].rows|
    ensures shown.Some? ==> forall k :: 0 <= k < |shown.value| ==>
      && |shown.value[k]| == |VerifyListing(tableName, tables[tableName].columns).headers|
      && shown.value[k] == Project(tables[tableName].rows[k], VerifyListing(tableName, tables[tableName].columns).selected)
  {
    if tableName !in tables then None
    else
      var t := tables[tableName];
      var selected := VerifyListing(tableName, t.columns).selected;
      if forall c :: c in selected ==> c in t.columns
      then Some(seq(|t.rows|, k requires 0 <= k < |t.rows| => Project(t.rows[k], selected)))
      else None
  }

  /** Every column verification selects is one the seeded row was given a value for. */
  lemma VerifySelectsSeededColumns(columns: seq<Column>, email: string, trustName: string, seed: Seed)
    ensures forall c :: c in VerifyListing("system_users", columns).selected ==> c in SystemAdminRow(seed)
    ensures forall c :: c in VerifyListing("users", columns).selected ==>
      c in TenantAdminRow(columns, email, trustName, seed)
  {
  }

  /** A `system_users` table without a `status` column makes verification report an error. */
  lemma VerifyNeedsStatusColumn(tables: map<string, Table>)
    requires "system_users" in tables && Status !in tables["system_users"].columns
    ensures VerifyTable(tables, "system_users") == None
  {
    assert Status in VerifyListing("system_users", tables["system_users"].columns).selected;
  }

  /**
   * Verification right after a successful e-mail-layout tenant seed shows
   * the one admin: its e-mail, "<trust> Administrator", TRUST_ADMIN, ACTIVE.
   */
  lemma {:induction false} VerifyShowsEmailLayoutAdmin(tables: map<string, Table>, email: string, trustName: string, seed: Seed)
    requires "users" in tables && Username !in tables["users"].columns
    requires Accepts(tables["users"], TenantAdminRow(tables["users"].columns, email, trustName, seed))
    ensures var after := TenantSeeded(Cleared(tables, "users"), email, trustName, seed);
      var listing := VerifyListing("users", after["users"].columns);
      |after["users"].rows| == 1
      && Project(after["users"].rows[0], listing.selected)
         == [Text(email), Text(trustName + " Administrator"), Text("TRUST_ADMIN"), Text("ACTIVE")]
  {
    TenantSeedLeavesOnlyAdmin(tables, email, trustName, seed);
    var r := TenantAdminRow(tables["users"].columns, email, trustName, seed);
    var p := Project(r, [Email, FullName, Role, Status]);
    assert p[0] == Text(email);
    assert p[1] == Text(trustName + " Administrator");
  }

  /** The table `verify_users` prints after that seed: the admin's row and nothing else, with no error. */
  lemma VerifyTableAfterEmailLayoutSeed(tables: map<string, Table>, email: string, trustName: string, seed: Seed)
    requires "users" in tables && Username !in tables["users"].columns
    requires Accepts(tables["users"], TenantAdminRow(tables["users"].columns, email, trustName, seed))
    ensures VerifyTable(TenantSeeded(Cleared(tables, "users"), email, trustName, seed), "users")
      == Some([[Text(email), Text(trustName + " Administrator"), Text("TRUST_ADMIN"), Text("ACTIVE")]])
  {
    VerifyShowsEmailLayoutAdmin(tables, email, trustName, seed);
    var after := TenantSeeded(Cleared(tables, "users"), email, trustName, seed);
    var t := after["users"];
    assert t.columns == tables["users"].columns;
    var selected := VerifyListing("users", t.columns).selected;
    assert selected == [Email, FullName, Role, Status];
    var r := TenantAdminRow(tables["users"].columns, email, trustName, seed);
    assert forall c :: c in selected ==> c in r;
    assert forall c :: c in selected ==> c in t.columns;
    var shown := VerifyTable(after, "users");
    assert shown.Some? && |shown.value| == 1;
    assert shown.value[0] == Project(t.rows[0], selected);
    assert shown.value == [shown.value[0]];
  }
}
