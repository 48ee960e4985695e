/**
 * The decisions of the database exploration script: which tables of a
 * database count as user tables, which of them are described and sampled,
 * the fallback sample of a tenant database without user tables, the
 * sample query with its row limit, the projection of a column description
 * and the numbered table listing. The queries themselves run elsewhere:
 * their results come in as arguments.
 */
module ExploreDb {
  import opened Optional
  import opened Strings
  import opened Digits
  import opened Sequences

  /** The row limit of a sample query when the caller gives none. */
  const DefaultSampleLimit: nat := 10
  /** How many user tables are described and sampled, and the rows sampled from each. */
  const InspectedUserTables: nat := 3
  const UserTableSampleLimit: nat := 5
  /** How many tables are sampled when a tenant database has no user tables, and the rows from each. */
  const FallbackTables: nat := 5
  const FallbackSampleLimit: nat := 3

  /** A table is user-related when its lower-cased name contains "user" or "admin". */
  predicate IsUserTable(table: string) {
    Contains(Lower(table), "user") || Contains(Lower(table), "admin")
  }

  /** The user-related tables, in the order the database listed them. */
  function UserTables(tables: seq<string>): (r: seq<string>)
    ensures |r| <= |tables|
    ensures forall k :: 0 <= k < |r| ==> r[k] in tables && IsUserTable(r[k])
    ensures forall k :: 0 <= k < |tables| && IsUserTable(tables[k]) ==> tables[k] in r
  {
    Filter(tables, IsUserTable)
  }

  /** Lower-casing the name first changes nothing: the match ignores case. */
  lemma UserTableIgnoresCase(table: string)
    ensures IsUserTable(Lower(table)) == IsUserTable(table)
  {
    assert Lower(Lower(table)) == Lower(table);
  }

  /** A table is a user table exactly when "user" or "admin" occurs somewhere in its lower-cased name. */
  lemma UserTableByInfix(table: string)
    ensures IsUserTable(table) <==> IsInfix("user", Lower(table)) || IsInfix("admin", Lower(table))
  {
    ContainsIsInfix(Lower(table), "user");
    ContainsIsInfix(Lower(table), "admin");
  }

  /** One more listed table extends the user tables by that table exactly when it is one. */
  lemma UserTablesSnoc(tables: seq<string>, table: string)
    ensures UserTables(tables + [table]) == UserTables(tables) + (if IsUserTable(table) then [table] else [])
  {
    FilterAppend(tables, [table], IsUserTable);
    assert [table][1..] == [];
  }

  /** There are no user tables exactly when no listed table is one. */
  lemma NoUserTables(tables: seq<string>)
    ensures UserTables(tables) == [] <==> forall k :: 0 <= k < |tables| ==> !IsUserTable(tables[k])
  {
    if UserTables(tables) != [] {
      var t := UserTables(tables)[0];
      var k :| 0 <= k < |tables| && tables[k] == t;
    }
  }

  /**
   * What the script does with one table: optionally print its structure,
   * then print up to `limit` rows of it.
   */
  datatype Inspection = Inspection(table: string, describe: bool, limit: nat)

  /** The system database: the first three user tables are described and sampled five rows each. */
  function SystemPlan(tables: seq<string>): (plan: seq<Inspection>)
    ensures |plan| == if |UserTables(tables)| < InspectedUserTables then |UserTables(tables)| else InspectedUserTables
    ensures forall k :: 0 <= k < |plan| ==>
              && plan[k].describe && plan[k].limit == UserTableSampleLimit
              && plan[k].table in tables && IsUserTable(plan[k].table)
    ensures forall k :: 0 <= k < |plan| ==> plan[k].table == UserTables(tables)[k]
  {
    var inspected := Take(UserTables(tables), InspectedUserTables);
    seq(|inspected|, k requires 0 <= k < |inspected| =>
      Inspection(inspected[k], true, UserTableSampleLimit))
  }

  /** The system plan inspects all user tables when there are at most three. */
  lemma SystemPlanCoversFewUserTables(tables: seq<string>)
    requires |UserTables(tables)| <= InspectedUserTables
    ensures |SystemPlan(tables)| == |UserTables(tables)|
    ensures forall t :: t in UserTables(tables) ==> exists k :: 0 <= k < |SystemPlan(tables)| && SystemPlan(tables)[k].table == t
  {
    forall t | t in UserTables(tables)
      ensures exists k :: 0 <= k < |SystemPlan(tables)| && SystemPlan(tables)[k].table == t
    {
      var k :| 0 <= k < |UserTables(tables)| && UserTables(tables)[k] == t;
      assert SystemPlan(tables)[k].table == t;
    }
  }

  /**
   * The tenant database: as for the system database, except that when it
   * has no user tables its first five tables are sampled three rows each,
   * without describing them.
   */
  function TrustPlan(tables: seq<string>): (plan: seq<Inspection>)
    ensures UserTables(tables) != [] ==> plan == SystemPlan(tables)
    ensures UserTables(tables) == [] ==>
              && |plan| == |Take(tables, FallbackTables)|
              && forall k :: 0 <= k < |plan| ==>
                   plan[k] == Inspection(tables[k], false, FallbackSampleLimit)
  {
    if UserTables(tables) != [] then SystemPlan(tables)
    else
      var sampled := Take(tables, FallbackTables);
      seq(|sampled|, k requires 0 <= k < |sampled| =>
        Inspection(sampled[k], false, FallbackSampleLimit))
  }

  /** A tenant table is described exactly when the tenant database has user tables, and then it is one. */
  lemma TrustPlanDescribesOnlyUserTables(tables: seq<string>)
    ensures |TrustPlan(tables)| <= FallbackTables
    ensures forall k :: 0 <= k < |TrustPlan(tables)| ==>
              (TrustPlan(tables)[k].describe <==> exists j :: 0 <= j < |tables| && IsUserTable(tables[j]))
    ensures forall k :: 0 <= k < |TrustPlan(tables)| && TrustPlan(tables)[k].describe ==>
              IsUserTable(TrustPlan(tables)[k].table)
  {
    NoUserTables(tables);
  }

  /** The text of a sampling query before its row limit. */
  function QueryPrefix(table: string): string {
    "SELECT * FROM " + table + " LIMIT "
  }

  /** The sampling query of a table; the limit is ten rows unless the caller says otherwise. */
  function SampleQuery(table: string, limit: nat := DefaultSampleLimit): (query: string)
    ensures |query| > |QueryPrefix(table)| && query[..|QueryPrefix(table)|] == QueryPrefix(table)
    ensures ParseNat(query[|QueryPrefix(table)|..]) == Some(limit)
    ensures |query| > |QueryPrefix(table)| + 1 ==> query[|QueryPrefix(table)|] != '0'
  {
    DecimalValue(limit);
    var query := QueryPrefix(table) + Decimal(limit);
    assert query[|QueryPrefix(table)|..] == Decimal(limit);
    query
  }

  /** The query an inspection runs asks for the inspection's row limit. */
  function InspectionQuery(step: Inspection): (query: string)
    ensures |query| > |QueryPrefix(step.table)|
    ensures ParseNat(query[|QueryPrefix(step.table)|..]) == Some(step.limit)
  {
    SampleQuery(step.table, step.limit)
  }

  /** A line of `DESCRIBE <table>`: column name to value, where NULL is `None`. */
  type ColumnDescription = map<string, Option<string>>

  const DescribeHeaders: seq<string> := ["Field", "Type", "Null", "Key", "Default"]

  predicate Describes(column: ColumnDescription) {
    forall k :: 0 <= k < |DescribeHeaders| ==> DescribeHeaders[k] in column
  }

  /** The printed structure row of one column: its values under the five headers, in header order. */
  function Project(column: ColumnDescription): (row: seq<Option<string>>)
    requires Describes(column)
    ensures |row| == |DescribeHeaders|
    ensures forall k :: 0 <= k < |row| ==> row[k] == column[DescribeHeaders[k]]
  {
    [ column[DescribeHeaders[0]], column[DescribeHeaders[1]], column[DescribeHeaders[2]]
    , column[DescribeHeaders[3]], column[DescribeHeaders[4]] ]
  }

  /** The structure table: one projected row per column, in the order DESCRIBE returned them. */
  function StructureTable(columns: seq<ColumnDescription>): (rows: seq<seq<Option<string>>>)
    requires forall k :: 0 <= k < |columns| ==> Describes(columns[k])
    ensures |rows| == |columns|
    ensures forall k :: 0 <= k < |rows| ==> rows[k] == Project(columns[k])
  {
    seq(|columns|, k requires 0 <= k < |columns| => Project(columns[k]))
  }

  /** Columns outside the five headers (`Extra`) do not reach the printed table. */
  lemma ProjectIgnoresOtherColumns(a: ColumnDescription, b: ColumnDescription)
    requires Describes(a) && Describes(b)
    requires forall k :: 0 <= k < |DescribeHeaders| ==> a[DescribeHeaders[k]] == b[DescribeHeaders[k]]
    ensures Project(a) == Project(b)
  {
    assert Project(a)[4] == Project(b)[4];
  }

  /** The listing line of a table, `  <number>. <table>`. */
  function ListingLine(number: nat, table: string): (line: string)
    ensures |line| >= |table| + 5 && line[..2] == "  "
    ensures line[|line| - |table|..] == table
    ensures line[|line| - |table| - 2..|line| - |table|] == ". "
    ensures ParseNat(line[2..|line| - |table| - 2]) == Some(number)
    ensures |line| > |table| + 5 ==> line[2] != '0'
  {
    DecimalValue(number);
    var line := "  " + Decimal(number) + ". " + table;
    assert line[2..|line| - |table| - 2] == Decimal(number);
    line
  }

  /** The listing of the tables, numbered from one in the order the database gave them. */
  function Listing(tables: seq<string>): (lines: seq<string>)
    ensures |lines| == |tables|
    ensures forall k :: 0 <= k < |lines| ==> lines[k] == ListingLine(k + 1, tables[k])
  {
    seq(|tables|, k requires 0 <= k < |tables| => ListingLine(k + 1, tables[k]))
  }
}
