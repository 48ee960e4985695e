# School ERP operator scripts — a verified model of their logic

The repository is a set of operator scripts for a multi-tenant school
administration system. They talk to one central "system" database and to
one database per tenant ("trust"), and they probe a login endpoint over
HTTP. Each script runs straight through: connect, query or request, print.
This project models in Dafny what those scripts compute once the queries
have answered. Query results, server responses, password hashes and clock
readings are the models' inputs.

- `security.dfy` (module `Security`) covers the security probe suite.
  - The PASS/FAIL verdict of one login request under "BLOCKED", "SUCCESS"
    or "DEPENDS". It follows Python's short-circuit evaluation, and any
    exception counts as FAIL.
  - The seven probes in their order, and the pass count.
  - The 80 % GOOD / NEEDS ATTENTION rating, computed as exact integer
    arithmetic (`5 * passed >= 4 * total`).
- `seeding.dfy` (module `Seeding`) covers the admin seeding script.
  - A `Database` class whose tables the methods change in place.
  - `DELETE FROM` and `INSERT`, with their failure cases.
  - The system admin row and the two tenant row layouts, chosen by whether
    `DESCRIBE users` lists a `username` column.
  - The e-mail `admin@<last _-segment>.school`.
  - The clear-then-seed sequence over system, demo and maroon.
  - The query and headers used to verify the result, and the table it shows,
    or the error when a selected column is missing.
- `check_users.dfy` (module `CheckUsers`) covers the users report.
  - The in-place annotation of tenant rows with their database and trust
    code (`replace('school_erp_trust_', '')`).
  - The trust lookup dictionary, in which the last row with a given code
    wins, and the trust name with its `Trust <code>` fallback.
  - The cells of each printed row: e-mail or "N/A", stripped full name or
    "N/A", Active/Inactive, and the date layout.
  - The per-tenant sections, the concatenated tenant users and the totals.
- `show_users.dfy` (module `ShowUsers`) covers the second users listing.
  - The trust, system-user and tenant-user rows, with `login_attempts or 0`.
  - The ACTIVE filter and the "logged in during the last 7 days" filter.
  - The role distribution: a dictionary in insertion order.
  - The totals, and the credential lines, where the user name is taken from
    the e-mail.
- `explore_db.dfy` (module `ExploreDb`) covers the database explorer.
  - The user-table filter: "user" or "admin" in the lower-cased name.
  - The first three user tables, each described and sampled 5 rows.
  - The tenant fallback: when there are no user tables, the first five
    tables, sampled 3 rows each.
  - `LIMIT` with its default of 10.
  - The projection of `DESCRIBE` rows onto Field, Type, Null, Key, Default.
  - The table listing, numbered from 1.
- Shared helpers:
  - `optional.dfy` holds `Option`.
  - `strings.dfy` holds Python's `x or fallback`, `strip`, `lower`, `in`,
    `split(...)[-1]`, `split(...)[0]` and `replace`.
  - `digits.dfy` holds `str(n)` and zero padding, with their parsers.
  - `datetimes.dfy` holds `DATETIME` values, the
    `strftime("%Y-%m-%d %H:%M:%S")` layout with its parser, and
    `timedelta.days`.
  - `sequences.dfy` holds list comprehensions, slices, `extend`, and the
    counting behind the role distribution.

## Model

| member | source | states |
|---|---|---|
| Security.TestRequest | python_scripts/test_security.py:48-72 | A transport error fails. Under "BLOCKED" a reply passes iff its status is 400/401/403, or it is a 200 whose JSON object has a falsy `success`. Under "SUCCESS" it passes iff it is a 200 whose object has a truthy `success`. Under any other expectation ("DEPENDS") every reply passes. |
| Security.Judge | python_scripts/test_security.py:48-57 | The `if expected_result == ...` chain with its short-circuits. It has no contract of its own: RejectionNeedsNoBody and NonJsonOkRaises state its rejection and exception cases, and TestRequest states its PASS/FAIL for every reply. |
| Security.RejectionNeedsNoBody | python_scripts/test_security.py:48-53 | A rejection status passes "BLOCKED" without the body ever being read, even when it is not JSON. |
| Security.NonJsonOkRaises | python_scripts/test_security.py:48-57 | A 200 reply that is not JSON raises inside the verdict, so the probe fails under both "BLOCKED" and "SUCCESS". |
| Security.CountPassed | python_scripts/test_security.py:183 | The pass count is at most the number of results. It equals that number iff every result passed, and it is 0 iff none did. |
| Security.CountPassedAppend | python_scripts/test_security.py:183 | Counting passes distributes over concatenation of result lists. |
| Security.Status | python_scripts/test_security.py:196 | GOOD iff `passed >= 0.8 * total`, stated in exact integers. |
| Security.GoodNeedsSixOfSeven | python_scripts/test_security.py:183-196 | With seven probes, GOOD iff at least six pass. |
| Security.RunSuite | python_scripts/test_security.py:82-196 | The results are `Verdicts`: seven entries in probe order, each the probe's name with its verdict. Also the pass count, the total of 7, and GOOD iff at least six passed. |
| Security.RepliesPassAtLeastTwo | python_scripts/test_security.py:116-122 | When every probe gets a reply, the two "DEPENDS" probes pass, so at least two results are PASS. |
| Seeding.Database.DeleteAll | python_scripts/seed_admin_users.py:46-47 | The table loses all its rows and nothing else changes. The affected count is its old row count; the statement fails iff the table does not exist. |
| Seeding.Database.Insert | python_scripts/seed_admin_users.py:142 | The row is appended iff the table exists and has every column of the row; otherwise nothing changes and the call reports failure. |
| Seeding.ClearExistingUsers | python_scripts/seed_admin_users.py:42-52 | Afterwards the table is empty; the reported count is the number of rows removed, or absent when the table is missing. |
| Seeding.SystemAdminRow | python_scripts/seed_admin_users.py:61-78 | The row has exactly the seven `system_users` columns, holding admin, the hash, "System Administrator", SYSTEM_ADMIN and ACTIVE. `created_at` and `updated_at` are one time. |
| Seeding.AdminEmail | python_scripts/seed_admin_users.py:133 | `'admin@' + database_name.split('_')[-1] + '.school'`. It has no contract of its own: AdminEmailOfTrust gives the e-mail of every `<prefix>_<code>` name, and SeededTenantEmails gives the two seeded ones. |
| Seeding.AdminEmailOfTrust | python_scripts/seed_admin_users.py:112 | For a database `<prefix>_<code>` whose code has no `_`, the admin e-mail is `admin@<code>.school`. |
| Seeding.SeededTenantEmails | python_scripts/seed_admin_users.py:234-236 | The demo and maroon databases get admin@demo.school and admin@maroon.school, the e-mails the closing banner announces. |
| Seeding.UsernameLayoutAdminRow | python_scripts/seed_admin_users.py:101-120 | Exactly the nine username-layout columns, holding admin, the e-mail, the hash, Trust, Administrator, ADMIN, 1 and one time. |
| Seeding.EmailLayoutAdminRow | python_scripts/seed_admin_users.py:123-140 | Exactly the seven e-mail-layout columns, holding the e-mail, the hash, TRUST_ADMIN, ACTIVE, "<trust> Administrator" and one time. |
| Seeding.TenantAdminRow | python_scripts/seed_admin_users.py:95-140 | The whole username-layout row iff `DESCRIBE users` lists `username`, the whole e-mail-layout row otherwise. Either way the row carries the e-mail, the hash and equal created/updated times. |
| Seeding.LayoutArity | python_scripts/seed_admin_users.py:62-66 | The system layout binds seven values, the username layout nine and the e-mail layout seven. |
| Seeding.SeedSystemAdmin | python_scripts/seed_admin_users.py:54-86 | The system admin row is inserted into `system_users`; the method reports success iff the insert was accepted. |
| Seeding.SeedTenantAdmin | python_scripts/seed_admin_users.py:88-148 | Without a `users` table nothing changes and seeding fails. Otherwise the layout-matched row, with the derived e-mail, is inserted; success iff it was accepted. |
| Seeding.TenantSeeded | python_scripts/seed_admin_users.py:88-148 | The tables after `seed_tenant_admin`. It has no contract of its own: TenantSeedLeavesOnlyAdmin and VerifyTableAfterEmailLayoutSeed state what it leaves in `users`, and SeedTenantAdmin is proved to produce it. |
| Seeding.ClearThenInsert | python_scripts/seed_admin_users.py:208-209 | A delete followed by an accepted insert leaves exactly the inserted row in the table. |
| Seeding.SystemSeedLeavesOnlyAdmin | python_scripts/seed_admin_users.py:206-210 | After clear-then-seed, `system_users` holds only the admin row and every other table is unchanged. |
| Seeding.TenantSeedLeavesOnlyAdmin | python_scripts/seed_admin_users.py:214-226 | After clear-then-seed, `users` holds only the tenant admin row and every other table is unchanged. |
| Seeding.SeedAll | python_scripts/seed_admin_users.py:197-226 | Each connected database is cleared and then seeded: system with the system admin, demo with admin@demo.school / Demo Trust, maroon with admin@maroon.school / Maroon Trust. |
| Seeding.VerifyListing | python_scripts/seed_admin_users.py:168-181 | `system_users` shows Username, Full Name, Role, Status. A tenant shows the six username-layout columns iff it has `username`, otherwise E-mail, Full Name, Role, Status. There is one header per selected column. |
| Seeding.Project | python_scripts/seed_admin_users.py:183 | A `SELECT` returns one value per selected column: the row's value under that column, or NULL when the row has no value for it. |
| Seeding.VerifyTable | python_scripts/seed_admin_users.py:166-191 | An error ("Error verifying") iff the table is missing or lacks a column the `SELECT` names. Otherwise one projected row per stored row, with one value per header. |
| Seeding.VerifyNeedsStatusColumn | python_scripts/seed_admin_users.py:168-169 | A `system_users` table without `status` makes verification report an error. |
| Seeding.VerifyTableAfterEmailLayoutSeed | python_scripts/seed_admin_users.py:123-191 | After clearing and an accepted e-mail-layout seed, verification prints exactly one row: the e-mail, "<trust> Administrator", TRUST_ADMIN, ACTIVE. |
| Seeding.VerifySelectsSeededColumns | python_scripts/seed_admin_users.py:168-181 | Every column the verification selects is one the seeded admin row was given a value for. |
| Seeding.VerifyShowsEmailLayoutAdmin | python_scripts/seed_admin_users.py:176-187 | After seeding an e-mail-layout tenant, verification lists one user: its e-mail, "<trust> Administrator", TRUST_ADMIN, ACTIVE. |
| CheckUsers.TrustCode | python_scripts/check_users.py:139 | The trust code is never longer than the database name. |
| CheckUsers.TrustCodeOfDatabase | python_scripts/check_users.py:139 | `school_erp_trust_<code>` yields `<code>` back when the code does not contain the prefix. |
| CheckUsers.TrustCodeRemovesRepeatedPrefix | python_scripts/check_users.py:139 | `replace` removes every occurrence of the prefix, so a doubled prefix also yields the bare code. |
| CheckUsers.DemoTrustCode | python_scripts/check_users.py:238 | `school_erp_trust_demo` has the code `demo`. |
| CheckUsers.Annotated | python_scripts/check_users.py:137-140 | The row gains its database name and trust code, and every other field is unchanged. |
| CheckUsers.AnnotateTrustUsers | python_scripts/check_users.py:136-140 | Every element of the fetched array is replaced, in place, by its annotated row. |
| CheckUsers.TrustDictKeys | python_scripts/check_users.py:179 | Every trust code is a key of the dictionary. |
| CheckUsers.TrustDictLastWins | python_scripts/check_users.py:179 | The entry under a code is the last row with that code: later rows overwrite earlier ones. |
| CheckUsers.TrustDictEntries | python_scripts/check_users.py:179 | Every entry is one of the rows, filed under its own code. |
| CheckUsers.TrustDict | python_scripts/check_users.py:179 | `{trust['trust_code']: trust for trust in trusts}`. It has no contract of its own: TrustDictKeys, TrustDictLastWins and TrustDictEntries give its keys and its entries. |
| CheckUsers.TrustName | python_scripts/check_users.py:239 | The row's name when the code is known (NULL included), otherwise "Trust <code>". |
| CheckUsers.TrustNameFromRows | python_scripts/check_users.py:179-239 | Over the `Trusts` rows: "Trust <code>" iff no row has the code, otherwise the name of the last row with it. |
| CheckUsers.FullName | python_scripts/check_users.py:212 | Never empty. It is "N/A" whenever the joined text is blank; otherwise it is exactly `strip()` of the joined text. |
| CheckUsers.FullNameOfParts | python_scripts/check_users.py:212 | Both parts present and unpadded give "<first> <last>". |
| CheckUsers.FullNameMissing | python_scripts/check_users.py:212 | Both parts NULL, or an empty first name with a NULL last name, give "N/A". |
| CheckUsers.Status | python_scripts/check_users.py:213 | "Active" iff the flag is non-NULL and non-zero; otherwise "Inactive". |
| CheckUsers.Display | python_scripts/check_users.py:206-216 | The eight cells of a row. E-mail or "N/A"; full name; status. A time is "Never" iff NULL, and otherwise parses back to that time. |
| CheckUsers.BuildTable | python_scripts/check_users.py:205-216 | The `append` loop yields one displayed row per user, in order. |
| CheckUsers.DisplayAll | python_scripts/check_users.py:206-216 | One displayed row per user, in order: row `k` is the display of user `k`. |
| CheckUsers.Section | python_scripts/check_users.py:237-260 | A tenant section carries its database name, the trust name looked up by its code, and its user count. |
| CheckUsers.SectionsAt | python_scripts/check_users.py:237-241 | Section `i` is the section of tenant database `i`. |
| CheckUsers.Sections | python_scripts/check_users.py:237-241 | One section per tenant database. SectionsAt states which section each one is. |
| CheckUsers.DisplayLists | python_scripts/check_users.py:243-259 | Table `i` is the displayed rows of tenant database `i`. |
| CheckUsers.Report | python_scripts/check_users.py:196-279 | The system table, sections and tenant tables as above, and `all_trust_users` as the concatenation of the tenant lists in order. The totals are the list lengths; the grand total is system users plus all tenant users. |
| DateTimes.FormatDatetime | python_scripts/check_users.py:190-194 | "Never" iff the value is NULL. Otherwise a 19-character `YYYY-MM-DD HH:MM:SS` text that parses back to the same date-time. |
| DateTimes.Format | python_scripts/check_users.py:194 | `strftime("%Y-%m-%d %H:%M:%S")` gives a text of the 19-character layout. ParseFormat and FormatInjective show that it loses nothing. |
| DateTimes.ParseFormat | python_scripts/show_users.py:138 | Parsing the printed layout recovers the date-time. |
| DateTimes.FormatInjective | python_scripts/show_users.py:138 | Different date-times never print the same. |
| DateTimes.WholeDaysBetween | python_scripts/show_users.py:195 | `timedelta.days` is the floor of the difference in days: `d * 86400 <= diff < (d + 1) * 86400` seconds. |
| ShowUsers.LoginAttemptsShown | python_scripts/show_users.py:184 | `login_attempts or 0` is the stored count, with NULL read as 0. |
| ShowUsers.ShowTrust | python_scripts/show_users.py:150-157 | The five trust cells. `created` is "Never" iff NULL, and otherwise parses back. |
| ShowUsers.ShowSystemUser | python_scripts/show_users.py:174-186 | The nine system-user cells: full name or "N/A", the login attempts as above, and times that are "Never" iff NULL and otherwise parse back. |
| ShowUsers.ShowTrustUser | python_scripts/show_users.py:211-220 | The seven tenant-user cells, with full name or "N/A" and the same rule for times. |
| ShowUsers.ActiveUsers | python_scripts/show_users.py:193 | Exactly the system users whose status is ACTIVE, drawn from the list. |
| ShowUsers.RecentlyLoggedIn | python_scripts/show_users.py:194-195 | Exactly the users with a non-NULL last login less than 7 whole days before `now`. |
| ShowUsers.RecentMeansWithinAWeek | python_scripts/show_users.py:194-195 | Recent iff the last login is non-NULL and less than 604800 seconds before `now`; a login after `now` counts as recent. |
| ShowUsers.TallyStep | python_scripts/show_users.py:229-230 | One `role_counts[role] = role_counts.get(role, 0) + 1` keeps the dictionary an exact tally. A new role is appended to the key order. |
| ShowUsers.CountRoles | python_scripts/show_users.py:227-230 | The keys are the distinct roles in order of first appearance. Each count is that role's number of users, and the counts sum to the number of users. |
| ShowUsers.DisplayUsername | python_scripts/show_users.py:260 | The shown name contains no "@". It is a prefix of the e-mail, and is either the whole e-mail or is followed in it by "@". |
| ShowUsers.DisplayUsernameOfAddress | python_scripts/show_users.py:260 | `<name>@<domain>` shows `<name>` when the name has no "@". |
| ShowUsers.SystemUserCredential | python_scripts/show_users.py:251-254 | A system credential line shows the stored user name, e-mail and role. |
| ShowUsers.TrustCredential | python_scripts/show_users.py:256-261 | A tenant credential line shows the name derived from the e-mail, the e-mail and the role. |
| ShowUsers.Report | python_scripts/show_users.py:140-261 | The three tables (one row per input row, in order). The active and recent counts as above, the role tally as above, and the totals with their sum. Also the credential lines of both kinds. |
| ExploreDb.UserTables | python_scripts/explore_db.py:105 | Exactly the listed tables whose lower-cased name contains "user" or "admin". |
| ExploreDb.UserTablesSnoc | python_scripts/explore_db.py:140 | Filtering keeps the listing order: one more table extends the user tables by that table iff it is one. |
| ExploreDb.UserTableIgnoresCase | python_scripts/explore_db.py:105 | The match ignores case. |
| ExploreDb.UserTableByInfix | python_scripts/explore_db.py:105 | A user table is one in whose lower-cased name "user" or "admin" occurs at some position. |
| ExploreDb.NoUserTables | python_scripts/explore_db.py:159 | There are no user tables iff no listed table matches. |
| ExploreDb.SystemPlan | python_scripts/explore_db.py:109-119 | The first min(3, #user tables) user tables in order, each described and sampled 5 rows. With no user tables nothing is inspected. |
| ExploreDb.SystemPlanCoversFewUserTables | python_scripts/explore_db.py:109 | With at most three user tables, every one of them is inspected. |
| ExploreDb.TrustPlan | python_scripts/explore_db.py:139-168 | With user tables, the same plan as the system database. Without, the first min(5, #tables) tables in order, sampled 3 rows each and not described. |
| ExploreDb.TrustPlanDescribesOnlyUserTables | python_scripts/explore_db.py:141-164 | At most five inspections. An inspection describes its table iff the database has a user table, and then the table is one. |
| ExploreDb.SampleQuery | python_scripts/explore_db.py:71-80 | `SELECT * FROM <table> LIMIT <n>`, whose limit text reads back as `n` and has no leading zero; `n` is 10 unless given. |
| ExploreDb.InspectionQuery | python_scripts/explore_db.py:154-164 | The query of an inspection asks for exactly the inspection's row limit. |
| ExploreDb.Project | python_scripts/explore_db.py:113-115 | Five cells: the column's Field, Type, Null, Key and Default, in header order. |
| ExploreDb.StructureTable | python_scripts/explore_db.py:148-149 | One projected row per described column, in order. |
| ExploreDb.ProjectIgnoresOtherColumns | python_scripts/explore_db.py:113 | Columns outside the five headers, such as Extra, do not affect the printed row. |
| ExploreDb.ListingLine | python_scripts/explore_db.py:102 | `  <n>. <table>`: the number text reads back as `n` and has no leading zero, and the line ends with the table name. |
| ExploreDb.Listing | python_scripts/explore_db.py:136-137 | Line `k` carries number `k + 1` and table `k`. |
| Sequences.DistinctInOrder | python_scripts/show_users.py:227-234 | The dictionary's key order is the order of first occurrence: `FirstIndex` increases along the distinct values. |
| Sequences.CountsSumToLength | python_scripts/show_users.py:227-235 | The counts of the distinct values of a list add up to its length. |
| Sequences.FlattenLength | python_scripts/check_users.py:262-278 | The concatenation of the tenant lists is as long as all of them together. |
| Sequences.FilterAppend | python_scripts/show_users.py:193-195 | A list comprehension with a condition distributes over concatenation, so it keeps the original order. |
| Sequences.Filter | python_scripts/explore_db.py:105 | A list comprehension with a condition keeps only elements that pass, keeps every element that passes, and is no longer than its input. |
| Sequences.Distinct | python_scripts/show_users.py:227-234 | The dictionary's keys: every value once and nothing else. DistinctInOrder gives their order. |
| Sequences.AppendEach | python_scripts/show_users.py:150-157 | The `for x in xs: table.append(f(x))` loop yields exactly `[f(x) for x in xs]`. |
| Strings.ContainsFound | python_scripts/explore_db.py:105 | When Python's `sub in s` holds, `sub` occurs in `s` at some index. |
| Strings.FoundContains | python_scripts/explore_db.py:105 | When `sub` occurs in `s` at an index, `sub in s` holds. |
| Strings.ContainsIsInfix | python_scripts/explore_db.py:105 | Python's `sub in s` holds iff `sub` occurs in `s` at some index. |
| Strings.Strip | python_scripts/check_users.py:212 | `strip()` is empty iff the text is all whitespace. Otherwise it is the piece of the text that starts where its leading whitespace ends, both its ends are non-space, and everything after it is whitespace. |
| Strings.StripUnpadded | python_scripts/check_users.py:212 | `strip()` leaves text with non-space ends unchanged. |
| Strings.OrElse | python_scripts/check_users.py:212 | `x or fallback` on nullable text: the value when it is present and non-empty, the fallback otherwise. |
| Strings.Lower | python_scripts/explore_db.py:105 | `str.lower()` maps every character through LowerChar and keeps the length. |
| Strings.Contains | python_scripts/explore_db.py:105 | Python's `sub in s`. It has no contract of its own: ContainsIsInfix, ContainsFound and FoundContains show it holds iff `sub` occurs at some index. |
| Strings.RemoveAll | python_scripts/check_users.py:139 | `s.replace(pat, '')` is never longer than `s`. RemoveAllAbsent and RemoveAllLeading give its value on text without `pat` and on text that starts with `pat`. |
| Strings.RemoveAllAbsent | python_scripts/check_users.py:139 | Text without `pat` in it is left unchanged. |
| Strings.RemoveAllLeading | python_scripts/check_users.py:139 | A leading `pat` is removed, and the rest is processed on its own. |
| Strings.LastSegment | python_scripts/seed_admin_users.py:112 | `split('_')[-1]` is a suffix of the text containing no `_`, preceded by `_` when it is not the whole text. |
| Strings.BeforeFirst | python_scripts/show_users.py:260 | `split('@')[0]` is a prefix of the text containing no `@`, followed by `@` when it is not the whole text. |
| Digits.DecimalValue | python_scripts/explore_db.py:80 | `str(n)` reads back as `n`. |
| Digits.Decimal | python_scripts/explore_db.py:80 | `str(n)`: non-empty digits, with no leading zero. DecimalValue shows it reads back as `n`. |
| Digits.Pad | python_scripts/check_users.py:194 | A zero-padded `strftime` field: exactly `width` digits. PadValue shows it reads back as `n`. |
| Digits.PadValue | python_scripts/check_users.py:194 | The zero-padded fields of `strftime` read back as their values. |

## Left out

- Security.Judge: the expected result is one of three values. The chain tests only "BLOCKED" and "SUCCESS", so any other text behaves as "DEPENDS" does, and no other text is modelled.
- Database connections, cursors and the SQL server itself are not modelled, and neither are HTTP requests, sleeping, `print` or `tabulate`. Query results, server replies and printed tables are values passed in or returned.
- Errors a real server can raise beyond a missing table or an unknown column (lost connection, constraint violations) are not modelled. Neither is a failed connection, apart from the skipped database in `Seeding.SeedAll`.
- The bcrypt hash is not computed: `Seed.passwordHash` stands for whatever `hash_password` returned.
- `datetime.now()` is a parameter (`now`, `Seed.now`). The scripts call it again for every user and for the report header; the model reads one clock value for all of them, so a clock that moves during a run is not modelled. Microseconds are not modelled: `DATETIME` columns hold whole seconds, so the day count does not change.
- DateTimes.Valid bounds the day by 31 in every month; month lengths are not checked, because the formatting and the day count do not depend on them.
- Security.Status: the printed percentage `(passed/total)*100` is floating point and is not modelled; only the comparison with 80 % is.
- Strings.Lower and Strings.IsSpace cover ASCII only: Unicode case mapping and Unicode whitespace are not modelled.
- The `LIKE` patterns of `get_trust_databases` and `SHOW TABLES LIKE 'Users'` run on the server; their results are inputs here.
- ShowUsers.TrustCredential: a NULL tenant e-mail would make `'@' in user['email']` raise. The model types the tenant e-mail as non-NULL text, so that crash is not modelled.
- Seeding.SeedAll: the `KeyboardInterrupt`/`Exception` handlers around `main` are not modelled.
- The bare `except` around probe 4.1 in `test_security.py` can only catch what `test_request` does not, such as a keyboard interrupt, so it is not modelled.
- `test_auth.py` and `test_simple_auth.py` are ad-hoc login scripts whose only logic is printing the server's reply. They are not part of this model.
- The `ORDER BY` clauses run on the server: the models take rows in the order they arrive.
