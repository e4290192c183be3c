# Migration engine core, modelled in Dafny

This project models four pieces of the Prisma migration engine and proves what they promise.

- **The Microsoft SQL Server DDL renderer.** It turns migration steps into T-SQL text: the
  column type table, default values, string literals, columns, foreign keys, ALTER TABLE,
  CREATE INDEX, CREATE TABLE, drops and renames. String-literal escaping is paired with an
  independent reader of quoted literals. The reader follows ISO/IEC 9075-2, section 5.3
  (`<character string literal>`): a doubled quote stands for one quote. A string default on a
  String or Json column, and an enum default on an Enum column, is proved to read back as the
  value it came from; defaults on other column families take the source's other arms.
- **The Postgres native-type column calculator.** It maps a native type to its type name, a
  field arity to a column arity, and data-model enums to database enums. The type-name table is
  paired with a parser of type names, and the round trip proves that every handled type gets a
  distinct name carrying its parameters.
- **The SQLite destructive-change check for an altered column.** The check plan is a class
  whose two lists the check only appends to. The entries appended are specified by two functions
  of the column diff.
- **The migrations folder.** Folder names are `{timestamp}_{name}`. The directory is a class
  whose entry list `create_migration_folder` extends. `list_migrations` keeps the
  sub-directories and sorts them by migration id. Applied migrations are matched by name, and the
  script path is derived from the folder.

Files: `wrappers.dfy` (Option, Result), `text.dfy` (joining, replacement, decimal digits, the
order Rust uses on `str`), `sql_schema.dfy` (the describer's schema types), `sql_string_literal.dfy`,
`mssql_renderer.dfy`, `postgres_calculator.dfy`, `sqlite_checker.dfy`, `migrations_folder.dfy`.

Inputs that are not modelled become parameters:

- the helpers the renderer calls but does not define are function-valued fields of
  `MssqlRenderer.Helpers`, and nothing is assumed about them;
- the clock reading is a `DateTime` argument;
- the directory's contents are a `MigrationsDirectory` object;
- the deserialized `PostgresType` and the differ's `type_changed` / `arity_changed` are plain
  inputs.

Panics (`todo!`, `unreachable!`, `unimplemented!`, `unwrap` on `None`) become preconditions.

## Model

| member | source | states |
|---|---|---|
| SqlStringLiteral.EscapeLength | migration-engine/connectors/sql-migration-connector/src/sql_renderer/mssql_renderer.rs:324-326 | `Escape`, the model of `escape_string_literal`, adds exactly one character per single quote in the input |
| SqlStringLiteral.ReadBodyEscape | migration-engine/connectors/sql-migration-connector/src/sql_renderer/mssql_renderer.rs:324-326 | reading an escaped body up to its closing quote gives back the original text and leaves what follows the quote untouched |
| SqlStringLiteral.LiteralRoundTrip | migration-engine/connectors/sql-migration-connector/src/sql_renderer/mssql_renderer.rs:324-326 | `'` + `Escape(s)` + `'` reads back, under the ISO/IEC 9075-2 literal rules, as exactly `s`, for every `s` |
| MssqlRenderer.RenderDefault | migration-engine/connectors/sql-migration-connector/src/sql_renderer/mssql_renderer.rs:126-143 | a DBGENERATED default is kept verbatim and a SEQUENCE default renders as nothing; NOW is `CURRENT_TIMESTAMP` and only allowed on DateTime; a string on String/Json or an enum on Enum reads back as its value; booleans on Boolean are `1`/`0`; values on DateTime are quoted |
| MssqlRenderer.JsonDefaultAsWrittenDoesNotReadBack | migration-engine/connectors/sql-migration-connector/src/sql_renderer/mssql_renderer.rs:136 | `JsonDefaultAsWritten`, the unescaped Json arm as written, turns `it's` into a literal that does not read back as `it's`; the corrected renderer's literal does |
| MssqlRenderer.TypeNameDeterminesFamily | migration-engine/connectors/sql-migration-connector/src/sql_renderer/mssql_renderer.rs:80-87 | `MssqlTypeName`, the type table (bit, datetime2, decimal(32,16), int, nvarchar(1000)), is one-to-one except that String and Json share nvarchar(1000) |
| MssqlRenderer.DefaultClause | migration-engine/connectors/sql-migration-connector/src/sql_renderer/mssql_renderer.rs:91-95 | the DEFAULT clause is empty exactly when there is no default or the default is database-generated; otherwise it is `DEFAULT` and the rendered default |
| MssqlRenderer.RenderColumn | migration-engine/connectors/sql-migration-connector/src/sql_renderer/mssql_renderer.rs:77-102 | an autoincrement column is `<name> int IDENTITY(1,1)`; any other column starts with its name and type and ends with its default clause |
| MssqlRenderer.IdentityColumnIgnoresTypeAndDefault | migration-engine/connectors/sql-migration-connector/src/sql_renderer/mssql_renderer.rs:97-98 | two autoincrement columns of the same name render identically whatever their family, arity or default |
| MssqlRenderer.DbGeneratedDefaultIsOmitted | migration-engine/connectors/sql-migration-connector/src/sql_renderer/mssql_renderer.rs:91-95 | a column with a DBGENERATED default renders as the same column without a default |
| MssqlRenderer.RenderReferences | migration-engine/connectors/sql-migration-connector/src/sql_renderer/mssql_renderer.rs:104-124 | a self-relation ends with `ON DELETE NO ACTION ON UPDATE NO ACTION`; any other relation ends with its declared actions |
| MssqlRenderer.SelfRelationIgnoresActions | migration-engine/connectors/sql-migration-connector/src/sql_renderer/mssql_renderer.rs:106-115 | for a self-relation, changing the declared delete and update actions does not change the rendered text |
| MssqlRenderer.RenderAddForeignKey | migration-engine/connectors/sql-migration-connector/src/sql_renderer/mssql_renderer.rs:292-317 | the successive appends build prefix, constraint name, column list and references, in that order; `CONSTRAINT ` follows `ALTER TABLE <t> ADD ` exactly when the key has a name |
| MssqlRenderer.RenderDropForeignKey | migration-engine/connectors/sql-migration-connector/src/sql_renderer/mssql_renderer.rs:262-268 | the statement drops the quoted constraint from the schema-qualified table |
| MssqlRenderer.RenderTableChange | migration-engine/connectors/sql-migration-connector/src/sql_renderer/mssql_renderer.rs:36-59 | each clause opens with the keyword of its kind of change (`DROP CONSTRAINT `, `ADD PRIMARY KEY (`, `ADD COLUMN `, `DROP COLUMN `) followed by the quoted constraint or column name, the quoted primary-key columns and `)`, or the rendered column |
| MssqlRenderer.ClauseIdentifiesChange | migration-engine/connectors/sql-migration-connector/src/sql_renderer/mssql_renderer.rs:36-59 | no clause opens with the keyword of a different kind of change, so each clause tells which change it renders |
| MssqlRenderer.RenderAlterTable | migration-engine/connectors/sql-migration-connector/src/sql_renderer/mssql_renderer.rs:30-71 | no changes give no statement; otherwise exactly one ALTER TABLE statement with the clauses joined by `,\n` in input order; AlterColumn and an unnamed dropped primary key are excluded |
| MssqlRenderer.IndexIdentifier | migration-engine/connectors/sql-migration-connector/src/sql_renderer/mssql_renderer.rs:183 | the index name keeps its length, loses every `.`, and each `.` becomes `_` while other characters stay in place |
| MssqlRenderer.WhereClause | migration-engine/connectors/sql-migration-connector/src/sql_renderer/mssql_renderer.rs:187-198 | the filter starts with ` WHERE ` and is never empty; its last character is never `)` |
| MssqlRenderer.WhereClauseSplits | migration-engine/connectors/sql-migration-connector/src/sql_renderer/mssql_renderer.rs:187-195 | the filter reads back: splitting what follows ` WHERE ` on ` AND ` gives one `<quoted column> IS NOT NULL` per index column, in order (the conjuncts, built by `NotNullConjuncts`, holding no ` AND ` themselves) |
| MssqlRenderer.RenderCreateIndex | migration-engine/connectors/sql-migration-connector/src/sql_renderer/mssql_renderer.rs:170-210 | the statement starts with `CREATE UNIQUE INDEX ` exactly for a unique index; it ends with the IS NOT NULL filter exactly for a unique index over nullable columns; the head carries the dot-free index name |
| MssqlRenderer.RenderDropIndex | migration-engine/connectors/sql-migration-connector/src/sql_renderer/mssql_renderer.rs:270-276 | `DROP INDEX` on the schema-qualified index name, `ON` the schema-qualified table |
| MssqlRenderer.RenderAlterIndex | migration-engine/connectors/sql-migration-connector/src/sql_renderer/mssql_renderer.rs:145-164 | exactly one `EXEC SP_RENAME` statement, ending with the `N'INDEX'` object type |
| MssqlRenderer.InlineUniqueIndexes | migration-engine/connectors/sql-migration-connector/src/sql_renderer/mssql_renderer.rs:228-231 | an index is written as an inline constraint exactly when it is unique and has no nullable column |
| MssqlRenderer.UniqueConstraintsClause | migration-engine/connectors/sql-migration-connector/src/sql_renderer/mssql_renderer.rs:233-247 | the inline UNIQUE constraints part is empty exactly when no index qualifies |
| MssqlRenderer.PrimaryKeyClause | migration-engine/connectors/sql-migration-connector/src/sql_renderer/mssql_renderer.rs:215-224 | the `CONSTRAINT PK_<table>_<cols joined by _> PRIMARY KEY` clause appears exactly when the primary key is non-empty |
| MssqlRenderer.RenderCreateTable | migration-engine/connectors/sql-migration-connector/src/sql_renderer/mssql_renderer.rs:212-256 | `CREATE TABLE <t> (` and the columns come first; the primary-key clause, the inline constraints and `)` come last |
| MssqlRenderer.RenderDropTable | migration-engine/connectors/sql-migration-connector/src/sql_renderer/mssql_renderer.rs:319-321 | exactly one `DROP TABLE` statement, ending with the schema-qualified table |
| MssqlRenderer.DropTableDistinguishesTables | migration-engine/connectors/sql-migration-connector/src/sql_renderer/mssql_renderer.rs:319-321 | with an injective schema quoting, different tables get different DROP TABLE statements |
| MssqlRenderer.RenderRenameTable | migration-engine/connectors/sql-migration-connector/src/sql_renderer/mssql_renderer.rs:282-290 | `SP_RENAME` on the single-quoted `schema.name`, to the single-quoted new name |
| PostgresSchemaCalculator.ParseDataTypeName | migration-engine/connectors/sql-migration-connector/src/sql_schema_calculator/sql_schema_calculator_flavour/postgres.rs:27-59 | every handled native type is recovered by the parser from its `DataTypeName`, parameters included (`DECIMAL(p, s)`, `VARCHAR(n)`, `TIMESTAMP(p) WITH TIME ZONE`, ...) |
| PostgresSchemaCalculator.DataTypeNameInjective | migration-engine/connectors/sql-migration-connector/src/sql_schema_calculator/sql_schema_calculator_flavour/postgres.rs:27-59 | distinct handled native types get distinct type names |
| PostgresSchemaCalculator.ColumnArityOf | migration-engine/connectors/sql-migration-connector/src/sql_schema_calculator/sql_schema_calculator_flavour/postgres.rs:66-70 | Required maps to Required, Optional to Nullable and List to List, each both ways, so the mapping is one-to-one and onto |
| PostgresSchemaCalculator.ColumnTypeForNativeType | migration-engine/connectors/sql-migration-connector/src/sql_schema_calculator/sql_schema_calculator_flavour/postgres.rs:20-73 | data type equals full data type; family is String; no character length; arity follows the field; native type copied; the type name identifies the native type; NotHandled is excluded |
| PostgresSchemaCalculator.DatabaseValues | migration-engine/connectors/sql-migration-connector/src/sql_schema_calculator/sql_schema_calculator_flavour/postgres.rs:15 | one database value per enum value, in order, each its final database name |
| PostgresSchemaCalculator.CalculateEnums | migration-engine/connectors/sql-migration-connector/src/sql_schema_calculator/sql_schema_calculator_flavour/postgres.rs:9-18 | one database enum per data-model enum, in the same order, named by its final database name and holding its database values |
| PostgresSchemaCalculator.UnmappedEnumsKeepModelNames | migration-engine/connectors/sql-migration-connector/src/sql_schema_calculator/sql_schema_calculator_flavour/postgres.rs:9-18 | without any mapped names, database enums carry the model's enum and value names unchanged |
| SqliteDestructiveChangeChecker.ArityChangeIsSafe | migration-engine/connectors/sql-migration-connector/src/sql_destructive_change_checker/destructive_change_checker_flavour/sqlite.rs:14-23 | nullable to required is the only unsafe arity change; list arities are excluded |
| SqliteDestructiveChangeChecker.UnexecutableFindings | migration-engine/connectors/sql-migration-connector/src/sql_destructive_change_checker/destructive_change_checker_flavour/sqlite.rs:25-40 | at most one entry; there is one exactly when the check does not return early and the column was made required without a default; it names the previous table and column at the step index |
| SqliteDestructiveChangeChecker.WarningFindings | migration-engine/connectors/sql-migration-connector/src/sql_destructive_change_checker/destructive_change_checker_flavour/sqlite.rs:25-48 | at most one entry; there is one exactly when the check does not return early; it names the previous table and the next column at the step index |
| SqliteDestructiveChangeChecker.CheckAlterColumn | migration-engine/connectors/sql-migration-connector/src/sql_destructive_change_checker/destructive_change_checker_flavour/sqlite.rs:13-49 | the plan's lists become their old contents followed by exactly those findings, so nothing already in the plan is removed or reordered |
| SqliteDestructiveChangeChecker.DestructiveCheckPlan.PushUnexecutable | migration-engine/connectors/sql-migration-connector/src/sql_destructive_change_checker/destructive_change_checker_flavour/sqlite.rs:33-39 | one entry appended to the unexecutable list; the warnings are unchanged |
| SqliteDestructiveChangeChecker.DestructiveCheckPlan.PushWarning | migration-engine/connectors/sql-migration-connector/src/sql_destructive_change_checker/destructive_change_checker_flavour/sqlite.rs:42-48 | one entry appended to the warnings; the unexecutable list is unchanged |
| SqliteDestructiveChangeChecker.UnexecutableImpliesWarning | migration-engine/connectors/sql-migration-connector/src/sql_destructive_change_checker/destructive_change_checker_flavour/sqlite.rs:29-48 | an unexecutable finding always comes with a warning for the same step |
| SqliteDestructiveChangeChecker.TypeChangeOnlyWarns | migration-engine/connectors/sql-migration-connector/src/sql_destructive_change_checker/destructive_change_checker_flavour/sqlite.rs:25-48 | a type change with unchanged arity yields one warning and no unexecutable entry |
| SqliteDestructiveChangeChecker.UnexecutableMeansMadeRequired | migration-engine/connectors/sql-migration-connector/src/sql_destructive_change_checker/destructive_change_checker_flavour/sqlite.rs:14-40 | when the arity flag matches the arities, an unexecutable finding means nullable became required without a default |
| SqliteDestructiveChangeChecker.MadeRequiredIsUnexecutable | migration-engine/connectors/sql-migration-connector/src/sql_destructive_change_checker/destructive_change_checker_flavour/sqlite.rs:29-40 | making a nullable column required without a default is always unexecutable |
| MigrationsFolder.TimestampAsWritten | migration-engine/core/src/migrations_folder.rs:23 | the timestamp as the source formats it is 12 decimal digits: zero-padded year (4), month, day, minute and second (2 each), in that order |
| MigrationsFolder.TimestampAsWrittenIgnoresHour | migration-engine/core/src/migrations_folder.rs:23 | two clock readings that differ only in the hour get the same as-written timestamp |
| MigrationsFolder.TimestampAsWrittenIsNotChronological | migration-engine/core/src/migrations_folder.rs:23 | with the hour left out of the format, 10:59 gets id prefix `202001015900` and 11:01 the same day gets `202001010100`, which sorts first |
| MigrationsFolder.MigrationTimestamp | migration-engine/core/src/migrations_folder.rs:23 | the corrected timestamp is 14 decimal digits: zero-padded year (4), month, day, hour, minute and second (2 each), in that order |
| MigrationsFolder.TimestampOrderIsChronological | migration-engine/core/src/migrations_folder.rs:46 | for well-formed clock readings, an earlier reading gives a smaller timestamp string |
| MigrationsFolder.FolderName | migration-engine/core/src/migrations_folder.rs:24-28 | the folder name is the timestamp, `_`, then the migration name unchanged |
| MigrationsFolder.FolderNamesSortChronologically | migration-engine/core/src/migrations_folder.rs:46-58 | folders created earlier sort before folders created later, whatever the migration names |
| MigrationsFolder.MigrationsDirectory.constructor | migration-engine/core/src/migrations_folder.rs:47-56 | the directory as reading it lists its entries, whose names are unique, so it starts out valid |
| MigrationsFolder.CreateMigrationFolder | migration-engine/core/src/migrations_folder.rs:19-44 | an existing entry of that name gives AlreadyExists with the folder path and leaves the directory unchanged; otherwise exactly one directory entry of that name is added, the folder's path is the directory path plus that name, and entry names stay unique |
| MigrationsFolder.CreatedFolderMatches | migration-engine/core/src/migrations_folder.rs:69-80 | a created folder's `MigrationId` is its folder name, so `MatchesAppliedMigration` holds exactly for the applied migration of that name |
| MigrationsFolder.DirectoryFolders | migration-engine/core/src/migrations_folder.rs:50-56 | a folder is listed exactly when it is the path of a directory entry; files are skipped |
| MigrationsFolder.DirectoryFoldersDistinct | migration-engine/core/src/migrations_folder.rs:50-56 | unique entry names give the listed folders distinct migration ids |
| MigrationsFolder.Insert | migration-engine/core/src/migrations_folder.rs:58 | one sorting step: the result holds the old elements plus the new one, and stays ordered by id (strictly, when the new id is not already present) |
| MigrationsFolder.SortById | migration-engine/core/src/migrations_folder.rs:58 | the result is a permutation of the input, ordered by migration id, strictly when the ids are distinct |
| MigrationsFolder.ListMigrations | migration-engine/core/src/migrations_folder.rs:47-61 | the result is a permutation of the directory's sub-folders, in strictly increasing migration-id order |
| MigrationsFolder.ListedFoldersAreDirectories | migration-engine/core/src/migrations_folder.rs:50-56 | a folder is in the listing exactly when it is a sub-directory of the migrations directory |
| MigrationsFolder.AtMostOneMatch | migration-engine/core/src/migrations_folder.rs:78-80 | among folders with distinct `MigrationId`s, `MatchesAppliedMigration` holds for at most one of them against a given applied migration |
| MigrationsFolder.ScriptPath | migration-engine/core/src/migrations_folder.rs:83-86 | the script sits directly in the folder; its name starts with `migration`; it is `migration` alone for an empty extension, else `migration.<extension>` |

## Left out

- Filesystem and clock effects. `read_dir` and `create_dir` failures (permissions, a missing parent) are not modelled, and neither is the I/O error of a failing entry. Writing the script file is not modelled beyond its path.
- Where a newly created folder appears in the directory's listing order is a modelling choice (appended); `list_migrations` sorts, so the result does not depend on it.
- `read_migration_script` is not modelled: it reads the folder path rather than the script file.
- MigrationsFolder.MigrationTimestamp: requires a year below 10000, so a four-digit year; the wider years that `%Y` also prints are not modelled.
- MigrationsFolder.CreateMigrationFolder: a migration name containing a path separator would create a nested path; names are taken as single path components.
- MigrationsFolder.SortById: the library's stable `sort_by` is modelled as an insertion sort on a sequence value rather than an in-place sort. Stability is not stated; the listed ids are distinct, so the order is fully determined.
- `MigrationFolder::migration_id` panics when the path has no final component or is not UTF-8. Folder paths here always have a final component, and strings are always valid text.
- The renderer's helpers are uninterpreted parameters: `Quoted::mssql_ident`, `QuotedWithSchema`, `Quoted::Single`, `schema_name()`, `common::render_nullability` and `common::render_on_delete` / `render_on_update`. Properties that depend on their output, such as injectivity, take it as a precondition.
- `PrismaValue`'s `Display` is modelled only for strings, enum values and booleans; every other value (numbers, floats, dates, lists) carries its printed text as an opaque string.
- MssqlRenderer.RenderColumn: the nullability keyword between type and default is not pinned down, because it comes from an uninterpreted helper.
- MssqlRenderer.WhereClauseSplits: the read-back is proved for conjuncts that do not themselves contain ` AND ` (a quoted column name holding ` AND ` makes the filter text ambiguous); the filter is always built as stated by `NotNullConjuncts` either way.
- MssqlRenderer.RenderAlterIndex: states the statement's frame (`EXEC SP_RENAME N` ... `, N'INDEX'`) but not the double `Quoted::Single` wrapping inside it, which depends on that helper's output.
- `render_alter_enum`, `render_create_enum`, `render_drop_enum` and `render_redefine_tables` only panic on SQL Server and are not modelled. `quote` and `quote_with_schema` are the `Helpers` fields.
- PostgresSchemaCalculator.ColumnTypeForNativeType: the native type's parameters are unbounded naturals; the source's fixed-width unsigned integers print the same way for every value they can hold.
- The enum walker accessors (`enums()`, `final_database_name()`, `database_values()`) are modelled from their names: the mapped name when present, otherwise the model name.
- `destructive_check_plan.rs` is not part of this model. Its `push_unexecutable` and `push_warning` are modelled as appends of the check and its step index.
- `ColumnDiffer::all_changes()` is not modelled: `type_changed` and `arity_changed` are inputs.

## Findings

| source | as written | input that shows it | evidently intended | confidence | as-written member | corrected member |
|---|---|---|---|---|---|---|
| migration-engine/core/src/migrations_folder.rs:23 | the folder timestamp uses the format `%Y%m%d%M%S`, which has no hour | a migration created on 2020-01-01 at 10:59:00 gets id prefix `202001015900`; one created at 11:01:00 the same day gets `202001010100` and is listed first | `%Y%m%d%H%M%S`, so that listing by id is listing by creation time, as the comment on `list_migrations` (line 46) says | high; not executed | MigrationsFolder.TimestampAsWrittenIsNotChronological | MigrationsFolder.TimestampOrderIsChronological |
| migration-engine/connectors/sql-migration-connector/src/sql_renderer/mssql_renderer.rs:136 | a string default on a Json column is put between single quotes without `escape_string_literal` | the default `it's` renders as `'it's'`, a literal that ends after `it` | the value escaped like the String arm on line 131, rendering `'it''s'` | medium; not executed | MssqlRenderer.JsonDefaultAsWrittenDoesNotReadBack | MssqlRenderer.RenderDefault |
