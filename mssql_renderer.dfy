/** The Microsoft SQL Server DDL renderer: migration steps to T-SQL text.

    Identifier quoting, the schema-qualified table reference, single-quoted strings, the
    nullability keyword and the ON DELETE / ON UPDATE clauses are rendered by helpers that live
    outside the renderer; they are taken here as the function-valued fields of `Helpers`, about
    which nothing is assumed. */
module MssqlRenderer {
  import opened Wrappers
  import opened Text
  import opened SqlSchema
  import SqlStringLiteral

  datatype Helpers = Helpers(
    quote: string -> string,              // Quoted::mssql_ident
    quoteWithSchema: string -> string,    // QuotedWithSchema with the flavour's schema name
    quoteSingle: string -> string,        // Quoted::Single
    schemaName: string,                   // the flavour's schema_name()
    nullability: ColumnArity -> string,   // common::render_nullability
    onDelete: ForeignKeyAction -> string, // common::render_on_delete
    onUpdate: ForeignKeyAction -> string) // common::render_on_update

  // ---- the migration steps this renderer reads ----

  datatype TableChange =
    | DropPrimaryKey(constraintName: Option<string>)
    | AddPrimaryKey(columns: seq<string>)
    | AddColumn(column: Column)
    | DropColumn(name: string)
    | AlterColumn(name: string)

  datatype AlterTable = AlterTable(table: string, changes: seq<TableChange>)

  datatype CreateIndex = CreateIndex(
    table: string,
    index: Index,
    causedByCreateTable: bool,
    containsNullableColumns: bool)

  datatype AddForeignKey = AddForeignKey(table: string, foreignKey: ForeignKey)

  datatype DropIndex = DropIndex(table: string, name: string)

  datatype DropForeignKey = DropForeignKey(table: string, constraintName: string)

  datatype AlterIndex = AlterIndex(table: string, indexName: string, indexNewName: string)

  /** Each name passed through `quote`, in order. */
  function QuoteEach(quote: string -> string, names: seq<string>): (r: seq<string>)
    ensures |r| == |names|
  {
    seq(|names|, i requires 0 <= i < |names| => quote(names[i]))
  }

  // ---- default values ----

  /** `NOW` is only rendered for DateTime columns; the renderer panics on any other family. */
  predicate DefaultRenderable(d: DefaultValue, family: ColumnTypeFamily) {
    d.Now? ==> family.DateTime?
  }

  /** The defaults written as an escaped, single-quoted literal: a string on a String or Json
      column, an enum value on an Enum column. */
  predicate IsStringLiteralDefault(v: PrismaValue, family: ColumnTypeFamily) {
    (v.StringValue? && (family.String? || family.Json?)) || (v.EnumValue? && family.Enum?)
  }

  /** `render_default`. A string or enum literal always reads back as the value it came from;
      booleans are `1` / `0`; `NOW` is `CURRENT_TIMESTAMP`; a database-generated expression is
      kept verbatim; a sequence renders as nothing. The Json arm escapes its string like the
      String arm does (see the Findings in the README and `JsonDefaultAsWritten`). */
  function RenderDefault(d: DefaultValue, family: ColumnTypeFamily): (r: string)
    requires DefaultRenderable(d, family)
    ensures d.DbGenerated? ==> r == d.expression
    ensures d.Sequence? ==> r == ""
    ensures d.Now? ==> r == "CURRENT_TIMESTAMP"
    ensures d.Value? && IsStringLiteralDefault(d.value, family) ==>
              SqlStringLiteral.ReadLiteral(r) == Some(d.value.text)
    ensures d.Value? && d.value.BooleanValue? && family.Boolean? ==>
              r == (if d.value.b then "1" else "0")
    ensures d.Value? && family.DateTime? ==> r == "'" + Display(d.value) + "'"
  {
    match d
    case DbGenerated(expression) => expression
    case Now => "CURRENT_TIMESTAMP"
    case Sequence(_) => ""
    case Value(v) =>
      if IsStringLiteralDefault(v, family) then
        SqlStringLiteral.LiteralRoundTrip(v.text);
        SqlStringLiteral.QuotedLiteral(v.text)
      else if family.DateTime? then "'" + Display(v) + "'"
      else if v.BooleanValue? && family.Boolean? then (if v.b then "1" else "0")
      else Display(v)
  }

  /** The Json arm of `render_default` as the source writes it: the string is put between
      quotes without escaping. */
  function JsonDefaultAsWritten(text: string): string {
    "'" + text + "'"
  }

  /** A Json default containing a quote does not read back as itself when written unescaped:
      the literal ends at the value's own quote. The corrected `RenderDefault` reads back. */
  lemma JsonDefaultAsWrittenDoesNotReadBack()
    ensures SqlStringLiteral.ReadLiteral(JsonDefaultAsWritten("it's")) != Some("it's")
    ensures SqlStringLiteral.ReadLiteral(RenderDefault(Value(StringValue("it's")), Json)) == Some("it's")
  {
    var t1, t2, t3 := "it's'", "t's'", "'s'";
    assert JsonDefaultAsWritten("it's")[1..] == t1;
    assert t3[1..] == "s'" && t3[0] == '\'' && t3[1] != '\'';
    assert SqlStringLiteral.ReadBody(t3) == Some(("", "s'"));
    assert t2[1..] == t3 && t2[0] != '\'';
    assert SqlStringLiteral.ReadBody(t2) == Some(([t2[0]] + "", "s'"));
    assert t1[1..] == t2 && t1[0] != '\'';
    assert SqlStringLiteral.ReadBody(t1) == Some(([t1[0]] + ([t2[0]] + ""), "s'"));
  }

  // ---- columns ----

  /** The families the column renderer has a type for; any other family panics. */
  predicate TypeHandled(family: ColumnTypeFamily) {
    family.Boolean? || family.DateTime? || family.Float? || family.Int? || family.String? || family.Json?
  }

  /** The type table of `render_column`. */
  function MssqlTypeName(family: ColumnTypeFamily): string
    requires TypeHandled(family)
  {
    match family
    case Boolean => "bit"
    case DateTime => "datetime2"
    case Float => "decimal(32,16)"
    case Int => "int"
    case String => "nvarchar(1000)"
    case Json => "nvarchar(1000)"
  }

  /** The table is one-to-one except that String and Json share `nvarchar(1000)`. */
  lemma TypeNameDeterminesFamily(a: ColumnTypeFamily, b: ColumnTypeFamily)
    requires TypeHandled(a) && TypeHandled(b) && MssqlTypeName(a) == MssqlTypeName(b)
    ensures a == b || ((a.String? || a.Json?) && (b.String? || b.Json?))
  {
  }

  /** A column renders when its family has a type and a `NOW` default sits on a DateTime
      column. Both are checked before the autoincrement test, so they bind identity columns too. */
  predicate ColumnRenderable(c: Column) {
    && TypeHandled(c.tpe.family)
    && (c.default.Some? ==> DefaultRenderable(c.default.value, c.tpe.family))
  }

  /** The `DEFAULT ...` part of a column: empty without a default and for a database-generated one. */
  function DefaultClause(c: Column): (r: string)
    requires c.default.Some? ==> DefaultRenderable(c.default.value, c.tpe.family)
    ensures r == "" <==> (c.default.None? || c.default.value.DbGenerated?)
    ensures r != "" ==> r == "DEFAULT " + RenderDefault(c.default.value, c.tpe.family)
  {
    if c.default.Some? && !c.default.value.DbGenerated? then
      "DEFAULT " + RenderDefault(c.default.value, c.tpe.family)
    else ""
  }

  /** `render_column`: an identity column is `<name> int IDENTITY(1,1)`; any other column is its
      name, its type, its nullability and its default clause, separated by spaces. */
  function RenderColumn(h: Helpers, c: Column): (r: string)
    requires ColumnRenderable(c)
    ensures c.autoIncrement ==> r == h.quote(c.name) + " int IDENTITY(1,1)"
    ensures !c.autoIncrement ==>
              StartsWith(r, h.quote(c.name) + " " + MssqlTypeName(c.tpe.family) + " ")
              && EndsWith(r, " " + DefaultClause(c))
  {
    var name := h.quote(c.name);
    if c.autoIncrement then name + " int IDENTITY(1,1)"
    else
      var r := name + " " + MssqlTypeName(c.tpe.family) + " " + h.nullability(c.tpe.arity) + " " + DefaultClause(c);
      assert r == (name + " " + MssqlTypeName(c.tpe.family) + " ") + h.nullability(c.tpe.arity) + (" " + DefaultClause(c));
      r
  }

  /** An autoincrement column renders the same whatever its family, arity or default. */
  lemma IdentityColumnIgnoresTypeAndDefault(h: Helpers, c: Column, d: Column)
    requires ColumnRenderable(c) && ColumnRenderable(d)
    requires c.autoIncrement && d.autoIncrement && c.name == d.name
    ensures RenderColumn(h, c) == RenderColumn(h, d)
  {
  }

  /** A database-generated default is left out: the column renders as if it had no default. */
  lemma DbGeneratedDefaultIsOmitted(h: Helpers, c: Column)
    requires ColumnRenderable(c) && c.default.Some? && c.default.value.DbGenerated?
    ensures RenderColumn(h, c) == RenderColumn(h, c.(default := None))
  {
  }

  // ---- foreign keys ----

  /** `render_references`: a self-relation always gets NO ACTION for both actions (SQL Server
      refuses cascading paths that loop); other relations render their declared actions. */
  function RenderReferences(h: Helpers, table: string, fk: ForeignKey): (r: string)
    ensures table == fk.referencedTable ==> EndsWith(r, " ON DELETE NO ACTION ON UPDATE NO ACTION")
    ensures table != fk.referencedTable ==>
              EndsWith(r, " " + h.onDelete(fk.onDeleteAction) + " " + h.onUpdate(fk.onUpdateAction))
  {
    var cols := Join(QuoteEach(h.quote, fk.referencedColumns), ",");
    var head := " REFERENCES " + h.quoteWithSchema(fk.referencedTable) + "(" + cols + ")";
    var tail :=
      if table == fk.referencedTable then " ON DELETE NO ACTION ON UPDATE NO ACTION"
      else " " + h.onDelete(fk.onDeleteAction) + " " + h.onUpdate(fk.onUpdateAction);
    PrefixAndSuffix(head, tail);
    head + tail
  }

  /** For a self-relation the declared actions make no difference. */
  lemma SelfRelationIgnoresActions(h: Helpers, table: string, fk: ForeignKey,
                                   onDelete: ForeignKeyAction, onUpdate: ForeignKeyAction)
    requires table == fk.referencedTable
    ensures RenderReferences(h, table, fk)
         == RenderReferences(h, table, fk.(onDeleteAction := onDelete, onUpdateAction := onUpdate))
  {
  }

  function AddForeignKeyPrefix(h: Helpers, table: string): string {
    "ALTER TABLE " + h.quoteWithSchema(table) + " ADD "
  }

  function ConstraintNamePart(h: Helpers, fk: ForeignKey): string {
    if fk.constraintName.Some? then "CONSTRAINT " + h.quote(fk.constraintName.value) + " " else ""
  }

  function ForeignKeyColumnsClause(h: Helpers, fk: ForeignKey): string {
    "FOREIGN KEY (" + Join(QuoteEach(h.quote, fk.columns), ", ") + ")"
  }

  /** `render_add_foreign_key`, built by successive appends as the source does. Right after
      `ALTER TABLE <table> ADD ` comes `CONSTRAINT <name> ` exactly when the key is named. */
  method RenderAddForeignKey(h: Helpers, afk: AddForeignKey) returns (s: string)
    ensures s == AddForeignKeyPrefix(h, afk.table) + ConstraintNamePart(h, afk.foreignKey)
                 + ForeignKeyColumnsClause(h, afk.foreignKey) + RenderReferences(h, afk.table, afk.foreignKey)
    ensures (StartsWith(s[|AddForeignKeyPrefix(h, afk.table)|..], "CONSTRAINT ")
             <==> afk.foreignKey.constraintName.Some?)
  {
    var fk := afk.foreignKey;
    s := "ALTER TABLE " + h.quoteWithSchema(afk.table) + " ADD ";
    if fk.constraintName.Some? {
      s := s + ("CONSTRAINT " + h.quote(fk.constraintName.value) + " ");
    }
    assert s == AddForeignKeyPrefix(h, afk.table) + ConstraintNamePart(h, fk);
    s := s + ("FOREIGN KEY (" + Join(QuoteEach(h.quote, fk.columns), ", ") + ")");
    assert s == AddForeignKeyPrefix(h, afk.table) + ConstraintNamePart(h, fk) + ForeignKeyColumnsClause(h, fk);
    s := s + RenderReferences(h, afk.table, fk);
    ConstraintPartLeads(h, afk);
  }

  lemma ConstraintPartLeads(h: Helpers, afk: AddForeignKey)
    ensures var s := AddForeignKeyPrefix(h, afk.table) + ConstraintNamePart(h, afk.foreignKey)
                     + ForeignKeyColumnsClause(h, afk.foreignKey) + RenderReferences(h, afk.table, afk.foreignKey);
            (StartsWith(s[|AddForeignKeyPrefix(h, afk.table)|..], "CONSTRAINT ")
             <==> afk.foreignKey.constraintName.Some?)
  {
    var fk := afk.foreignKey;
    var columns := ForeignKeyColumnsClause(h, fk);
    assert columns[0] == 'F';
    LeadingKeyword(AddForeignKeyPrefix(h, afk.table), ConstraintNamePart(h, fk), columns,
                   RenderReferences(h, afk.table, fk), if fk.constraintName.Some? then h.quote(fk.constraintName.value) + " " else "");
  }

  lemma LeadingKeyword(prefix: string, part: string, columns: string, references: string, name: string)
    requires part == "" || part == "CONSTRAINT " + name
    requires |columns| > 0 && columns[0] == 'F'
    ensures var s := prefix + part + columns + references;
            StartsWith(s[|prefix|..], "CONSTRAINT ") <==> part != ""
  {
    var s := prefix + part + columns + references;
    var rest := part + columns + references;
    assert s == prefix + rest;
    assert s[|prefix|..] == rest;
    if part != "" {
      assert rest == "CONSTRAINT " + (name + columns + references);
      PrefixAndSuffix("CONSTRAINT ", name + columns + references);
    } else {
      assert rest[0] == 'F';
    }
  }

  /** `render_drop_foreign_key`. */
  function RenderDropForeignKey(h: Helpers, dfk: DropForeignKey): (r: string)
    ensures StartsWith(r, "ALTER TABLE " + h.quoteWithSchema(dfk.table) + " DROP CONSTRAINT ")
    ensures EndsWith(r, h.quote(dfk.constraintName))
  {
    "ALTER TABLE " + h.quoteWithSchema(dfk.table) + " DROP CONSTRAINT " + h.quote(dfk.constraintName)
  }

  // ---- ALTER TABLE ----

  /** `todo!` for AlterColumn and `unwrap` on an unnamed primary key are panics: those changes,
      and added columns the column renderer refuses, are outside what can be rendered. */
  predicate ChangeRenderable(change: TableChange) {
    match change
    case DropPrimaryKey(name) => name.Some?
    case AddPrimaryKey(_) => true
    case AddColumn(column) => ColumnRenderable(column)
    case DropColumn(_) => true
    case AlterColumn(_) => false
  }

  predicate AllChangesRenderable(changes: seq<TableChange>) {
    forall i :: 0 <= i < |changes| ==> ChangeRenderable(changes[i])
  }

  /** The keyword that opens the clause of each kind of table change. */
  function ChangeKeyword(change: TableChange): string {
    match change
    case DropPrimaryKey(_) => "DROP CONSTRAINT "
    case AddPrimaryKey(_) => "ADD PRIMARY KEY ("
    case AddColumn(_) => "ADD COLUMN "
    case DropColumn(_) => "DROP COLUMN "
    case AlterColumn(_) => ""
  }

  /** The clause one table change contributes to the ALTER TABLE statement: its keyword, then
      the quoted constraint or column name, the quoted primary-key columns, or the rendered
      column. */
  function RenderTableChange(h: Helpers, change: TableChange): (r: string)
    requires ChangeRenderable(change)
    ensures StartsWith(r, ChangeKeyword(change))
    ensures change.DropPrimaryKey? ==> r[|ChangeKeyword(change)|..] == h.quote(change.constraintName.value)
    ensures change.DropColumn? ==> r[|ChangeKeyword(change)|..] == h.quote(change.name)
    ensures change.AddColumn? ==> r[|ChangeKeyword(change)|..] == RenderColumn(h, change.column)
    ensures change.AddPrimaryKey? ==>
              r[|ChangeKeyword(change)|..] == Join(QuoteEach(h.quote, change.columns), ", ") + ")"
  {
    var kw := ChangeKeyword(change);
    var operand := match change
      case DropPrimaryKey(name) => h.quote(name.value)
      case AddPrimaryKey(columns) => Join(QuoteEach(h.quote, columns), ", ") + ")"
      case AddColumn(column) => RenderColumn(h, column)
      case DropColumn(name) => h.quote(name);
    PrefixAndSuffix(kw, operand);
    kw + operand
  }

  /** The clause tells which kind of change it renders: no clause opens with the keyword of
      another kind of change. */
  lemma ClauseIdentifiesChange(h: Helpers, a: TableChange, b: TableChange)
    requires ChangeRenderable(a) && ChangeRenderable(b)
    requires StartsWith(RenderTableChange(h, a), ChangeKeyword(b))
    ensures ChangeKeyword(a) == ChangeKeyword(b)
  {
    var r := RenderTableChange(h, a);
    var ka, kb := ChangeKeyword(a), ChangeKeyword(b);
    assert r[..|ka|] == ka && r[..|kb|] == kb;
    // The four keywords already differ at position 0, 4 or 7.
    assert ka[0] == r[0] == kb[0] && ka[4] == r[4] == kb[4] && ka[7] == r[7] == kb[7];
  }

  /** One clause per change, in input order. */
  function ChangeClauses(h: Helpers, changes: seq<TableChange>): (r: seq<string>)
    requires AllChangesRenderable(changes)
    ensures |r| == |changes|
    ensures forall i :: 0 <= i < |changes| ==> r[i] == RenderTableChange(h, changes[i])
  {
    seq(|changes|, i requires 0 <= i < |changes| && AllChangesRenderable(changes) => RenderTableChange(h, changes[i]))
  }

  /** `render_alter_table`: no change gives no statement; otherwise exactly one ALTER TABLE
      statement holding one clause per change, in order, separated by `,\n`. */
  method RenderAlterTable(h: Helpers, alterTable: AlterTable) returns (statements: seq<string>)
    requires AllChangesRenderable(alterTable.changes)
    ensures statements == [] <==> alterTable.changes == []
    ensures |statements| <= 1
    ensures alterTable.changes != [] ==>
              statements == ["ALTER TABLE " + h.quoteWithSchema(alterTable.table) + " "
                             + Join(ChangeClauses(h, alterTable.changes), ",\n")]
  {
    var changes := alterTable.changes;
    var lines: seq<string> := [];
    for i := 0 to |changes|
      invariant lines == ChangeClauses(h, changes[..i])
    {
      assert changes[..i + 1] == changes[..i] + [changes[i]];
      lines := lines + [RenderTableChange(h, changes[i])];
    }
    assert changes[..|changes|] == changes;
    if lines == [] {
      return [];
    }
    statements := ["ALTER TABLE " + h.quoteWithSchema(alterTable.table) + " " + Join(lines, ",\n")];
  }

  // ---- indexes ----

  /** `name.replace('.', "_")`: no dot is left and every other character stays where it was. */
  function IndexIdentifier(name: string): (r: string)
    ensures |r| == |name| && '.' !in r
    ensures forall i :: 0 <= i < |name| ==> r[i] == (if name[i] == '.' then '_' else name[i])
  {
    ReplaceByOneChar(name, '.', '_');
    Replace(name, '.', "_")
  }

  /** A unique index over nullable columns is filtered so that NULLs do not collide. */
  predicate IsFilteredIndex(ci: CreateIndex) {
    ci.index.tpe.Unique? && ci.containsNullableColumns
  }

  /** `<quoted column> IS NOT NULL` for each column, in order. */
  function NotNullConjuncts(h: Helpers, columns: seq<string>): (r: seq<string>)
    ensures |r| == |columns|
    ensures forall i :: 0 <= i < |r| ==> EndsWith(r[i], " IS NOT NULL")
  {
    var r := seq(|columns|, i requires 0 <= i < |columns| => h.quote(columns[i]) + " IS NOT NULL");
    assert forall i :: 0 <= i < |r| ==> r[i][|r[i]| - 12..] == " IS NOT NULL";
    r
  }

  /** ` WHERE c1 IS NOT NULL AND c2 IS NOT NULL ...`, one conjunct per column, in order. */
  function WhereClause(h: Helpers, columns: seq<string>): (r: string)
    ensures StartsWith(r, " WHERE ")
    ensures |r| > 0 && r[|r| - 1] != ')'
  {
    WhereClauseEnd(NotNullConjuncts(h, columns));
    var r := " WHERE " + Join(NotNullConjuncts(h, columns), " AND ");
    assert r[..7] == " WHERE ";
    r
  }

  /** The filter reads back: after ` WHERE `, splitting on ` AND ` gives one
      `<quoted column> IS NOT NULL` per index column, in order, as long as no conjunct itself
      holds ` AND `. */
  lemma WhereClauseSplits(h: Helpers, columns: seq<string>)
    requires |columns| > 0
    requires forall i :: 0 <= i < |columns| ==> Free(h.quote(columns[i]) + " IS NOT NULL", " AND ")
    ensures var parts := Split(WhereClause(h, columns)[7..], " AND ");
            && |parts| == |columns|
            && forall i :: 0 <= i < |columns| ==> parts[i] == h.quote(columns[i]) + " IS NOT NULL"
  {
    var conjuncts := NotNullConjuncts(h, columns);
    forall k | 0 <= k < |conjuncts| ensures IndexOf(conjuncts[k] + " AND ", " AND ") == Some(|conjuncts[k]|) {
      ConjunctThenSeparator(conjuncts[k]);
    }
    SplitJoin(conjuncts, " AND ");
    assert WhereClause(h, columns)[7..] == Join(conjuncts, " AND ");
  }

  /** In `c AND ` for a conjunct `c` ending in `L` and free of ` AND `, the first ` AND ` is
      the separator: an occurrence starting inside `c` would need `c` to hold it, or would
      have to cover the final `L`, which ` AND ` does not contain. */
  lemma ConjunctThenSeparator(c: string)
    requires EndsWith(c, " IS NOT NULL") && Free(c, " AND ")
    ensures IndexOf(c + " AND ", " AND ") == Some(|c|)
  {
    var s := c + " AND ";
    assert s[|c|..|c| + 5] == " AND ";
    assert c[|c| - 12..][11] == 'L';
    forall j: nat | j < |c| ensures !OccursAt(s, " AND ", j) {
      if j + 5 <= |c| {
        OccursInPrefix(c, " AND ", " AND ", j);
      } else {
        OccurrenceOverLastChar(c, j);
      }
    }
    FirstOccurrence(s, " AND ", |c|);
  }

  /** No ` AND ` covers a final `L`. */
  lemma OccurrenceOverLastChar(c: string, j: nat)
    requires |c| > 0 && c[|c| - 1] == 'L'
    requires j < |c| < j + 5
    ensures !OccursAt(c + " AND ", " AND ", j)
  {
    var k := |c| - 1 - j;
    assert (c + " AND ")[j + k] == 'L';
    assert " AND "[k] != 'L';
  }

  lemma WhereClauseEnd(conjuncts: seq<string>)
    requires forall i :: 0 <= i < |conjuncts| ==> EndsWith(conjuncts[i], " IS NOT NULL")
    ensures var r := " WHERE " + Join(conjuncts, " AND "); r[|r| - 1] != ')'
  {
    var r := " WHERE " + Join(conjuncts, " AND ");
    if conjuncts != [] {
      var last := conjuncts[|conjuncts| - 1];
      JoinEndsWithLast(conjuncts, " AND ");
      EndsWithAppend(" WHERE ", Join(conjuncts, " AND "), last);
      assert r[|r| - 1] == last[|last| - 1] == 'L';
    }
  }

  /** `render_create_index`: the statement starts `CREATE UNIQUE INDEX` exactly for a unique
      index, and ends with the IS NOT NULL filter exactly for a unique index over nullable
      columns. */
  function RenderCreateIndex(h: Helpers, ci: CreateIndex): (r: string)
    ensures StartsWith(r, "CREATE UNIQUE INDEX ") <==> ci.index.tpe.Unique?
    ensures EndsWith(r, WhereClause(h, ci.index.columns)) <==> IsFilteredIndex(ci)
    ensures StartsWith(r, CreateIndexHead(h, ci))
  {
    var condition := if IsFilteredIndex(ci) then WhereClause(h, ci.index.columns) else "";
    var r := CreateIndexHead(h, ci) + (Join(QuoteEach(h.quote, ci.index.columns), ", ") + ")" + condition);
    CreateIndexShape(h, ci, Join(QuoteEach(h.quote, ci.index.columns), ", "), condition);
    r
  }

  /** `CREATE [UNIQUE ]INDEX <name> ON <table>(`: the index name has its dots replaced. */
  function CreateIndexHead(h: Helpers, ci: CreateIndex): string {
    "CREATE " + ((if ci.index.tpe.Unique? then "UNIQUE " else "") + ("INDEX " + IndexTarget(h, ci)))
  }

  /** `<name> ON <table>(`. */
  function IndexTarget(h: Helpers, ci: CreateIndex): string {
    h.quote(IndexIdentifier(ci.index.name)) + " ON " + h.quoteWithSchema(ci.table) + "("
  }

  lemma CreateIndexShape(h: Helpers, ci: CreateIndex, columns: string, condition: string)
    requires condition == if IsFilteredIndex(ci) then WhereClause(h, ci.index.columns) else ""
    ensures var r := CreateIndexHead(h, ci) + (columns + ")" + condition);
            && StartsWith(r, CreateIndexHead(h, ci))
            && (StartsWith(r, "CREATE UNIQUE INDEX ") <==> ci.index.tpe.Unique?)
            && (EndsWith(r, WhereClause(h, ci.index.columns)) <==> IsFilteredIndex(ci))
  {
    var head := CreateIndexHead(h, ci);
    var tail := columns + ")" + condition;
    PrefixAndSuffix(head, tail);
    UniqueKeyword(ci.index.tpe.Unique?, IndexTarget(h, ci), tail);
    FilterSuffix(head, columns + ")", WhereClause(h, ci.index.columns), IsFilteredIndex(ci));
  }

  lemma UniqueKeyword(unique: bool, rest: string, tail: string)
    ensures var head := "CREATE " + ((if unique then "UNIQUE " else "") + ("INDEX " + rest));
            StartsWith(head + tail, "CREATE UNIQUE INDEX ") <==> unique
  {
    var head := "CREATE " + ((if unique then "UNIQUE " else "") + ("INDEX " + rest));
    if unique {
      assert head + tail == "CREATE UNIQUE INDEX " + (rest + tail);
      PrefixAndSuffix("CREATE UNIQUE INDEX ", rest + tail);
    } else {
      assert (head + tail)[7] == 'I';
    }
  }

  lemma FilterSuffix(head: string, body: string, w: string, filtered: bool)
    requires |body| > 0 && body[|body| - 1] == ')'
    requires |w| > 0 && w[|w| - 1] != ')'
    ensures EndsWith(head + (body + (if filtered then w else "")), w) <==> filtered
  {
    if filtered {
      PrefixAndSuffix(head + body, w);
      assert head + (body + w) == (head + body) + w;
    } else {
      assert head + (body + "") == head + body;
    }
  }

  /** `render_drop_index`. */
  function RenderDropIndex(h: Helpers, di: DropIndex): (r: string)
    ensures StartsWith(r, "DROP INDEX " + h.quoteWithSchema(di.name) + " ON ")
    ensures EndsWith(r, h.quoteWithSchema(di.table))
  {
    "DROP INDEX " + h.quoteWithSchema(di.name) + " ON " + h.quoteWithSchema(di.table)
  }

  /** `render_alter_index`: one `SP_RENAME` call; the dotted index path is passed through
      `Quoted::Single` twice, as the source does. */
  function RenderAlterIndex(h: Helpers, ai: AlterIndex): (r: seq<string>)
    ensures |r| == 1 && StartsWith(r[0], "EXEC SP_RENAME N") && EndsWith(r[0], ", N'INDEX'")
  {
    var indexWithTable := h.quoteSingle(h.schemaName + "." + ai.table + "." + ai.indexName);
    ["EXEC SP_RENAME N" + h.quoteSingle(indexWithTable) + ", N" + h.quoteSingle(ai.indexNewName) + ", N'INDEX'"]
  }

  // ---- CREATE TABLE ----

  /** Unique indexes none of whose columns is nullable are written inline as constraints. */
  predicate IsInlineUnique(t: Table, ix: Index) {
    ix.tpe.Unique? && !HasNullableColumns(t, ix)
  }

  /** The inline-constraint indexes, in table order: exactly the unique indexes without a
      nullable column. */
  function InlineUniqueIndexes(t: Table, indexes: seq<Index>): (r: seq<Index>)
    ensures forall ix :: ix in r <==> ix in indexes && IsInlineUnique(t, ix)
    ensures |r| <= |indexes|
  {
    if indexes == [] then []
    else (if IsInlineUnique(t, indexes[0]) then [indexes[0]] else []) + InlineUniqueIndexes(t, indexes[1..])
  }

  function UniqueConstraint(h: Helpers, ix: Index): string {
    "CONSTRAINT " + IndexIdentifier(ix.name) + " UNIQUE (" + Join(QuoteEach(h.quote, ix.columns), ",") + ")"
  }

  /** The `,\n`-led list of inline UNIQUE constraints; empty when there is none. */
  function UniqueConstraintsClause(h: Helpers, t: Table): (r: string)
    ensures r == "" <==> InlineUniqueIndexes(t, t.indexes) == []
  {
    var inline := InlineUniqueIndexes(t, t.indexes);
    if inline == [] then ""
    else ",\n" + Join(seq(|inline|, i requires 0 <= i < |inline| => UniqueConstraint(h, inline[i])), ",\n")
  }

  /** `PK_<table>_<columns joined by _>`. */
  function PrimaryKeyName(t: Table): string {
    "PK_" + t.name + "_" + Join(t.primaryKey, "_")
  }

  /** The primary-key constraint: present exactly when the table has primary-key columns. */
  function PrimaryKeyClause(h: Helpers, t: Table): (r: string)
    ensures r == "" <==> t.primaryKey == []
    ensures t.primaryKey != [] ==> StartsWith(r, ",\nCONSTRAINT " + PrimaryKeyName(t) + " PRIMARY KEY (")
  {
    if t.primaryKey != [] then
      var head := ",\nCONSTRAINT " + PrimaryKeyName(t) + " PRIMARY KEY (";
      var r := head + Join(QuoteEach(h.quote, t.primaryKey), ",") + ")";
      assert r[..|head|] == head;
      r
    else ""
  }

  predicate AllColumnsRenderable(columns: seq<Column>) {
    forall i :: 0 <= i < |columns| ==> ColumnRenderable(columns[i])
  }

  function RenderColumns(h: Helpers, columns: seq<Column>): string
    requires AllColumnsRenderable(columns)
  {
    Join(seq(|columns|, i requires 0 <= i < |columns| && AllColumnsRenderable(columns) => RenderColumn(h, columns[i])), ",\n")
  }

  /** `render_create_table`: the columns, then the primary-key clause, then the inline unique
      constraints, inside `CREATE TABLE <table> (...)`. */
  function RenderCreateTable(h: Helpers, t: Table): (r: string)
    requires AllColumnsRenderable(t.columns)
    ensures StartsWith(r, "CREATE TABLE " + h.quoteWithSchema(t.name) + " (" + RenderColumns(h, t.columns))
    ensures EndsWith(r, PrimaryKeyClause(h, t) + UniqueConstraintsClause(h, t) + ")")
  {
    var head := "CREATE TABLE " + h.quoteWithSchema(t.name) + " (" + RenderColumns(h, t.columns);
    var tail := PrimaryKeyClause(h, t) + UniqueConstraintsClause(h, t) + ")";
    var r := head + tail;
    assert r[..|head|] == head && r[|r| - |tail|..] == tail;
    r
  }

  // ---- DROP TABLE and renames ----

  /** `render_drop_table`: one statement. */
  function RenderDropTable(h: Helpers, tableName: string): (r: seq<string>)
    ensures |r| == 1 && StartsWith(r[0], "DROP TABLE ") && EndsWith(r[0], h.quoteWithSchema(tableName))
  {
    var r := "DROP TABLE " + h.quoteWithSchema(tableName);
    assert r[..11] == "DROP TABLE ";
    [r]
  }

  ghost predicate Injective(f: string -> string) {
    forall x, y :: f(x) == f(y) ==> x == y
  }

  /** With an injective quoting, distinct tables get distinct DROP TABLE statements. */
  lemma DropTableDistinguishesTables(h: Helpers, a: string, b: string)
    requires Injective(h.quoteWithSchema)
    requires RenderDropTable(h, a) == RenderDropTable(h, b)
    ensures a == b
  {
    var ra, rb := RenderDropTable(h, a)[0], RenderDropTable(h, b)[0];
    assert ra[11..] == h.quoteWithSchema(a);
    assert rb[11..] == h.quoteWithSchema(b);
  }

  /** `render_rename_table`: `SP_RENAME` on the schema-qualified old name, to the new name. */
  function RenderRenameTable(h: Helpers, name: string, newName: string): (r: string)
    ensures StartsWith(r, "EXEC SP_RENAME N" + h.quoteSingle(h.schemaName + "." + name) + ", N")
    ensures EndsWith(r, h.quoteSingle(newName))
  {
    var head := "EXEC SP_RENAME N" + h.quoteSingle(h.schemaName + "." + name) + ", N";
    var r := head + h.quoteSingle(newName);
    assert r[..|head|] == head;
    r
  }
}
