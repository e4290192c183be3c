/** The SQLite flavour of the destructive change checker for an altered column. SQLite cannot
    alter a column in place, so every alteration that is not a harmless arity relaxation is
    flagged: always with a warning, and as unexecutable when a column becomes required without a
    default. The plan is a mutable object that the check only appends to. */
module SqliteDestructiveChangeChecker {
  import opened Wrappers
  import opened SqlSchema

  /** `UnexecutableStepCheck::MadeOptionalFieldRequired`. */
  datatype UnexecutableStepCheck = MadeOptionalFieldRequired(table: string, column: string)

  /** `SqlMigrationWarningCheck::AlterColumn`. */
  datatype SqlMigrationWarningCheck = AlterColumn(table: string, column: string)

  /** `DestructiveCheckPlan`: the unexecutable steps and the warnings found so far, each with
      the index of the migration step it is about, in the order they were found. */
  class DestructiveCheckPlan {
    var unexecutableMigrations: seq<(UnexecutableStepCheck, nat)>
    var warnings: seq<(SqlMigrationWarningCheck, nat)>

    constructor()
      ensures unexecutableMigrations == [] && warnings == []
    {
      unexecutableMigrations := [];
      warnings := [];
    }

    /** `push_unexecutable`: one entry appended, the warnings untouched. */
    method PushUnexecutable(check: UnexecutableStepCheck, stepIndex: nat)
      modifies this
      ensures unexecutableMigrations == old(unexecutableMigrations) + [(check, stepIndex)]
      ensures warnings == old(warnings)
    {
      unexecutableMigrations := unexecutableMigrations + [(check, stepIndex)];
    }

    /** `push_warning`: one entry appended, the unexecutable steps untouched. */
    method PushWarning(check: SqlMigrationWarningCheck, stepIndex: nat)
      modifies this
      ensures warnings == old(warnings) + [(check, stepIndex)]
      ensures unexecutableMigrations == old(unexecutableMigrations)
    {
      warnings := warnings + [(check, stepIndex)];
    }
  }

  /** What the check reads of one side of a column diff. */
  datatype ColumnSnapshot = ColumnSnapshot(
    tableName: string,
    name: string,
    arity: ColumnArity,
    default: Option<DefaultValue>)

  /** `ColumnDiffer`: the column before and after, and the changes computed between them. */
  datatype ColumnDiffer = ColumnDiffer(
    previous: ColumnSnapshot,
    next: ColumnSnapshot,
    typeChanged: bool,
    arityChanged: bool)

  /** SQLite has no list columns; the check is never asked about one. */
  predicate NoListArity(columns: ColumnDiffer) {
    !columns.previous.arity.List? && !columns.next.arity.List?
  }

  /** A column becoming required is the one unsafe arity change; relaxing to nullable or
      keeping the arity is safe. */
  function ArityChangeIsSafe(previous: ColumnArity, next: ColumnArity): (r: bool)
    requires !previous.List? && !next.List?
    ensures r <==> !(previous.Nullable? && next.Required?)
    ensures previous == next ==> r
  {
    match (previous, next)
    case (Nullable, Required) => false
    case (Required, Nullable) => true
    case (Required, Required) => true
    case (Nullable, Nullable) => true
  }

  /** The check returns early, leaving the plan alone, when the type is unchanged and the arity
      change is safe. */
  predicate ReturnsEarly(columns: ColumnDiffer)
    requires NoListArity(columns)
  {
    !columns.typeChanged && ArityChangeIsSafe(columns.previous.arity, columns.next.arity)
  }

  /** The condition for the unexecutable entry once past the early return. */
  predicate MadeRequiredWithoutDefault(columns: ColumnDiffer) {
    columns.arityChanged && columns.next.arity.Required? && columns.next.default.None?
  }

  /** The unexecutable entries the check appends for `columns` at `stepIndex`: one
      `MadeOptionalFieldRequired` about the previous column exactly when the check goes on and
      the column was made required without a default. */
  function UnexecutableFindings(columns: ColumnDiffer, stepIndex: nat): (r: seq<(UnexecutableStepCheck, nat)>)
    requires NoListArity(columns)
    ensures |r| <= 1
    ensures |r| == 1 <==> !ReturnsEarly(columns) && MadeRequiredWithoutDefault(columns)
    ensures |r| == 1 ==> r[0] == (MadeOptionalFieldRequired(columns.previous.tableName, columns.previous.name), stepIndex)
  {
    if !ReturnsEarly(columns) && MadeRequiredWithoutDefault(columns) then
      [(MadeOptionalFieldRequired(columns.previous.tableName, columns.previous.name), stepIndex)]
    else []
  }

  /** The warnings the check appends: one `AlterColumn` naming the previous table and the next
      column exactly when the check goes on. */
  function WarningFindings(columns: ColumnDiffer, stepIndex: nat): (r: seq<(SqlMigrationWarningCheck, nat)>)
    requires NoListArity(columns)
    ensures |r| <= 1
    ensures |r| == 1 <==> !ReturnsEarly(columns)
    ensures |r| == 1 ==> r[0] == (AlterColumn(columns.previous.tableName, columns.next.name), stepIndex)
  {
    if ReturnsEarly(columns) then []
    else [(AlterColumn(columns.previous.tableName, columns.next.name), stepIndex)]
  }

  /** `check_alter_column`: appends exactly the findings above to the plan and changes nothing
      already in it. */
  method CheckAlterColumn(columns: ColumnDiffer, plan: DestructiveCheckPlan, stepIndex: nat)
    requires NoListArity(columns)
    modifies plan
    ensures plan.unexecutableMigrations == old(plan.unexecutableMigrations) + UnexecutableFindings(columns, stepIndex)
    ensures plan.warnings == old(plan.warnings) + WarningFindings(columns, stepIndex)
  {
    var arityChangeIsSafe := ArityChangeIsSafe(columns.previous.arity, columns.next.arity);

    if !columns.typeChanged && arityChangeIsSafe {
      assert plan.unexecutableMigrations == plan.unexecutableMigrations + [];
      assert plan.warnings == plan.warnings + [];
      return;
    }

    if columns.arityChanged && columns.next.arity.Required? && columns.next.default.None? {
      plan.PushUnexecutable(MadeOptionalFieldRequired(columns.previous.tableName, columns.previous.name), stepIndex);
    } else {
      assert plan.unexecutableMigrations == plan.unexecutableMigrations + [];
    }

    plan.PushWarning(AlterColumn(columns.previous.tableName, columns.next.name), stepIndex);
  }

  /** Every unexecutable finding comes with a warning about the same step. */
  lemma UnexecutableImpliesWarning(columns: ColumnDiffer, stepIndex: nat)
    requires NoListArity(columns)
    requires |UnexecutableFindings(columns, stepIndex)| == 1
    ensures |WarningFindings(columns, stepIndex)| == 1
    ensures UnexecutableFindings(columns, stepIndex)[0].1 == WarningFindings(columns, stepIndex)[0].1
  {
  }

  /** A type change that keeps the arity is flagged with a warning only. */
  lemma TypeChangeOnlyWarns(columns: ColumnDiffer, stepIndex: nat)
    requires NoListArity(columns)
    requires columns.typeChanged && !columns.arityChanged
    ensures UnexecutableFindings(columns, stepIndex) == []
    ensures WarningFindings(columns, stepIndex) == [(AlterColumn(columns.previous.tableName, columns.next.name), stepIndex)]
  {
  }

  /** When the arity flag reports a real arity change, an unexecutable finding means the column
      went from nullable to required: making a required column nullable, or a type change
      alone, is never unexecutable. */
  lemma UnexecutableMeansMadeRequired(columns: ColumnDiffer, stepIndex: nat)
    requires NoListArity(columns)
    requires columns.arityChanged <==> columns.previous.arity != columns.next.arity
    requires |UnexecutableFindings(columns, stepIndex)| == 1
    ensures columns.previous.arity == Nullable && columns.next.arity == Required
    ensures columns.next.default.None?
  {
  }

  /** A column made required without a default is unexecutable whether or not its type changed. */
  lemma MadeRequiredIsUnexecutable(columns: ColumnDiffer, stepIndex: nat)
    requires NoListArity(columns)
    requires columns.previous.arity == Nullable && columns.next.arity == Required
    requires columns.arityChanged && columns.next.default.None?
    ensures UnexecutableFindings(columns, stepIndex) == [(MadeOptionalFieldRequired(columns.previous.tableName, columns.previous.name), stepIndex)]
  {
  }
}
