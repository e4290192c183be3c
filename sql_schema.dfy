/** The describer's schema types that the three connector files share: column families and
    arities, default values, columns, indexes, foreign keys and tables. Only the fields the
    modelled code reads are kept. */
module SqlSchema {
  import opened Wrappers

  datatype ColumnArity = Required | Nullable | List

  /** `ColumnTypeFamily`; `Enum` carries the enum's name, `Unsupported` the database type name. */
  datatype ColumnTypeFamily =
    | Int
    | Float
    | Boolean
    | String
    | DateTime
    | Binary
    | Json
    | Uuid
    | Enum(enumName: string)
    | Unsupported(typeName: string)

  /** The serialized (JSON) form of a native type, copied around as text. */
  type JsonText = string

  /** `ColumnType`: the database's type name, its full form, an optional character length,
      the family, the arity and the serialized native type. */
  datatype ColumnType = ColumnType(
    dataType: string,
    fullDataType: string,
    characterMaximumLength: Option<nat>,
    family: ColumnTypeFamily,
    arity: ColumnArity,
    nativeType: JsonText)

  /** The `PrismaValue`s a default can hold. `OtherValue` stands for every variant the
      renderers do not match on (numbers, dates, lists, ...) and carries the text its
      `Display` produces. */
  datatype PrismaValue =
    | StringValue(text: string)
    | EnumValue(text: string)
    | BooleanValue(b: bool)
    | OtherValue(text: string)

  /** `PrismaValue`'s `to_string()`: strings and enum values print as their text, booleans as
      `true` / `false`. */
  function Display(v: PrismaValue): string {
    match v
    case StringValue(s) => s
    case EnumValue(s) => s
    case BooleanValue(b) => if b then "true" else "false"
    case OtherValue(s) => s
  }

  /** `DefaultValue`: a literal value, `now()`, a sequence, or an expression the database
      generates. */
  datatype DefaultValue =
    | Value(value: PrismaValue)
    | Now
    | Sequence(sequenceName: string)
    | DbGenerated(expression: string)

  datatype Column = Column(
    name: string,
    tpe: ColumnType,
    default: Option<DefaultValue>,
    autoIncrement: bool)

  datatype IndexType = Unique | Normal

  datatype Index = Index(name: string, columns: seq<string>, tpe: IndexType)

  datatype ForeignKeyAction = NoAction | Restrict | Cascade | SetNull | SetDefault

  datatype ForeignKey = ForeignKey(
    constraintName: Option<string>,
    columns: seq<string>,
    referencedTable: string,
    referencedColumns: seq<string>,
    onDeleteAction: ForeignKeyAction,
    onUpdateAction: ForeignKeyAction)

  /** A table; `primaryKey` is the ordered list of primary-key column names (empty when the
      table has none). */
  datatype Table = Table(
    name: string,
    columns: seq<Column>,
    indexes: seq<Index>,
    primaryKey: seq<string>,
    foreignKeys: seq<ForeignKey>)

  /** The describer's `Enum`: a database enum name and its values. */
  datatype SqlEnum = SqlEnum(name: string, values: seq<string>)

  /** An index "has nullable columns" when one of its columns is a nullable column of the table. */
  predicate HasNullableColumns(table: Table, index: Index) {
    exists i :: 0 <= i < |table.columns| && table.columns[i].name in index.columns
      && table.columns[i].tpe.arity == Nullable
  }
}
