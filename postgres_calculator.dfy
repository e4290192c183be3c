/** The Postgres flavour of the SQL schema calculator: the column type a field with a native
    Postgres type gets, and the enums of the data model. The type-name table is paired with a
    reader of type names (`ParseDataType`) that recovers the native type from its name, which
    shows that the table gives every handled type a distinct name carrying its parameters. */
module PostgresSchemaCalculator {
  import opened Wrappers
  import opened Text
  import SqlSchema

  /** `PostgresType`. Sizes and precisions are unsigned integers. */
  datatype PostgresType =
    | SmallInt
    | Integer
    | BigInt
    | Decimal(precision: nat, scale: nat)
    | Numeric(precision: nat, scale: nat)
    | Real
    | DoublePrecision
    | SmallSerial
    | Serial
    | BigSerial
    | VarChar(size: nat)
    | Char(size: nat)
    | Text
    | ByteA
    | Timestamp(precision: nat)
    | TimestampWithTimeZone(precision: nat)
    | Date
    | Time(precision: nat)
    | TimeWithTimeZone(precision: nat)
    | Interval(precision: nat)
    | Boolean
    | Bit(size: nat)
    | VarBit(size: nat)
    | UUID
    | XML
    | JSON
    | JSONB
    | NotHandled

  /** `name(args)suffix`, the shape of every parametrised type name. */
  function Call(name: string, args: string, suffix: string): string {
    name + "(" + args + ")" + suffix
  }

  /** The `data_type` string of a native type: a fixed keyword, or a name with its parameters
      in parentheses (two parameters separated by `, `). `NotHandled` is unreachable. */
  function DataTypeName(t: PostgresType): string
    requires !t.NotHandled?
  {
    match t
    case SmallInt => "SMALLINT"
    case Integer => "INTEGER"
    case BigInt => "BIGINT"
    case Decimal(p, s) => Call("DECIMAL", NatToString(p) + ", " + NatToString(s), "")
    case Numeric(p, s) => Call("NUMERIC", NatToString(p) + ", " + NatToString(s), "")
    case Real => "REAL"
    case DoublePrecision => "DOUBLE PRECISION"
    case SmallSerial => "SMALLSERIAL"
    case Serial => "SERIAL"
    case BigSerial => "BIGSERIAL"
    case VarChar(n) => Call("VARCHAR", NatToString(n), "")
    case Char(n) => Call("CHAR", NatToString(n), "")
    case Text => "TEXT"
    case ByteA => "BYTEA"
    case Timestamp(p) => Call("TIMESTAMP", NatToString(p), "")
    case TimestampWithTimeZone(p) => Call("TIMESTAMP", NatToString(p), " WITH TIME ZONE")
    case Date => "DATE"
    case Time(p) => Call("TIME", NatToString(p), "")
    case TimeWithTimeZone(p) => Call("TIMETZ", NatToString(p), "")
    case Interval(p) => Call("INTERVAL", NatToString(p), "")
    case Boolean => "BOOLEAN"
    case Bit(n) => Call("BIT", NatToString(n), "")
    case VarBit(n) => Call("VARBIT", NatToString(n), "")
    case UUID => "UUID"
    case XML => "XML"
    case JSON => "JSON"
    case JSONB => "JSONB"
  }

  // ---- reading a type name back ----

  /** Index of the first occurrence of `c` in `s`. */
  function FindChar(s: string, c: char): (r: Option<nat>)
    ensures r.None? <==> c !in s
    ensures r.Some? ==> r.value < |s| && s[r.value] == c && c !in s[..r.value]
  {
    if s == [] then None
    else if s[0] == c then Some(0)
    else
      match FindChar(s[1..], c)
      case None => None
      case Some(i) =>
        assert s[..i + 1] == [s[0]] + s[1..][..i];
        Some(i + 1)
  }

  /** The parameterless type a keyword names. */
  function KeywordType(s: string): Option<PostgresType> {
    if s == "SMALLINT" then Some(SmallInt)
    else if s == "INTEGER" then Some(Integer)
    else if s == "BIGINT" then Some(BigInt)
    else if s == "REAL" then Some(Real)
    else if s == "DOUBLE PRECISION" then Some(DoublePrecision)
    else if s == "SMALLSERIAL" then Some(SmallSerial)
    else if s == "SERIAL" then Some(Serial)
    else if s == "BIGSERIAL" then Some(BigSerial)
    else if s == "TEXT" then Some(Text)
    else if s == "BYTEA" then Some(ByteA)
    else if s == "DATE" then Some(Date)
    else if s == "BOOLEAN" then Some(Boolean)
    else if s == "UUID" then Some(UUID)
    else if s == "XML" then Some(XML)
    else if s == "JSON" then Some(JSON)
    else if s == "JSONB" then Some(JSONB)
    else None
  }

  /** The one-parameter type a name stands for, given its parameter. */
  function SizedType(name: string, n: nat): Option<PostgresType> {
    if name == "VARCHAR" then Some(VarChar(n))
    else if name == "CHAR" then Some(Char(n))
    else if name == "TIMESTAMP" then Some(Timestamp(n))
    else if name == "TIME" then Some(Time(n))
    else if name == "TIMETZ" then Some(TimeWithTimeZone(n))
    else if name == "INTERVAL" then Some(Interval(n))
    else if name == "BIT" then Some(Bit(n))
    else if name == "VARBIT" then Some(VarBit(n))
    else None
  }

  /** What follows the first parameter of a `DECIMAL` / `NUMERIC` name: `, <digits>)`. */
  function ReadScale(name: string, p: nat, rest: string): Option<PostgresType> {
    if StartsWith(rest, ", ") then
      var tail := rest[2..];
      var k := DigitRun(tail);
      if k > 0 && tail[k..] == ")" then
        var s := ParseNat(tail[..k]);
        Some(if name == "DECIMAL" then Decimal(p, s) else Numeric(p, s))
      else None
    else None
  }

  /** What follows the only parameter: `)`, or `) WITH TIME ZONE` after `TIMESTAMP`. */
  function ReadClose(name: string, n: nat, rest: string): Option<PostgresType> {
    if rest == ")" then SizedType(name, n)
    else if rest == ") WITH TIME ZONE" && name == "TIMESTAMP" then Some(TimestampWithTimeZone(n))
    else None
  }

  /** Reads the parameters that follow `name(`. */
  function ReadParameters(name: string, after: string): Option<PostgresType> {
    var k := DigitRun(after);
    if k == 0 then None
    else
      var n := ParseNat(after[..k]);
      if name == "DECIMAL" || name == "NUMERIC" then ReadScale(name, n, after[k..])
      else ReadClose(name, n, after[k..])
  }

  /** The native type a `data_type` string names, or None for a string no type is named by. */
  function ParseDataType(s: string): Option<PostgresType> {
    match FindChar(s, '(')
    case None => KeywordType(s)
    case Some(i) => ReadParameters(s[..i], s[i + 1..])
  }

  lemma SplitCall(name: string, args: string, suffix: string)
    requires '(' !in name
    ensures var s := Call(name, args, suffix);
            && FindChar(s, '(') == Some(|name|)
            && s[..|name|] == name
            && s[|name| + 1..] == args + (")" + suffix)
  {
    var s := Call(name, args, suffix);
    assert s == name + ("(" + (args + (")" + suffix)));
    assert s[..|name|] == name;
    assert s[|name|] == '(';
  }

  /** The parameters of a name read back as written. */
  lemma ReadOneParameter(name: string, n: nat, suffix: string)
    requires name != "DECIMAL" && name != "NUMERIC"
    ensures ReadParameters(name, NatToString(n) + (")" + suffix)) == ReadClose(name, n, ")" + suffix)
  {
    var d := NatToString(n);
    DigitRunOf(d, ")" + suffix);
    ParseNatToString(n);
    assert (d + (")" + suffix))[..|d|] == d;
    assert (d + (")" + suffix))[|d|..] == ")" + suffix;
  }

  lemma ReadTwoParameters(name: string, p: nat, s: nat)
    requires name == "DECIMAL" || name == "NUMERIC"
    ensures ReadParameters(name, (NatToString(p) + ", " + NatToString(s)) + (")" + ""))
            == Some(if name == "DECIMAL" then Decimal(p, s) else Numeric(p, s))
  {
    var dp, ds := NatToString(p), NatToString(s);
    var rest := ", " + (ds + ")");
    var after := (dp + ", " + ds) + (")" + "");
    assert after == dp + rest;
    DigitRunOf(dp, rest);
    ParseNatToString(p);
    assert after[..|dp|] == dp;
    assert after[|dp|..] == rest;
    ReadScaleOf(name, p, s);
  }

  lemma ReadScaleOf(name: string, p: nat, s: nat)
    ensures ReadScale(name, p, ", " + (NatToString(s) + ")"))
            == Some(if name == "DECIMAL" then Decimal(p, s) else Numeric(p, s))
  {
    var ds := NatToString(s);
    var rest := ", " + (ds + ")");
    assert rest[..2] == ", ";
    assert rest[2..] == ds + ")";
    DigitRunOf(ds, ")");
    ParseNatToString(s);
    assert (ds + ")")[..|ds|] == ds;
    assert (ds + ")")[|ds|..] == ")";
  }

  /** The type-name table is inverted by `ParseDataType`: every handled type is recovered from
      its name, parameters included. */
  lemma ParseDataTypeName(t: PostgresType)
    requires !t.NotHandled?
    ensures ParseDataType(DataTypeName(t)) == Some(t)
  {
    if t.Decimal? || t.Numeric? {
      ScaledRoundTrip(t);
    } else if SizedName(t) != "" {
      SizedTypeRoundTrip(t);
    } else {
      KeywordRoundTrip(t);
    }
  }

  lemma ScaledRoundTrip(t: PostgresType)
    requires t.Decimal? || t.Numeric?
    ensures ParseDataType(DataTypeName(t)) == Some(t)
  {
    var name := if t.Decimal? then "DECIMAL" else "NUMERIC";
    SplitCall(name, NatToString(t.precision) + ", " + NatToString(t.scale), "");
    ReadTwoParameters(name, t.precision, t.scale);
  }

  /** The name of a one-parameter type, "" for the others. */
  function SizedName(t: PostgresType): string {
    match t
    case VarChar(_) => "VARCHAR"
    case Char(_) => "CHAR"
    case Timestamp(_) => "TIMESTAMP"
    case TimestampWithTimeZone(_) => "TIMESTAMP"
    case Time(_) => "TIME"
    case TimeWithTimeZone(_) => "TIMETZ"
    case Interval(_) => "INTERVAL"
    case Bit(_) => "BIT"
    case VarBit(_) => "VARBIT"
    case _ => ""
  }

  /** The parameter of a one-parameter type. */
  function SizedParameter(t: PostgresType): nat {
    match t
    case VarChar(n) => n
    case Char(n) => n
    case Bit(n) => n
    case VarBit(n) => n
    case Timestamp(p) => p
    case TimestampWithTimeZone(p) => p
    case Time(p) => p
    case TimeWithTimeZone(p) => p
    case Interval(p) => p
    case _ => 0
  }

  /** What follows the closing parenthesis of a one-parameter type name. */
  function SizedSuffix(t: PostgresType): string {
    if t.TimestampWithTimeZone? then " WITH TIME ZONE" else ""
  }

  lemma SizedShape(t: PostgresType)
    requires SizedName(t) != ""
    ensures DataTypeName(t) == Call(SizedName(t), NatToString(SizedParameter(t)), SizedSuffix(t))
    ensures '(' !in SizedName(t) && SizedName(t) != "DECIMAL" && SizedName(t) != "NUMERIC"
  {
  }

  lemma SizedLookup(t: PostgresType)
    requires SizedName(t) != ""
    ensures ReadClose(SizedName(t), SizedParameter(t), ")" + SizedSuffix(t)) == Some(t)
  {
  }

  lemma SizedTypeRoundTrip(t: PostgresType)
    requires !t.NotHandled? && SizedName(t) != ""
    ensures ParseDataType(DataTypeName(t)) == Some(t)
  {
    SizedShape(t);
    SizedLookup(t);
    SizedRoundTrip(SizedName(t), SizedParameter(t), SizedSuffix(t));
  }

  lemma KeywordRoundTrip(t: PostgresType)
    requires !t.NotHandled?
    requires DataTypeName(t) == KeywordName(t)
    ensures ParseDataType(DataTypeName(t)) == Some(t)
  {
    if t.SmallInt? || t.Integer? || t.BigInt? || t.Real? {
      IntegerKeywordsRoundTrip(t);
    } else if t.DoublePrecision? || t.SmallSerial? || t.Serial? || t.BigSerial? {
      SerialKeywordsRoundTrip(t);
    } else if t.Text? || t.ByteA? {
      TextKeywordsRoundTrip(t);
    } else if t.Date? || t.Boolean? {
      DateKeywordsRoundTrip(t);
    } else if t.UUID? || t.XML? {
      UuidKeywordsRoundTrip(t);
    } else if t.JSON? || t.JSONB? {
      JsonKeywordsRoundTrip(t);
    }
  }

  /** The keyword round trip, a few keywords at a time to keep each proof small. */
  lemma IntegerKeywordsRoundTrip(t: PostgresType)
    requires t.SmallInt? || t.Integer? || t.BigInt? || t.Real?
    ensures ParseDataType(DataTypeName(t)) == Some(t)
  {
    match t
    case SmallInt => KeywordParses("SMALLINT", t);
    case Integer => KeywordParses("INTEGER", t);
    case BigInt => KeywordParses("BIGINT", t);
    case Real => KeywordParses("REAL", t);
  }

  lemma SerialKeywordsRoundTrip(t: PostgresType)
    requires t.DoublePrecision? || t.SmallSerial? || t.Serial? || t.BigSerial?
    ensures ParseDataType(DataTypeName(t)) == Some(t)
  {
    match t
    case DoublePrecision => KeywordParses("DOUBLE PRECISION", t);
    case SmallSerial => KeywordParses("SMALLSERIAL", t);
    case Serial => KeywordParses("SERIAL", t);
    case BigSerial => KeywordParses("BIGSERIAL", t);
  }

  lemma TextKeywordsRoundTrip(t: PostgresType)
    requires t.Text? || t.ByteA?
    ensures ParseDataType(DataTypeName(t)) == Some(t)
  {
    match t
    case Text => KeywordParses("TEXT", t);
    case ByteA => KeywordParses("BYTEA", t);
  }

  lemma DateKeywordsRoundTrip(t: PostgresType)
    requires t.Date? || t.Boolean?
    ensures ParseDataType(DataTypeName(t)) == Some(t)
  {
    match t
    case Date => KeywordParses("DATE", t);
    case Boolean => KeywordParses("BOOLEAN", t);
  }

  lemma UuidKeywordsRoundTrip(t: PostgresType)
    requires t.UUID? || t.XML?
    ensures ParseDataType(DataTypeName(t)) == Some(t)
  {
    match t
    case UUID => KeywordParses("UUID", t);
    case XML => KeywordParses("XML", t);
  }

  lemma JsonKeywordsRoundTrip(t: PostgresType)
    requires t.JSON? || t.JSONB?
    ensures ParseDataType(DataTypeName(t)) == Some(t)
  {
    match t
    case JSON => KeywordParses("JSON", t);
    case JSONB => KeywordParses("JSONB", t);
  }

  /** The keyword of a parameterless type, "" for the others. */
  function KeywordName(t: PostgresType): string {
    match t
    case SmallInt => "SMALLINT"
    case Integer => "INTEGER"
    case BigInt => "BIGINT"
    case Real => "REAL"
    case DoublePrecision => "DOUBLE PRECISION"
    case SmallSerial => "SMALLSERIAL"
    case Serial => "SERIAL"
    case BigSerial => "BIGSERIAL"
    case Text => "TEXT"
    case ByteA => "BYTEA"
    case Date => "DATE"
    case Boolean => "BOOLEAN"
    case UUID => "UUID"
    case XML => "XML"
    case JSON => "JSON"
    case JSONB => "JSONB"
    case _ => ""
  }

  lemma KeywordParses(kw: string, t: PostgresType)
    requires '(' !in kw && KeywordType(kw) == Some(t)
    ensures ParseDataType(kw) == Some(t)
  {
  }

  lemma SizedRoundTrip(name: string, n: nat, suffix: string)
    requires '(' !in name && name != "DECIMAL" && name != "NUMERIC"
    ensures ParseDataType(Call(name, NatToString(n), suffix)) == ReadClose(name, n, ")" + suffix)
  {
    SplitCall(name, NatToString(n), suffix);
    ReadOneParameter(name, n, suffix);
  }

  /** Distinct native types get distinct type names. */
  lemma DataTypeNameInjective(t: PostgresType, u: PostgresType)
    requires !t.NotHandled? && !u.NotHandled?
    requires DataTypeName(t) == DataTypeName(u)
    ensures t == u
  {
    ParseDataTypeName(t);
    ParseDataTypeName(u);
  }

  // ---- arity ----

  /** The data model's `FieldArity`. */
  datatype FieldArity = Required | Optional | List

  /** Required stays required, an optional field becomes a nullable column, a list stays a list. */
  function ColumnArityOf(a: FieldArity): (r: SqlSchema.ColumnArity)
    ensures r.Nullable? <==> a.Optional?
    ensures r.Required? <==> a.Required?
    ensures r.List? <==> a.List?
  {
    match a
    case Required => SqlSchema.Required
    case Optional => SqlSchema.Nullable
    case List => SqlSchema.List
  }

  /** `column_type_for_native_type`: the type name is both the data type and the full data
      type, the family is always `String`, no length is recorded, the arity follows the field
      and the serialized native type is copied as is. The name identifies the native type. */
  function ColumnTypeForNativeType(arity: FieldArity, t: PostgresType, serializedNativeType: SqlSchema.JsonText)
    : (r: SqlSchema.ColumnType)
    requires !t.NotHandled?
    ensures r.dataType == r.fullDataType
    ensures r.family == SqlSchema.String && r.characterMaximumLength == None
    ensures r.arity == ColumnArityOf(arity)
    ensures r.nativeType == serializedNativeType
    ensures ParseDataType(r.dataType) == Some(t)
  {
    ParseDataTypeName(t);
    var dataType := DataTypeName(t);
    SqlSchema.ColumnType(dataType, dataType, None, SqlSchema.String, ColumnArityOf(arity), serializedNativeType)
  }

  // ---- enums ----

  /** An enum value of the data model, with its optional `@map` name. */
  datatype DmEnumValue = DmEnumValue(name: string, databaseName: Option<string>)

  /** An enum of the data model, with its optional `@@map` name. */
  datatype DmEnum = DmEnum(name: string, databaseName: Option<string>, values: seq<DmEnumValue>)

  /** The mapped name when there is one, the model's name otherwise. */
  function FinalDatabaseName(name: string, databaseName: Option<string>): (r: string)
    ensures databaseName.None? ==> r == name
    ensures databaseName.Some? ==> r == databaseName.value
  {
    match databaseName
    case Some(n) => n
    case None => name
  }

  /** `database_values`: the final database name of every value, in order. */
  function DatabaseValues(values: seq<DmEnumValue>): (r: seq<string>)
    ensures |r| == |values|
    ensures forall i :: 0 <= i < |r| ==> r[i] == FinalDatabaseName(values[i].name, values[i].databaseName)
  {
    if values == [] then []
    else [FinalDatabaseName(values[0].name, values[0].databaseName)] + DatabaseValues(values[1..])
  }

  /** `calculate_enums`: one database enum per data-model enum, in the same order, named by its
      final database name and holding its database values. */
  function CalculateEnums(enums: seq<DmEnum>): (r: seq<SqlSchema.SqlEnum>)
    ensures |r| == |enums|
    ensures forall i :: 0 <= i < |r| ==>
      && r[i].name == FinalDatabaseName(enums[i].name, enums[i].databaseName)
      && r[i].values == DatabaseValues(enums[i].values)
  {
    if enums == [] then []
    else
      var e := enums[0];
      [SqlSchema.SqlEnum(FinalDatabaseName(e.name, e.databaseName), DatabaseValues(e.values))] + CalculateEnums(enums[1..])
  }

  /** Without any `@map`, database enums carry exactly the names the data model uses. */
  lemma UnmappedEnumsKeepModelNames(enums: seq<DmEnum>)
    requires forall i :: 0 <= i < |enums| ==> enums[i].databaseName.None?
    requires forall i, j :: 0 <= i < |enums| && 0 <= j < |enums[i].values| ==> enums[i].values[j].databaseName.None?
    ensures var r := CalculateEnums(enums);
            forall i :: 0 <= i < |enums| ==>
              && r[i].name == enums[i].name
              && r[i].values == seq(|enums[i].values|, j requires 0 <= j < |enums[i].values| => enums[i].values[j].name)
  {
  }
}
