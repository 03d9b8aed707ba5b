/**
 * The spreadsheet import of admin.js: each row of the first sheet becomes
 * one record for the bulk endpoint, every field taken from the first
 * truthy of its accepted column headings, with defaults.
 */
module AdminImport {
  import opened Wrappers
  import opened Text
  import opened JsValues
  import opened Sequences
  import Server

  /** The record sent to the server for one spreadsheet row. */
  datatype ImportRecord = ImportRecord(
    fullName: Value, dni: Value, phone: Value, email: Value, teamName: Value,
    category: string, playerType: string, jerseyNumber: Value)

  /** `(v).toLowerCase()`: strings are lower-cased; calling it on a number throws. */
  function LowerCaseOf(v: Value): (r: Result<string>)
    ensures r.Ok? <==> v.Str?
    ensures v.Str? ==> r.value == Lower(v.s)
  {
    if v.Str? then Ok(Lower(v.s)) else Err("TypeError: toLowerCase is not a function")
  }

  /** The cells under the given headings, in order. */
  function Candidates(row: Object, headings: seq<string>): (vs: seq<Value>)
    ensures |vs| == |headings|
    ensures forall i :: 0 <= i < |headings| ==> vs[i] == Get(row, headings[i])
  {
    seq(|headings|, i requires 0 <= i < |headings| => Get(row, headings[i]))
  }

  /** The value of `row[h1] || row[h2] || ... || fallback`. */
  function Field(row: Object, headings: seq<string>, fallback: Value): (v: Value)
    ensures Truthy(v) || v == fallback
  {
    OrChain(Candidates(row, headings) + [fallback])
  }

  const CategoryHeadings: seq<string> := ["CATEGORÍA", "CATEGORY", "category"]
  const TypeHeadings: seq<string> := ["TIPO", "TYPE", "playerType"]

  function CategoryField(row: Object): Value
  {
    Field(row, CategoryHeadings, Str(""))
  }

  function TypeField(row: Object): Value
  {
    Field(row, TypeHeadings, Str("socio"))
  }

  /** The record of a row whose category and type have been lower-cased. */
  function RecordFor(row: Object, category: string, playerType: string): (r: ImportRecord)
    ensures r.category == category && r.playerType == playerType
    ensures Truthy(r.phone) || r.phone == Str("")
    ensures Truthy(r.email) || r.email == Str("")
    ensures Truthy(r.jerseyNumber) || r.jerseyNumber == Str("")
  {
    ImportRecord(
      Field(row, ["NOMBRE COMPLETO", "NAME"], Get(row, "fullName")),
      Field(row, ["CÉDULA", "DNI"], Get(row, "dni")),
      Field(row, ["TELÉFONO", "PHONE", "phone"], Str("")),
      Field(row, ["EMAIL", "email"], Str("")),
      Field(row, ["EQUIPO", "TEAM"], Get(row, "teamName")),
      category, playerType,
      Field(row, ["CAMISETA", "NUMBER", "jerseyNumber"], Str("")))
  }

  /**
   * The mapping callback of the import. Category and type are lower-cased,
   * which throws when the chosen cell is a number.
   */
  function MapImportRow(row: Object): (r: Result<ImportRecord>)
    ensures r.Ok? <==> CategoryField(row).Str? && TypeField(row).Str?
    ensures r.Ok? ==> r.value == RecordFor(row, Lower(CategoryField(row).s), Lower(TypeField(row).s))
  {
    var category := LowerCaseOf(CategoryField(row));
    var playerType := LowerCaseOf(TypeField(row));
    if category.Err? then Err(category.message)
    else if playerType.Err? then Err(playerType.message)
    else Ok(RecordFor(row, category.value, playerType.value))
  }

  /** A field with three headings is `row[h0] || row[h1] || row[h2] || fallback`. */
  lemma FieldOfThree(row: Object, headings: seq<string>, fallback: Value)
    requires |headings| == 3
    ensures Field(row, headings, fallback) ==
            Or(Get(row, headings[0]), Or(Get(row, headings[1]), Or(Get(row, headings[2]), fallback)))
  {
    var vs := Candidates(row, headings) + [fallback];
    assert vs[1..][1..][1..] == [fallback];
    assert OrChain(vs[1..][1..]) == Or(vs[2], fallback);
    assert OrChain(vs[1..]) == Or(vs[1], OrChain(vs[1..][1..]));
    assert OrChain(vs) == Or(vs[0], OrChain(vs[1..]));
  }

  /** The type is lower case and never empty. */
  lemma ImportTypeNonEmpty(row: Object)
    requires MapImportRow(row).Ok?
    ensures var t := MapImportRow(row).value.playerType; t != [] && Lower(t) == t
  {
    var v := TypeField(row);
    LowerIdempotent(v.s);
    LowerEmpty(v.s);
  }

  /** With TIPO, TYPE and playerType all falsy the type is `socio`. */
  lemma ImportTypeDefault(row: Object)
    requires MapImportRow(row).Ok?
    requires !Truthy(Get(row, "TIPO")) && !Truthy(Get(row, "TYPE")) && !Truthy(Get(row, "playerType"))
    ensures MapImportRow(row).value.playerType == "socio"
  {
    TypeFieldFirstTruthy(row);
    LowerSocio();
  }

  lemma LowerSocio()
    ensures Lower("socio") == "socio"
  {
  }

  /** A truthy TIPO cell decides the type, lower-cased. */
  lemma ImportTypeFromTipo(row: Object)
    requires MapImportRow(row).Ok?
    requires Truthy(Get(row, "TIPO"))
    ensures MapImportRow(row).value.playerType == Lower(Get(row, "TIPO").s)
  {
    TypeFieldFirstTruthy(row);
  }

  lemma TypeFieldFirstTruthy(row: Object)
    ensures TypeField(row) ==
            Or(Get(row, "TIPO"), Or(Get(row, "TYPE"), Or(Get(row, "playerType"), Str("socio"))))
  {
    FieldOfThree(row, TypeHeadings, Str("socio"));
  }

  /** The category is the first truthy of its three headings, lower-cased, or empty. */
  lemma ImportCategory(row: Object)
    requires MapImportRow(row).Ok?
    ensures var c := MapImportRow(row).value.category;
      Lower(c) == c &&
      (!Truthy(Get(row, "CATEGORÍA")) && !Truthy(Get(row, "CATEGORY")) && !Truthy(Get(row, "category")) ==> c == "")
  {
    FieldOfThree(row, CategoryHeadings, Str(""));
    LowerIdempotent(CategoryField(row).s);
  }

  /** `jsonData.map(...)`: every row mapped, in order; the first row that throws aborts the whole import. */
  function MapImportRows(rows: seq<Object>): Result<seq<ImportRecord>>
  {
    MapAll(rows, MapImportRow)
  }

  /** What the import does with a sheet: nothing for an empty one, otherwise the mapped records. */
  datatype ImportOutcome = EmptyFile | MappingFailed(message: string) | ToSend(records: seq<ImportRecord>)

  function ImportSheet(rows: seq<Object>): (r: ImportOutcome)
    ensures r == EmptyFile <==> rows == []
    ensures r.ToSend? <==> rows != [] && forall i :: 0 <= i < |rows| ==> MapImportRow(rows[i]).Ok?
    ensures r.ToSend? ==> |r.records| == |rows| && forall i :: 0 <= i < |rows| ==> MapImportRow(rows[i]) == Ok(r.records[i])
    ensures r.MappingFailed? ==> exists i :: FirstErrorAt(rows, MapImportRow, i, r.message)
  {
    if rows == [] then EmptyFile
    else match MapImportRows(rows)
      case Err(e) => MappingFailed(e)
      case Ok(records) => ToSend(records)
  }

  /** The record as the JSON object the bulk endpoint receives. */
  function RecordObject(r: ImportRecord): Object
  {
    [("fullName", r.fullName), ("dni", r.dni), ("phone", r.phone), ("email", r.email),
     ("teamName", r.teamName), ("category", Str(r.category)), ("playerType", Str(r.playerType)),
     ("jerseyNumber", r.jerseyNumber)]
  }

  /**
   * A mapped record always carries a non-empty type (ImportTypeNonEmpty), so the server's
   * `'socio'` default never applies to it; the socio columns, which the
   * import does not send, are stored as null.
   */
  lemma ImportedTypeIsKept(rec: ImportRecord)
    requires rec.playerType != []
    ensures Server.BulkRow(RecordObject(rec)).playerType == Str(rec.playerType)
    ensures Server.BulkRow(RecordObject(rec)).socioName == Null
  {
    var o := RecordObject(rec);
    GetFirst(o, 6, "playerType");
    assert forall j :: 0 <= j < |o| ==> o[j].0 != "socioName";
    GetAbsent(o, "socioName");
  }
}
