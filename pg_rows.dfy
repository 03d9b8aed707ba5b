/**
 * Column normalisation of rows returned by the Postgres backend
 * (`mapPgRow` in server.js). Postgres folds unquoted column names to lower
 * case; the front end expects the camelCase names of the SQLite schema, and
 * Postgres returns COUNT(*) as a decimal string.
 */
module PgRows {
  import opened Wrappers
  import opened Text
  import opened JsValues

  /** The rename table: lower-case column name, canonical camelCase field name. */
  const CamelTable: seq<(string, string)> := [
    ("fullname", "fullName"),
    ("playertype", "playerType"),
    ("teamname", "teamName"),
    ("jerseynumber", "jerseyNumber"),
    ("socioname", "socioName"),
    ("sociodni", "socioDni"),
    ("sociophone", "socioPhone"),
    ("dniplayerpath", "dniPlayerPath"),
    ("dnisociopath", "dniSocioPath"),
    ("createdat", "createdAt")
  ]

  /** The canonical name the table gives `lk`, if any. */
  function Lookup(table: seq<(string, string)>, lk: string): (r: Option<string>)
    ensures r.Some? ==> exists i :: 0 <= i < |table| && table[i] == (lk, r.value)
    ensures r.None? ==> forall i :: 0 <= i < |table| ==> table[i].0 != lk
  {
    if table == [] then None
    else if table[0].0 == lk then Some(table[0].1)
    else Lookup(table[1..], lk)
  }

  /** Every canonical name lower-cases back to the table key it stands beside. */
  lemma CamelTableRoundTrip(i: nat)
    requires i < |CamelTable|
    ensures Lower(CamelTable[i].1) == CamelTable[i].0
  {
    if i < 5 {
      CamelTableRoundTripFront(i);
    } else {
      CamelTableRoundTripBack(i);
    }
  }

  lemma CamelTableRoundTripFront(i: nat)
    requires i < 5
    ensures Lower(CamelTable[i].1) == CamelTable[i].0
  {
    if i == 0 {} else if i == 1 {} else if i == 2 {} else if i == 3 {} else {}
  }

  lemma CamelTableRoundTripBack(i: nat)
    requires 5 <= i < |CamelTable|
    ensures Lower(CamelTable[i].1) == CamelTable[i].0
  {
    if i == 5 {} else if i == 6 {} else if i == 7 {} else if i == 8 {} else {}
  }

  /**
   * The output name of a column: the table's canonical name when the
   * lower-cased column name is one of its keys, otherwise the column name
   * as it came. The lookup consults the table's own entries only.
   */
  function CamelKey(key: string): (r: string)
    ensures Lookup(CamelTable, Lower(key)).Some? ==> r == Lookup(CamelTable, Lower(key)).value
    ensures Lookup(CamelTable, Lower(key)).Some? ==> Lower(r) == Lower(key)
    ensures Lookup(CamelTable, Lower(key)).None? ==> r == key
  {
    match Lookup(CamelTable, Lower(key))
    case Some(camel) =>
      assert Lower(camel) == Lower(key) by {
        var i :| 0 <= i < |CamelTable| && CamelTable[i] == (Lower(key), camel);
        CamelTableRoundTrip(i);
      }
      camel
    case None => key
  }

  /** A column whose lower-cased name is the i-th table key comes out under the i-th canonical name. */
  lemma CamelKeyRenamesTableEntry(key: string, i: nat)
    requires i < |CamelTable| && Lower(key) == CamelTable[i].0
    ensures CamelKey(key) == CamelTable[i].1
  {
    var r := Lookup(CamelTable, Lower(key));
    assert r.Some?;
    var j :| 0 <= j < |CamelTable| && CamelTable[j] == (Lower(key), r.value);
    CamelTableKeysDistinct(i, j);
  }

  /** No key appears twice in the rename table. */
  lemma CamelTableKeysDistinct(i: nat, j: nat)
    requires i < |CamelTable| && j < |CamelTable| && CamelTable[i].0 == CamelTable[j].0
    ensures i == j
  {
    CamelTableRoundTrip(i);
    CamelTableRoundTrip(j);
  }

  /** The rename the table exists for: `fullname` in any case comes out as `fullName`. */
  lemma FullNameRenamed()
    ensures CamelKey("fullname") == "fullName"
    ensures CamelKey("FULLNAME") == "fullName"
  {
    assert Lower("FULLNAME") == "fullname";
    CamelKeyRenamesTableEntry("fullname", 0);
    CamelKeyRenamesTableEntry("FULLNAME", 0);
  }

  /** What `String(Object)` gives in Node.js. */
  const ObjectConstructorSource: string := "function Object() { [native code] }"

  /**
   * The lookup as written: indexing an object literal also finds the
   * properties it inherits from Object.prototype. Of those, only
   * `constructor` and `__proto__` are all lower case, so only they can be
   * hit by a lower-cased key; both are truthy, and using them as a property
   * name converts them to a string.
   */
  function CamelKeyAsWritten(key: string): (r: string)
    ensures Lookup(CamelTable, Lower(key)).Some? ==> r == CamelKey(key)
  {
    var lk := Lower(key);
    match Lookup(CamelTable, lk)
    case Some(camel) => camel
    case None =>
      if lk == "constructor" then ObjectConstructorSource
      else if lk == "__proto__" then "[object Object]"
      else key
  }

  /** A column named `constructor` is renamed by the lookup as written and kept by the corrected one. */
  lemma ConstructorColumnRenamed()
    ensures CamelKeyAsWritten("constructor") == ObjectConstructorSource
    ensures CamelKeyAsWritten("constructor") != "constructor"
    ensures CamelKey("constructor") == "constructor"
  {
    assert Lower("constructor") == "constructor";
    assert forall i :: 0 <= i < |CamelTable| ==> |CamelTable[i].0| != 11;
  }

  /** Canonical names are fixed points of the renaming. */
  lemma CamelKeyIdempotent(key: string)
    ensures CamelKey(CamelKey(key)) == CamelKey(key)
  {
  }

  /** A lower-case column name that the table renames is never a canonical name. */
  lemma CamelKeyInjectiveOnLowerCase(k1: string, k2: string)
    requires Lower(k1) == k1 && Lower(k2) == k2
    requires CamelKey(k1) == CamelKey(k2)
    ensures k1 == k2
  {
  }

  /** Columns whose values `Number` is applied to. */
  predicate IsCountKey(key: string)
  {
    Lower(key) == "count" || Lower(key) == "total"
  }

  /** The value stored under a column's output name. */
  function MappedValue(key: string, v: Value): Value
  {
    if IsCountKey(key) then ToNumber(v) else v
  }

  /** Each column's output entry: renamed key, coerced value. */
  function Renamed(row: Object): (r: Object)
    ensures |r| == |row|
  {
    seq(|row|, i requires 0 <= i < |row| => (CamelKey(row[i].0), MappedValue(row[i].0, row[i].1)))
  }

  /** `mapPgRow` as a value: an absent row stays absent. */
  function Normalized(row: Option<Object>): (r: Option<Object>)
    ensures r.None? <==> row.None?
    ensures r.Some? ==> Canonical(r.value)
  {
    match row
    case None => None
    case Some(o) => MapPgRowCanonical(o); Some(Assign(Renamed(o)))
  }

  /**
   * `mapPgRow`: builds the mapped object key by key, renaming each column
   * and turning `count`/`total` values into numbers.
   */
  method MapPgRow(row: Option<Object>) returns (mapped: Option<Object>)
    ensures mapped == Normalized(row)
  {
    if row.None? {
      return row;
    }
    var o := row.value;
    var acc: Object := [];
    var i := 0;
    while i < |o|
      invariant 0 <= i <= |o|
      invariant acc == Assign(Renamed(o[..i]))
    {
      var key := o[i].0;
      var camelKey := CamelKey(key);
      var value := o[i].1;
      if IsCountKey(key) {
        value := ToNumber(value);
      }
      acc := Put(acc, camelKey, value);
      assert Renamed(o[..i + 1])[..i] == Renamed(o[..i]);
      i := i + 1;
    }
    assert o[..|o|] == o;
    return Some(acc);
  }

  /**
   * The output keys are exactly the renamed input keys, each once; in
   * particular every key outside the table survives verbatim.
   */
  lemma MapPgRowKeys(row: Object)
    ensures DistinctKeys(Assign(Renamed(row)))
    ensures forall x :: x in Keys(Assign(Renamed(row))) <==>
                        exists i :: 0 <= i < |row| && CamelKey(row[i].0) == x
  {
    var r := Renamed(row);
    AssignKeys(r);
    AssignKeysDistinct(r);
    forall x ensures x in Keys(r) <==> exists i :: 0 <= i < |row| && CamelKey(row[i].0) == x {
      if x in Keys(r) {
        var i :| 0 <= i < |r| && Keys(r)[i] == x;
        assert r[i].0 == CamelKey(row[i].0);
      }
      if exists i :: 0 <= i < |row| && CamelKey(row[i].0) == x {
        var i :| 0 <= i < |row| && CamelKey(row[i].0) == x;
        assert Keys(r)[i] == x;
      }
    }
  }

  /**
   * Each output key holds the value, coerced by `Number` under `count` and
   * `total`, of the last input column that is renamed to it.
   */
  lemma MapPgRowValue(row: Object, i: nat)
    requires i < |row|
    requires forall j :: i < j < |row| ==> CamelKey(row[j].0) != CamelKey(row[i].0)
    ensures Get(Assign(Renamed(row)), CamelKey(row[i].0)) == MappedValue(row[i].0, row[i].1)
  {
    AssignLastWins(Renamed(row), i);
  }

  /**
   * A row as Postgres returns it (distinct, lower-case column names) maps
   * column by column: same length, same order, renamed keys, coerced counts.
   */
  lemma PostgresRowPointwise(row: Object)
    requires DistinctKeys(row)
    requires forall i :: 0 <= i < |row| ==> Lower(row[i].0) == row[i].0
    ensures Assign(Renamed(row)) == Renamed(row)
  {
    var r := Renamed(row);
    forall i, j | 0 <= i < j < |r| ensures r[i].0 != r[j].0 {
      if CamelKey(row[i].0) == CamelKey(row[j].0) {
        CamelKeyInjectiveOnLowerCase(row[i].0, row[j].0);
      }
    }
    AssignDistinct(r);
  }

  /** A row already in output form: distinct canonical keys and coerced counts. */
  predicate Canonical(o: Object)
  {
    DistinctKeys(o) &&
    forall i :: 0 <= i < |o| ==> CamelKey(o[i].0) == o[i].0 && MappedValue(o[i].0, o[i].1) == o[i].1
  }

  lemma MappedValueIdempotent(key: string, v: Value)
    ensures MappedValue(CamelKey(key), MappedValue(key, v)) == MappedValue(key, v)
  {
    ToNumberIdempotent(v);
  }

  /** Every mapped row is canonical. */
  lemma MapPgRowCanonical(row: Object)
    ensures Canonical(Assign(Renamed(row)))
  {
    var r := Renamed(row);
    var a := Assign(r);
    MapPgRowKeys(row);
    AssignKeys(r);
    AssignKeysDistinct(r);
    forall i | 0 <= i < |a| ensures CamelKey(a[i].0) == a[i].0 && MappedValue(a[i].0, a[i].1) == a[i].1 {
      var k := a[i].0;
      assert k in Keys(a);
      var j :| 0 <= j < |row| && CamelKey(row[j].0) == k;
      var last := LastRenamedTo(row, j);
      AssignLastWins(r, last);
      GetAt(a, i);
      CamelKeyIdempotent(row[last].0);
      MappedValueIdempotent(row[last].0, row[last].1);
    }
  }

  /** The last column at or after `j` that is renamed to the same name as column `j`. */
  function LastRenamedTo(row: Object, j: nat): (k: nat)
    requires j < |row|
    ensures j <= k < |row| && CamelKey(row[k].0) == CamelKey(row[j].0)
    ensures forall m :: k < m < |row| ==> CamelKey(row[m].0) != CamelKey(row[j].0)
    decreases |row| - j
  {
    if forall m :: j < m < |row| ==> CamelKey(row[m].0) != CamelKey(row[j].0) then j
    else
      var m :| j < m < |row| && CamelKey(row[m].0) == CamelKey(row[j].0);
      LastRenamedTo(row, m)
  }

  /** Mapping a row that is already canonical changes nothing. */
  lemma CanonicalFixed(o: Object)
    requires Canonical(o)
    ensures Assign(Renamed(o)) == o
  {
    assert Renamed(o) == o;
    AssignDistinct(o);
  }

  /** `mapPgRow` is idempotent. */
  lemma MapPgRowIdempotent(row: Option<Object>)
    ensures Normalized(Normalized(row)) == Normalized(row)
  {
    if row.Some? {
      MapPgRowCanonical(row.value);
      CanonicalFixed(Assign(Renamed(row.value)));
    }
  }

  /** A Postgres count column holding "42" comes out as the number 42. */
  lemma CountStringBecomesNumber()
    ensures Normalized(Some([("count", Str("42"))])) == Some([("count", Num(42))])
  {
    CountKeyKept();
    FortyTwo();
    var r := Renamed([("count", Str("42"))]);
    assert r == [("count", Num(42))];
    assert Assign(r) == Put([], "count", Num(42));
  }
  /** No table key has five letters, so `count` keeps its name. */
  lemma CountKeyKept()
    ensures CamelKey("count") == "count" && IsCountKey("count")
  {
    assert Lower("count") == "count";
    assert forall i :: 0 <= i < |CamelTable| ==> |CamelTable[i].0| != 5;
  }

  lemma FortyTwo()
    ensures ToNumber(Str("42")) == Num(42)
  {
    assert AllDigits("42");
    assert "42"[..1] == "4";
    assert DigitsValue("42") == 42;
  }

}
