/**
 * The query helpers of server.js (`dbRun`, `dbAll`, `dbGet`) as string and
 * row transformations. The backend is chosen once from the environment;
 * on Postgres each `?` becomes an ordinal parameter, INSERT statements get
 * ` RETURNING id`, and returned rows go through `mapPgRow`. Running the
 * statement itself is the database's business and is not modelled here;
 * its effect on the players table is modelled by Server.PlayerTable.
 */
module SqlAdapter {
  import opened Wrappers
  import opened Text
  import opened JsValues
  import opened PgRows

  datatype Backend = Sqlite | Postgres

  /** `!!process.env.DATABASE_URL`: Postgres exactly when the variable is set and non-empty. */
  function SelectBackend(databaseUrl: Option<string>): (b: Backend)
    ensures b == Postgres <==> databaseUrl.Some? && databaseUrl.value != []
  {
    if databaseUrl.Some? && databaseUrl.value != [] then Postgres else Sqlite
  }

  /** The number of `?` characters in `s`. */
  function QuestionMarks(s: string): nat
  {
    if s == [] then 0 else (if s[0] == '?' then 1 else 0) + QuestionMarks(s[1..])
  }

  /** `s.replace(/\?/g, () => '$' + (i++))` with the counter starting at `k`. */
  function Placeholders(s: string, k: nat): string
  {
    if s == [] then []
    else if s[0] == '?' then "$" + Decimal(k) + Placeholders(s[1..], k + 1)
    else [s[0]] + Placeholders(s[1..], k)
  }

  /**
   * The placeholder rewrite of `dbRun` and `dbAll`: a counter starting at 1,
   * incremented at each `?`.
   */
  method RewritePlaceholders(sql: string) returns (pgSql: string)
    ensures pgSql == Placeholders(sql, 1)
  {
    var i := 1;
    var n := 0;
    pgSql := "";
    while n < |sql|
      invariant 0 <= n <= |sql|
      invariant i >= 1
      invariant pgSql + Placeholders(sql[n..], i) == Placeholders(sql, 1)
    {
      assert sql[n..][1..] == sql[n + 1..];
      if sql[n] == '?' {
        pgSql := pgSql + "$" + Decimal(i);
        i := i + 1;
      } else {
        pgSql := pgSql + [sql[n]];
      }
      n := n + 1;
    }
  }

  /** No `?` is left after the rewrite. */
  lemma {:induction false} PlaceholdersLeaveNoQuestionMark(s: string, k: nat)
    ensures '?' !in Placeholders(s, k)
  {
    if s != [] {
      PlaceholdersLeaveNoQuestionMark(s[1..], if s[0] == '?' then k + 1 else k);
    }
  }

  /** A statement without `?` is left as it is. */
  lemma {:induction false} PlaceholdersNone(s: string, k: nat)
    requires '?' !in s
    ensures Placeholders(s, k) == s && QuestionMarks(s) == 0
  {
    if s != [] {
      assert s == [s[0]] + s[1..];
      PlaceholdersNone(s[1..], k);
    }
  }

  /** Rewriting a concatenation continues the numbering where the first part stopped. */
  lemma {:induction false} PlaceholdersAppend(a: string, b: string, k: nat)
    ensures Placeholders(a + b, k) == Placeholders(a, k) + Placeholders(b, k + QuestionMarks(a))
  {
    if a == [] {
      assert a + b == b;
    } else {
      var k' := if a[0] == '?' then k + 1 else k;
      var head := if a[0] == '?' then "$" + Decimal(k) else [a[0]];
      PlaceholdersAppend(a[1..], b, k');
      PlaceholdersCons(a, b, k);
      AppendAssoc(head, Placeholders(a[1..], k'), Placeholders(b, k' + QuestionMarks(a[1..])));
    }
  }

  lemma AppendAssoc(x: string, y: string, z: string)
    ensures x + (y + z) == (x + y) + z
  {
  }

  /** One step of the rewrite on a concatenation whose first part is not empty. */
  lemma PlaceholdersCons(a: string, b: string, k: nat)
    requires a != []
    ensures var k' := if a[0] == '?' then k + 1 else k;
            var head := if a[0] == '?' then "$" + Decimal(k) else [a[0]];
            Placeholders(a, k) == head + Placeholders(a[1..], k') &&
            Placeholders(a + b, k) == head + Placeholders(a[1..] + b, k') &&
            QuestionMarks(a) == (if a[0] == '?' then 1 else 0) + QuestionMarks(a[1..])
  {
    assert (a + b)[0] == a[0] && (a + b)[1..] == a[1..] + b;
  }

  /** The segments joined back with `?` between them. */
  function JoinWithQuestionMarks(segs: seq<string>): string
    requires segs != []
  {
    if |segs| == 1 then segs[0] else segs[0] + "?" + JoinWithQuestionMarks(segs[1..])
  }

  /** The segments joined with `$k`, `$k+1`, ... between them. */
  function JoinNumbered(segs: seq<string>, k: nat): string
    requires segs != []
  {
    if |segs| == 1 then segs[0] else segs[0] + "$" + Decimal(k) + JoinNumbered(segs[1..], k + 1)
  }

  /**
   * Cut a statement at its `?` characters into segments s0 ? s1 ? ... ? sm.
   * The rewrite keeps every segment as it is, in order, and puts `$j` in
   * place of the j-th `?`.
   */
  lemma {:induction false} PlaceholdersNumbered(segs: seq<string>, k: nat)
    requires segs != []
    requires forall j :: 0 <= j < |segs| ==> '?' !in segs[j]
    ensures Placeholders(JoinWithQuestionMarks(segs), k) == JoinNumbered(segs, k)
  {
    PlaceholdersNone(segs[0], k);
    if |segs| > 1 {
      var rest := JoinWithQuestionMarks(segs[1..]);
      assert segs[0] + "?" + rest == segs[0] + ("?" + rest);
      PlaceholdersAppend(segs[0], "?" + rest, k);
      assert ("?" + rest)[1..] == rest;
      PlaceholdersNumbered(segs[1..], k + 1);
    }
  }

  /** `pgSql.trim().toLowerCase().startsWith('insert')`. */
  predicate IsInsert(pgSql: string)
  {
    "insert" <= Lower(TrimEnd(TrimStart(pgSql)))
  }

  /** A string and a prefix of it of length six or more agree on whether they lower-case to `insert...`. */
  lemma LowerPrefixSix(u: string, t: string)
    requires 6 <= |u| <= |t| && u == t[..|u|]
    ensures ("insert" <= Lower(u)) == ("insert" <= Lower(t))
  {
    assert forall i :: 0 <= i < 6 ==> Lower(u)[i] == Lower(t)[i];
    assert Lower(u)[..6] == Lower(t)[..6];
  }

  /**
   * The INSERT test looks only at the first word: after the leading white
   * space, the next six characters spell `insert` in any case.
   */
  lemma IsInsertFirstWord(pgSql: string)
    ensures IsInsert(pgSql) <==> "insert" <= Lower(TrimStart(pgSql))
  {
    var t := TrimStart(pgSql);
    var u := TrimEnd(t);
    if "insert" <= Lower(t) {
      InsertPrefixLetters(t);
    }
    if |u| >= 6 {
      LowerPrefixSix(u, t);
    }
  }

  /** A string that lower-cases to `insert...` has no white space among its first six characters. */
  lemma InsertPrefixLetters(t: string)
    requires "insert" <= Lower(t)
    ensures |TrimEnd(t)| >= 6
  {
    assert Lower(t)[5] == 't';
    assert LowerChar(t[5]) == 't';
    assert !IsWhitespace(t[5]);
  }

  /** The statement `dbRun` sends to Postgres after the rewrite. */
  function WithReturning(pgSql: string): (r: string)
    ensures pgSql <= r
    ensures r == pgSql <==> !IsInsert(pgSql)
    ensures IsInsert(pgSql) ==> r[|pgSql|..] == " RETURNING id"
  {
    if IsInsert(pgSql) then pgSql + " RETURNING id" else pgSql
  }

  /** Adding the clause does not change whether the statement reads as an INSERT. */
  lemma WithReturningStillInsert(pgSql: string)
    ensures IsInsert(WithReturning(pgSql)) == IsInsert(pgSql)
  {
    if IsInsert(pgSql) {
      IsInsertAppend(pgSql, " RETURNING id");
    }
  }

  /** Text appended to an INSERT statement leaves it an INSERT statement. */
  lemma IsInsertAppend(s: string, x: string)
    requires IsInsert(s)
    ensures IsInsert(s + x)
  {
    IsInsertFirstWord(s);
    IsInsertFirstWord(s + x);
    var t := TrimStart(s);
    TrimStartAppend(s, x);
    LowerPrefixSix(t, t + x);
  }

  /** The full Postgres statement of `dbRun`. */
  function PgRunStatement(sql: string): (pgSql: string)
    ensures '?' !in pgSql
  {
    var rewritten := Placeholders(sql, 1);
    PlaceholdersLeaveNoQuestionMark(sql, 1);
    NoQuestionMarkAppend(rewritten, " RETURNING id");
    WithReturning(rewritten)
  }

  /**
   * The statement sent to Postgres is an INSERT exactly when the rewritten
   * one is, and only an INSERT gets the extra clause.
   */
  lemma PgRunStatementInsert(sql: string)
    ensures IsInsert(PgRunStatement(sql)) <==> IsInsert(Placeholders(sql, 1))
    ensures !IsInsert(Placeholders(sql, 1)) ==> PgRunStatement(sql) == Placeholders(sql, 1)
  {
    WithReturningStillInsert(Placeholders(sql, 1));
  }

  lemma NoQuestionMarkAppend(a: string, b: string)
    requires '?' !in a && b == " RETURNING id"
    ensures '?' !in a + b
  {
  }

  /** `res.rows[0]?.id || 0`: the id of the first returned row, or 0. */
  function LastId(rows: seq<Object>): (r: Value)
    ensures rows == [] ==> r == Num(0)
    ensures r == Num(0) || Truthy(r)
    ensures rows != [] && Truthy(Get(rows[0], "id")) ==> r == Get(rows[0], "id")
  {
    if rows == [] then Num(0) else Or(Get(rows[0], "id"), Num(0))
  }

  /** The row an `INSERT ... RETURNING id` yields reports the new id. */
  lemma LastIdOfReturnedRow(id: nat)
    requires id >= 1
    ensures LastId([[("id", Num(id))]]) == Num(id)
  {
  }

  /** `dbAll` on Postgres: every returned row goes through `mapPgRow`. */
  function NormalizedRows(rows: seq<Object>): (r: seq<Object>)
    ensures |r| == |rows|
    ensures forall i :: 0 <= i < |rows| ==> Some(r[i]) == Normalized(Some(rows[i]))
  {
    seq(|rows|, i requires 0 <= i < |rows| => Assign(Renamed(rows[i])))
  }

  /** Normalising the rows of `dbAll` twice is normalising them once. */
  lemma NormalizedRowsIdempotent(rows: seq<Object>)
    ensures NormalizedRows(NormalizedRows(rows)) == NormalizedRows(rows)
  {
    forall i | 0 <= i < |rows|
      ensures NormalizedRows(NormalizedRows(rows))[i] == NormalizedRows(rows)[i]
    {
      MapPgRowIdempotent(Some(rows[i]));
    }
  }

  /** The rows `dbAll` hands to its caller. */
  function AllRows(backend: Backend, rows: seq<Object>): (r: seq<Object>)
    ensures |r| == |rows|
    ensures backend == Sqlite ==> r == rows
  {
    match backend
    case Sqlite => rows
    case Postgres => NormalizedRows(rows)
  }

  /** `dbGet`: the first row `dbAll` would give, or nothing (`rows[0] || null`). */
  function FirstRow(backend: Backend, rows: seq<Object>): (r: Option<Object>)
    ensures r.None? <==> rows == []
    ensures r.Some? ==> r.value == AllRows(backend, rows)[0]
  {
    var all := AllRows(backend, rows);
    if all == [] then None else Some(all[0])
  }
}
