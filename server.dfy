/**
 * The request handlers of server.js over an abstract players table:
 * registration, the admin token check and login, the player list, bulk
 * import, deletion and the total of the statistics. The database is a
 * `PlayerTable` whose inserts may be refused; whether a statement succeeds
 * is a parameter of each handler.
 */
module Server {
  import opened Wrappers
  import opened Text
  import opened JsValues
  import opened Sequences
  import opened PgRows
  import opened SqlAdapter

  /** The thirteen writable columns of the players table, in the order of its INSERT statements. */
  datatype PlayerRow = PlayerRow(
    fullName: Value, dni: Value, phone: Value, email: Value, playerType: Value,
    teamName: Value, category: Value, jerseyNumber: Value,
    socioName: Value, socioDni: Value, socioPhone: Value,
    dniPlayerPath: Value, dniSocioPath: Value)

  /** A stored row with the id the table gave it. */
  datatype StoredPlayer = StoredPlayer(id: nat, row: PlayerRow)

  function Ids(players: seq<StoredPlayer>): (r: seq<nat>)
    ensures |r| == |players|
    ensures forall i :: 0 <= i < |players| ==> r[i] == players[i].id
  {
    seq(|players|, i requires 0 <= i < |players| => players[i].id)
  }

  /**
   * The players table. Ids are handed out in increasing order, starting at
   * 1, and are never reused; a refused insert leaves the table as it was.
   */
  class PlayerTable {
    var players: seq<StoredPlayer>
    var nextId: nat

    ghost predicate Valid()
      reads this
    {
      nextId >= 1 &&
      (forall i :: 0 <= i < |players| ==> 1 <= players[i].id < nextId) &&
      (forall i, j :: 0 <= i < j < |players| ==> players[i].id < players[j].id)
    }

    constructor()
      ensures Valid() && players == [] && nextId == 1
    {
      players := [];
      nextId := 1;
    }

    /** `INSERT INTO players ...`: appends the row under a fresh id when the database accepts it. */
    method Insert(row: PlayerRow, accepted: bool) returns (id: Option<nat>)
      requires Valid()
      modifies this
      ensures Valid()
      ensures accepted ==> id == Some(old(nextId)) && nextId == old(nextId) + 1 &&
                           players == old(players) + [StoredPlayer(old(nextId), row)]
      ensures !accepted ==> id == None && nextId == old(nextId) && players == old(players)
    {
      if !accepted {
        return None;
      }
      id := Some(nextId);
      players := players + [StoredPlayer(nextId, row)];
      nextId := nextId + 1;
    }

    /** `DELETE FROM players WHERE id = ?`: removes the row with that id, if any. */
    method Delete(id: nat, accepted: bool)
      requires Valid()
      modifies this
      ensures Valid() && nextId == old(nextId)
      ensures accepted ==> players == RemoveStored(old(players), id)
      ensures !accepted ==> players == old(players)
    {
      if accepted {
        RemoveStoredKeepsOrder(players, id);
        players := RemoveStored(players, id);
      }
    }
  }

  /** The rows whose id differs from `id`. */
  function RemoveStored(players: seq<StoredPlayer>, id: nat): seq<StoredPlayer>
  {
    Filter(players, (p: StoredPlayer) => p.id != id)
  }

  /** Removing by id keeps a table valid: what is left is still in increasing id order. */
  lemma {:induction false} RemoveStoredKeepsOrder(players: seq<StoredPlayer>, id: nat)
    requires forall i, j :: 0 <= i < j < |players| ==> players[i].id < players[j].id
    ensures var r := RemoveStored(players, id);
      (forall i, j :: 0 <= i < j < |r| ==> r[i].id < r[j].id) &&
      (forall p :: p in r <==> p in players && p.id != id)
  {
    if players != [] {
      var tail := players[1..];
      RemoveStoredKeepsOrder(tail, id);
      var r := RemoveStored(players, id);
      if players[0].id != id {
        assert r == [players[0]] + RemoveStored(tail, id);
        forall j | 0 < j < |r| ensures players[0].id < r[j].id {
          assert r[j] in tail;
        }
      }
    }
  }

  /** Deleting an id that is present removes exactly one row; an absent id removes none. */
  lemma {:induction false} RemoveStoredCount(players: seq<StoredPlayer>, id: nat)
    requires forall i, j :: 0 <= i < j < |players| ==> players[i].id < players[j].id
    ensures |RemoveStored(players, id)| == |players| - (if id in Ids(players) then 1 else 0)
    ensures id !in Ids(RemoveStored(players, id))
  {
    if players != [] {
      var tail := players[1..];
      RemoveStoredCount(tail, id);
      assert Ids(players) == [players[0].id] + Ids(tail);
      if players[0].id == id {
        assert id !in Ids(tail) by {
          forall j | 0 <= j < |tail| ensures tail[j].id != id {
            assert tail[j] == players[j + 1];
          }
        }
      } else {
        assert Ids(RemoveStored(players, id)) == [players[0].id] + Ids(RemoveStored(tail, id));
      }
    }
  }

  /** The answers of the modelled routes, with their HTTP status. */
  datatype Response =
    | Inscribed(id: Value)
    | LoggedIn(token: string)
    | PlayerList(rows: seq<Object>)
    | Imported(count: nat)
    | Deleted
    | Stats(byTeam: seq<Object>, byCategory: seq<Object>, total: Value)
    | InvalidData
    | Unauthorized
    | ServerError

  function Status(r: Response): (code: nat)
    ensures code == 200 <==> !(r.InvalidData? || r.Unauthorized? || r.ServerError?)
  {
    match r
    case InvalidData => 400
    case Unauthorized => 401
    case ServerError => 500
    case _ => 200
  }

  /** The one password and the one token of the admin area. */
  const AdminPassword: string := "admin123"

  /** `adminAuth`: the Authorization header must be exactly `Bearer admin123`. */
  predicate AdminAuthorized(authHeader: Option<string>)
  {
    authHeader == Some("Bearer " + AdminPassword)
  }

  lemma AdminAuthorizedExactly(authHeader: Option<string>)
    ensures AdminAuthorized(authHeader) <==> authHeader == Some("Bearer admin123")
  {
    assert "Bearer " + AdminPassword == "Bearer admin123";
  }

  /** `POST /api/admin/login`: strict equality with the password, else 401. */
  function Login(password: Value): (r: Response)
    ensures r == LoggedIn("admin123") <==> password == Str("admin123")
    ensures r.LoggedIn? || r == Unauthorized
  {
    if password == Str(AdminPassword) then LoggedIn(AdminPassword) else Unauthorized
  }

  /** The token login hands out, sent back as `Bearer <token>`, passes the admin check. */
  lemma LoginTokenAuthorizes(password: Value)
    requires Login(password).LoggedIn?
    ensures AdminAuthorized(Some("Bearer " + Login(password).token))
  {
  }

  /** The file path multer reports for an uploaded field, or null. */
  function UploadPath(file: Option<string>): (v: Value)
    ensures v == Null <==> file.None?
    ensures file.Some? ==> v == Str(file.value)
  {
    match file
    case Some(path) => Str(path)
    case None => Null
  }

  /** The row `POST /api/inscripcion` inserts: the form fields as sent, and the two upload paths. */
  function InscriptionRow(body: Object, playerFile: Option<string>, socioFile: Option<string>): (row: PlayerRow)
    ensures row.fullName == Get(body, "fullName") && row.dni == Get(body, "dni")
    ensures row.phone == Get(body, "phone") && row.email == Get(body, "email")
    ensures row.playerType == Get(body, "playerType") && row.teamName == Get(body, "teamName")
    ensures row.category == Get(body, "category") && row.jerseyNumber == Get(body, "jerseyNumber")
    ensures row.socioName == Get(body, "socioName") && row.socioDni == Get(body, "socioDni")
    ensures row.socioPhone == Get(body, "socioPhone")
    ensures row.dniPlayerPath == Null <==> playerFile.None?
    ensures row.dniSocioPath == Null <==> socioFile.None?
    ensures playerFile.Some? ==> row.dniPlayerPath == Str(playerFile.value)
    ensures socioFile.Some? ==> row.dniSocioPath == Str(socioFile.value)
  {
    PlayerRow(
      Get(body, "fullName"), Get(body, "dni"), Get(body, "phone"), Get(body, "email"),
      Get(body, "playerType"), Get(body, "teamName"), Get(body, "category"),
      Get(body, "jerseyNumber"), Get(body, "socioName"), Get(body, "socioDni"),
      Get(body, "socioPhone"), UploadPath(playerFile), UploadPath(socioFile))
  }

  /**
   * `POST /api/inscripcion`: one insert, no authorization. The reported id
   * is the new row's id on both backends: SQLite's `lastID`, or the `id`
   * of the row Postgres returns for `RETURNING id`.
   */
  method Inscribe(db: PlayerTable, body: Object, playerFile: Option<string>, socioFile: Option<string>,
                  accepted: bool) returns (r: Response)
    requires db.Valid()
    modifies db
    ensures db.Valid()
    ensures accepted ==> r == Inscribed(Num(old(db.nextId))) &&
                         db.players == old(db.players) + [StoredPlayer(old(db.nextId), InscriptionRow(body, playerFile, socioFile))] &&
                         db.nextId == old(db.nextId) + 1
    ensures !accepted ==> r == ServerError && db.players == old(db.players) && db.nextId == old(db.nextId)
  {
    var id := db.Insert(InscriptionRow(body, playerFile, socioFile), accepted);
    if id.None? {
      return ServerError;
    }
    LastIdOfReturnedRow(id.value);
    r := Inscribed(LastId([[("id", Num(id.value))]]));
  }

  /** `GET /api/admin/players`: the rows `dbAll` returns. */
  function ListPlayers(authHeader: Option<string>, backend: Backend, rows: Option<seq<Object>>): (r: Response)
    ensures !AdminAuthorized(authHeader) ==> r == Unauthorized
    ensures AdminAuthorized(authHeader) && rows.None? ==> r == ServerError
    ensures AdminAuthorized(authHeader) && rows.Some? ==>
              r == PlayerList(AllRows(backend, rows.value)) && |r.rows| == |rows.value| &&
              (backend == Postgres ==> forall i :: 0 <= i < |r.rows| ==> Canonical(r.rows[i]))
  {
    if !AdminAuthorized(authHeader) then Unauthorized
    else if rows.None? then ServerError
    else
      var all := AllRows(backend, rows.value);
      assert backend == Postgres ==> forall i :: 0 <= i < |all| ==> Canonical(all[i]) by {
        if backend == Postgres {
          forall i | 0 <= i < |all| ensures Canonical(all[i]) {
            MapPgRowCanonical(rows.value[i]);
          }
        }
      }
      PlayerList(all)
  }

  /** The value of `req.body.players`. */
  datatype PlayersField =
    | NotAnArray                          // absent, falsy, or not an array
    | Array(items: seq<Option<Object>>)   // None: an element that is null or undefined

  /** The row the bulk import inserts for one record: the defaults of the handler applied. */
  function BulkRow(p: Object): (row: PlayerRow)
    ensures row.fullName == Get(p, "fullName") && row.dni == Get(p, "dni")
    ensures row.phone == Get(p, "phone") && row.email == Get(p, "email")
    ensures row.teamName == Get(p, "teamName") && row.category == Get(p, "category")
    ensures row.jerseyNumber == Get(p, "jerseyNumber")
    ensures row.playerType == (if Truthy(Get(p, "playerType")) then Get(p, "playerType") else Str("socio"))
    ensures row.socioName == (if Truthy(Get(p, "socioName")) then Get(p, "socioName") else Null)
    ensures row.socioDni == (if Truthy(Get(p, "socioDni")) then Get(p, "socioDni") else Null)
    ensures row.socioPhone == (if Truthy(Get(p, "socioPhone")) then Get(p, "socioPhone") else Null)
    ensures Truthy(row.playerType)
    ensures row.dniPlayerPath == Null && row.dniSocioPath == Null
  {
    PlayerRow(
      Get(p, "fullName"), Get(p, "dni"), Get(p, "phone"), Get(p, "email"),
      Or(Get(p, "playerType"), Str("socio")),
      Get(p, "teamName"), Get(p, "category"), Get(p, "jerseyNumber"),
      Or(Get(p, "socioName"), Null), Or(Get(p, "socioDni"), Null), Or(Get(p, "socioPhone"), Null),
      Null, Null)
  }

  /**
   * Whether the insert for item `i` fails: reading a property of a null
   * element throws, and `rejected` holds the positions the database refuses.
   */
  predicate Fails(items: seq<Option<Object>>, rejected: set<nat>, i: nat)
    requires i < |items|
  {
    items[i].None? || i in rejected
  }

  /** The position of the first failing insert, or |items| when none fails. */
  function FirstFailure(items: seq<Option<Object>>, rejected: set<nat>): (k: nat)
    ensures k <= |items|
    ensures forall j :: 0 <= j < k ==> items[j].Some? && j !in rejected
    ensures k < |items| ==> Fails(items, rejected, k)
  {
    FirstFailureFrom(items, rejected, 0)
  }

  /** The first failing position at or after `i`, or |items|. */
  function FirstFailureFrom(items: seq<Option<Object>>, rejected: set<nat>, i: nat): (k: nat)
    requires i <= |items|
    ensures i <= k <= |items|
    ensures forall j :: i <= j < k ==> items[j].Some? && j !in rejected
    ensures k < |items| ==> Fails(items, rejected, k)
    decreases |items| - i
  {
    if i == |items| || Fails(items, rejected, i) then i
    else FirstFailureFrom(items, rejected, i + 1)
  }

  /** The rows committed by the first `k` inserts of a batch, with ids from `base` on. */
  function Committed(base: nat, items: seq<Option<Object>>, k: nat): (r: seq<StoredPlayer>)
    requires k <= |items|
    requires forall j :: 0 <= j < k ==> items[j].Some?
    ensures |r| == k
    ensures forall j :: 0 <= j < k ==> r[j] == StoredPlayer(base + j, BulkRow(items[j].value))
    ensures forall j :: 0 <= j < k ==> r[j].row.playerType != Str("") && r[j].row.dniPlayerPath == Null
  {
    seq(k, j requires 0 <= j < k => StoredPlayer(base + j, BulkRow(items[j].value)))
  }

  /**
   * `POST /api/admin/players/bulk`: after the admin check and the payload
   * check, one insert per record, in order; the first failure stops the
   * loop with 500 and leaves the earlier inserts committed.
   */
  method BulkImport(db: PlayerTable, authHeader: Option<string>, field: PlayersField, rejected: set<nat>)
    returns (r: Response)
    requires db.Valid()
    modifies db
    ensures db.Valid()
    ensures !AdminAuthorized(authHeader) ==>
              r == Unauthorized && db.players == old(db.players) && db.nextId == old(db.nextId)
    ensures AdminAuthorized(authHeader) && field.NotAnArray? ==>
              r == InvalidData && db.players == old(db.players) && db.nextId == old(db.nextId)
    ensures AdminAuthorized(authHeader) && field.Array? ==>
              var k := FirstFailure(field.items, rejected);
              db.players == old(db.players) + Committed(old(db.nextId), field.items, k) &&
              db.nextId == old(db.nextId) + k &&
              r == (if k == |field.items| then Imported(|field.items|) else ServerError)
    ensures AdminAuthorized(authHeader) && field == Array([]) ==>
              r == Imported(0) && db.players == old(db.players) && db.nextId == old(db.nextId)
  {
    if !AdminAuthorized(authHeader) {
      return Unauthorized;
    }
    if field.NotAnArray? {
      return InvalidData;
    }
    var k := InsertBatch(db, field.items, rejected);
    r := if k == |field.items| then Imported(|field.items|) else ServerError;
  }

  /**
   * The loop of the bulk import: one insert per record, in order, stopping
   * at the first record that is null or that the database refuses. Returns
   * how many records were inserted.
   */
  method InsertBatch(db: PlayerTable, items: seq<Option<Object>>, rejected: set<nat>) returns (k: nat)
    requires db.Valid()
    modifies db
    ensures db.Valid()
    ensures k == FirstFailure(items, rejected)
    ensures db.players == old(db.players) + Committed(old(db.nextId), items, k)
    ensures db.nextId == old(db.nextId) + k
  {
    ghost var stop := FirstFailure(items, rejected);
    var i := 0;
    while i < |items|
      invariant 0 <= i <= stop
      invariant db.Valid()
      invariant db.nextId == old(db.nextId) + i
      invariant db.players == old(db.players) + Committed(old(db.nextId), items, i)
    {
      if items[i].None? {
        return i;
      }
      var id := db.Insert(BulkRow(items[i].value), i !in rejected);
      if id.None? {
        return i;
      }
      assert Committed(old(db.nextId), items, i + 1) == Committed(old(db.nextId), items, i) + [StoredPlayer(old(db.nextId) + i, BulkRow(items[i].value))];
      i := i + 1;
    }
    k := i;
  }

  /** `DELETE /api/admin/players/:id`: success whether or not the id exists. */
  method DeletePlayer(db: PlayerTable, authHeader: Option<string>, id: nat, accepted: bool)
    returns (r: Response)
    requires db.Valid()
    modifies db
    ensures db.Valid() && db.nextId == old(db.nextId)
    ensures AdminAuthorized(authHeader) && accepted ==>
              r == Deleted && db.players == RemoveStored(old(db.players), id)
    ensures !AdminAuthorized(authHeader) ==> r == Unauthorized && db.players == old(db.players)
    ensures AdminAuthorized(authHeader) && !accepted ==> r == ServerError && db.players == old(db.players)
  {
    if !AdminAuthorized(authHeader) {
      return Unauthorized;
    }
    db.Delete(id, accepted);
    r := if accepted then Deleted else ServerError;
  }

  /** `totalRow ? totalRow.total : 0`. */
  function StatsTotal(totalRow: Option<Object>): (v: Value)
    ensures totalRow.None? ==> v == Num(0)
    ensures totalRow.Some? ==> v == Get(totalRow.value, "total")
  {
    match totalRow
    case None => Num(0)
    case Some(row) => Get(row, "total")
  }

  /** `GET /api/admin/stats`, the three query results given. */
  function StatsResponse(authHeader: Option<string>, backend: Backend, byTeam: Option<seq<Object>>,
                         byCategory: Option<seq<Object>>, totalRows: Option<seq<Object>>): (r: Response)
    ensures !AdminAuthorized(authHeader) ==> r == Unauthorized
    ensures AdminAuthorized(authHeader) && (byTeam.None? || byCategory.None? || totalRows.None?) ==> r == ServerError
    ensures AdminAuthorized(authHeader) && totalRows == Some([]) && byTeam.Some? && byCategory.Some? ==>
              r.Stats? && r.total == Num(0)
    ensures AdminAuthorized(authHeader) && byTeam.Some? && byCategory.Some? && totalRows.Some? ==>
              r == Stats(AllRows(backend, byTeam.value), AllRows(backend, byCategory.value),
                         StatsTotal(FirstRow(backend, totalRows.value)))
  {
    if !AdminAuthorized(authHeader) then Unauthorized
    else if byTeam.None? || byCategory.None? || totalRows.None? then ServerError
    else Stats(AllRows(backend, byTeam.value), AllRows(backend, byCategory.value),
               StatsTotal(FirstRow(backend, totalRows.value)))
  }

  /** On Postgres the COUNT(*) that arrives as a digit string is reported as a number. */
  lemma PostgresTotalIsNumber(s: string)
    requires AllDigits(s)
    ensures StatsTotal(FirstRow(Postgres, [[("total", Str(s))]])) == Num(DigitsValue(s))
  {
    assert Lower("total") == "total";
    assert forall i :: 0 <= i < |CamelTable| ==> |CamelTable[i].0| != 5;
    assert Renamed([("total", Str(s))]) == [("total", Num(DigitsValue(s)))];
  }
}
