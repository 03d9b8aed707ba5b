/**
 * The player list of admin.js: the combined search/category/team filter
 * shared by the table and the spreadsheet export, the export's grouping by
 * category and ordering by team, the top category of the dashboard, and
 * the local removal after a delete.
 */
module AdminList {
  import opened Wrappers
  import opened Text
  import opened JsValues
  import opened Sequences

  /**
   * A player as the list endpoint returns it. Text columns the database
   * holds as NULL are the empty string here.
   */
  datatype Player = Player(
    id: int, fullName: string, dni: string, phone: string, email: string,
    playerType: string, teamName: string, category: string, jerseyNumber: string,
    socioName: string, socioDni: string)

  /** The raw values of the search box and the two filter selects. */
  datatype Filters = Filters(text: string, category: string, team: string)

  const NoFilters: Filters := Filters("", "", "")

  /** The filter callback of `renderTable` and `exportToExcel`. */
  predicate Matches(p: Player, f: Filters)
  {
    Contains(Lower(p.fullName + " " + p.dni + " " + p.teamName), Lower(f.text)) &&
    (Lower(f.category) != [] ==> Lower(p.category) == Lower(f.category)) &&
    (Lower(f.team) != [] ==> Lower(p.teamName) == Lower(f.team))
  }

  /** The players the current filters let through. */
  function Filtered(all: seq<Player>, f: Filters): seq<Player>
  {
    Filter(all, (p: Player) => Matches(p, f))
  }

  /**
   * A player passes exactly when the search text occurs in its name, id
   * number and team, and each non-empty select equals its category and
   * team, all compared in lower case; the filtered list keeps the order of
   * the full list.
   */
  lemma FilteredSpec(all: seq<Player>, f: Filters)
    ensures forall p :: p in Filtered(all, f) <==>
      p in all &&
      (exists i :: OccursAt(Lower(p.fullName + " " + p.dni + " " + p.teamName), Lower(f.text), i)) &&
      (f.category != [] ==> Lower(p.category) == Lower(f.category)) &&
      (f.team != [] ==> Lower(p.teamName) == Lower(f.team))
    ensures IsSubsequence(Filtered(all, f), all)
    ensures forall p :: multiset(Filtered(all, f))[p] == if Matches(p, f) then multiset(all)[p] else 0
  {
    FilterIsSubsequence(all, (p: Player) => Matches(p, f));
    forall p {
      FilterMultiset(all, (p: Player) => Matches(p, f), p);
    }
    LowerEmpty(f.category);
    LowerEmpty(f.team);
    forall p: Player {
      ContainsIffOffset(Lower(p.fullName + " " + p.dni + " " + p.teamName), Lower(f.text));
    }
  }

  /** With the search box and both selects empty every player is listed. */
  lemma NoFiltersListAll(all: seq<Player>)
    ensures Filtered(all, NoFilters) == all
  {
    forall i | 0 <= i < |all| ensures Matches(all[i], NoFilters) {
      var p := all[i];
      ContainsEmpty(Lower(p.fullName + " " + p.dni + " " + p.teamName));
    }
    FilterAll(all, (p: Player) => Matches(p, NoFilters));
  }

  /** The filters compare in lower case, so the case typed does not matter. */
  lemma FiltersIgnoreCase(p: Player, f: Filters)
    ensures Matches(p, f) <==> Matches(p, Filters(Lower(f.text), Lower(f.category), Lower(f.team)))
  {
    LowerIdempotent(f.text);
    LowerIdempotent(f.category);
    LowerIdempotent(f.team);
  }

  /** One row of the players table. */
  datatype TableRow = TableRow(fullName: string, dni: string, team: string, category: string,
                               playerType: string, id: int)

  /**
   * The displayed row of a player: name and id number as stored, the team
   * with spaces for underscores, category and type in upper case.
   */
  function RowOf(p: Player): (r: TableRow)
    ensures r.fullName == p.fullName && r.dni == p.dni && r.id == p.id
    ensures |r.team| == |p.teamName| && '_' !in r.team
    ensures forall i :: 0 <= i < |p.teamName| ==>
              r.team[i] == UpperChar(if p.teamName[i] == '_' then ' ' else p.teamName[i])
    ensures Upper(r.category) == r.category && Lower(r.category) == Lower(p.category)
    ensures Upper(r.playerType) == r.playerType && Lower(r.playerType) == Lower(p.playerType)
  {
    FormatTeamNoUnderscore(p.teamName);
    UpperIdempotent(p.category);
    UpperIdempotent(p.playerType);
    LowerUpper(p.category);
    LowerUpper(p.playerType);
    TableRow(p.fullName, p.dni, FormatTeam(p.teamName), Upper(p.category), Upper(p.playerType), p.id)
  }

  /** One line of an exported sheet, from EQUIPO to CI SOCIO. */
  datatype ExportRow = ExportRow(team: string, fullName: string, dni: string, phone: string,
                                 email: string, jersey: string, playerType: string,
                                 socioName: string, socioDni: string)

  /** `value || 'N/A'` on a text field. */
  function OrNA(s: string): (r: string)
    ensures r != []
    ensures s != [] ==> r == s
    ensures s == [] ==> r == "N/A"
  {
    if s != [] then s else "N/A"
  }

  /** The exported line of a player: the optional columns are never blank. */
  function ExportRowOf(p: Player): (r: ExportRow)
    ensures r.dni == p.dni && r.phone == p.phone && r.email == p.email
    ensures |r.team| == |p.teamName| && '_' !in r.team
    ensures forall i :: 0 <= i < |p.teamName| ==>
              r.team[i] == UpperChar(if p.teamName[i] == '_' then ' ' else p.teamName[i])
    ensures Upper(r.fullName) == r.fullName && Lower(r.fullName) == Lower(p.fullName)
    ensures Upper(r.playerType) == r.playerType && Lower(r.playerType) == Lower(p.playerType)
    ensures r.jersey != [] && r.socioName != [] && r.socioDni != []
    ensures p.jerseyNumber != [] ==> r.jersey == p.jerseyNumber
    ensures p.jerseyNumber == [] ==> r.jersey == "N/A"
    ensures p.socioName != [] ==> r.socioName == p.socioName
    ensures p.socioName == [] ==> r.socioName == "N/A"
    ensures p.socioDni != [] ==> r.socioDni == p.socioDni
    ensures p.socioDni == [] ==> r.socioDni == "N/A"
  {
    FormatTeamNoUnderscore(p.teamName);
    UpperIdempotent(p.fullName);
    UpperIdempotent(p.playerType);
    LowerUpper(p.fullName);
    LowerUpper(p.playerType);
    ExportRow(FormatTeam(p.teamName), Upper(p.fullName), p.dni, p.phone, p.email,
              OrNA(p.jerseyNumber), Upper(p.playerType), OrNA(p.socioName), OrNA(p.socioDni))
  }

  /** A named worksheet. */
  datatype Sheet = Sheet(name: string, rows: seq<ExportRow>)

  function CategoryOf(p: Player): string { p.category }

  function TeamOf(p: Player): string { p.teamName }

  /** `filtered.map(p => p.category)`. */
  function Categories(filtered: seq<Player>): (r: seq<string>)
    ensures |r| == |filtered|
    ensures forall i :: 0 <= i < |filtered| ==> r[i] == filtered[i].category
  {
    seq(|filtered|, i requires 0 <= i < |filtered| => filtered[i].category)
  }

  /** The sheet names in order: `[...new Set(filtered.map(p => p.category))]`. */
  function SheetCategories(filtered: seq<Player>): seq<string>
  {
    Dedup(Categories(filtered))
  }

  /**
   * The players of one sheet: those whose category is `cat` (compared as
   * stored, case and all), sorted by team under the comparator `le`.
   */
  function SheetPlayers(filtered: seq<Player>, cat: string, le: (string, string) -> bool): seq<Player>
  {
    SortBy(WithKey(filtered, CategoryOf, cat), TeamOf, le)
  }

  /** The sheet of one category: named in upper case, one line per player of the category, sorted by team. */
  function SheetFor(filtered: seq<Player>, cat: string, le: (string, string) -> bool): (sh: Sheet)
    ensures sh.name == Upper(cat)
    ensures |sh.rows| == |WithKey(filtered, CategoryOf, cat)|
    ensures forall i :: 0 <= i < |sh.rows| ==> sh.rows[i] == ExportRowOf(SheetPlayers(filtered, cat, le)[i])
  {
    var ps := SheetPlayers(filtered, cat, le);
    Sheet(Upper(cat), seq(|ps|, i requires 0 <= i < |ps| => ExportRowOf(ps[i])))
  }

  /** The workbook of a non-empty filtered list: one sheet per category. */
  function Workbook(filtered: seq<Player>, le: (string, string) -> bool): (w: seq<Sheet>)
    ensures |w| == |SheetCategories(filtered)|
  {
    var cats := SheetCategories(filtered);
    seq(|cats|, i requires 0 <= i < |cats| => SheetFor(filtered, cats[i], le))
  }

  /**
   * The sheet categories are the distinct categories of the filtered
   * players, without repetition, in order of first appearance.
   */
  lemma SheetCategoriesSpec(filtered: seq<Player>)
    ensures forall c :: c in SheetCategories(filtered) <==> exists p :: p in filtered && p.category == c
    ensures NoDuplicates(SheetCategories(filtered))
    ensures FirstSeenOrder(Categories(filtered), SheetCategories(filtered))
  {
    DedupFirstSeenOrder(Categories(filtered));
    forall c ensures c in SheetCategories(filtered) <==> exists p :: p in filtered && p.category == c {
      if c in Categories(filtered) {
        var i :| 0 <= i < |filtered| && Categories(filtered)[i] == c;
        assert filtered[i] in filtered;
      }
      if exists p :: p in filtered && p.category == c {
        var p :| p in filtered && p.category == c;
        var i :| 0 <= i < |filtered| && filtered[i] == p;
        assert Categories(filtered)[i] == c;
      }
    }
  }

  /**
   * The sheets partition the filtered list: together they hold every
   * filtered player exactly as often as the list does.
   */
  lemma ExportPartition(filtered: seq<Player>)
    ensures Groups(filtered, CategoryOf, SheetCategories(filtered)) == multiset(filtered)
  {
    var cats := SheetCategories(filtered);
    forall i | 0 <= i < |filtered| ensures CategoryOf(filtered[i]) in cats {
      assert Categories(filtered)[i] == filtered[i].category;
    }
    GroupsPartition(filtered, CategoryOf, cats);
  }

  /** A player is in the sheet of a category exactly when it is filtered and has that category. */
  lemma SheetMembership(filtered: seq<Player>, cat: string, le: (string, string) -> bool, p: Player)
    ensures p in SheetPlayers(filtered, cat, le) <==> p in filtered && p.category == cat
  {
    var group := WithKey(filtered, CategoryOf, cat);
    var sheet := SheetPlayers(filtered, cat, le);
    assert multiset(sheet) == multiset(group);
    assert p in sheet <==> p in multiset(sheet);
    assert p in group <==> p in multiset(group);
  }

  /** Each sheet is a reordering of its category's players, in team order. */
  lemma SheetSortedByTeam(filtered: seq<Player>, cat: string, le: (string, string) -> bool)
    requires TotalPreorder(le)
    ensures multiset(SheetPlayers(filtered, cat, le)) == multiset(WithKey(filtered, CategoryOf, cat))
    ensures SortedBy(SheetPlayers(filtered, cat, le), TeamOf, le)
  {
    SortBySorted(WithKey(filtered, CategoryOf, cat), TeamOf, le);
  }

  /** `byCategory` entries of the statistics: a category and its number of players. */
  datatype CategoryCount = CategoryCount(category: string, count: int)

  /**
   * `byCategory.reduce((prev, current) => (prev.count > current.count) ? prev : current)`:
   * the position of the entry the reduction returns.
   */
  function TopIndex(byCategory: seq<CategoryCount>): (k: nat)
    requires byCategory != []
    ensures k < |byCategory|
    ensures forall j :: 0 <= j < |byCategory| ==> byCategory[j].count <= byCategory[k].count
    ensures forall j :: k < j < |byCategory| ==> byCategory[j].count < byCategory[k].count
  {
    if |byCategory| == 1 then 0
    else
      var prev := TopIndex(byCategory[..|byCategory| - 1]);
      var last := |byCategory| - 1;
      if byCategory[prev].count > byCategory[last].count then prev else last
  }

  /** The three figures of the dashboard. */
  datatype Dashboard = Dashboard(total: Value, teamCount: Option<nat>, topCategory: Option<string>)

  /**
   * What `fetchStats` shows: `total || 0`, the number of teams when the
   * list came, and the upper-cased category of the top entry when there is
   * one.
   */
  function ShowStats(total: Value, byTeam: Option<seq<Object>>, byCategory: Option<seq<CategoryCount>>): (d: Dashboard)
    ensures d.total == (if Truthy(total) then total else Num(0))
    ensures d.teamCount == (if byTeam.Some? then Some(|byTeam.value|) else None)
    ensures d.topCategory.Some? <==> byCategory.Some? && byCategory.value != []
    ensures d.topCategory.Some? ==>
              (exists k :: 0 <= k < |byCategory.value| &&
                 d.topCategory.value == Upper(byCategory.value[k].category) &&
                 forall j :: 0 <= j < |byCategory.value| ==> byCategory.value[j].count <= byCategory.value[k].count)
  {
    Dashboard(
      Or(total, Num(0)),
      if byTeam.Some? then Some(|byTeam.value|) else None,
      if byCategory.Some? && byCategory.value != [] then
        Some(Upper(byCategory.value[TopIndex(byCategory.value)].category))
      else None)
  }

  /** The players other than the one with id `id`: `allPlayers.filter(p => p.id != id)`. */
  function RemoveId(players: seq<Player>, id: int): seq<Player>
  {
    Filter(players, (p: Player) => p.id != id)
  }

  /** After removal no player has the id, every other player stays as often as it was there, and the order is kept. */
  lemma RemoveIdSpec(players: seq<Player>, id: int)
    ensures forall p :: p in RemoveId(players, id) ==> p.id != id
    ensures forall p :: p in players && p.id != id ==> p in RemoveId(players, id)
    ensures IsSubsequence(RemoveId(players, id), players)
    ensures forall p :: multiset(RemoveId(players, id))[p] == if p.id != id then multiset(players)[p] else 0
  {
    FilterIsSubsequence(players, (p: Player) => p.id != id);
    forall p {
      FilterMultiset(players, (p: Player) => p.id != id, p);
    }
  }

  /**
   * What `await res.json()` gives for the players request: the list (200),
   * the `{error: ...}` object of a 401 or 500 answer, or nothing because
   * the request or the JSON parsing threw.
   */
  datatype PlayersAnswer =
    | PlayerArray(players: seq<Player>)
    | ErrorBody
    | NoAnswer

  /**
   * The state of the admin page: `allPlayers`. After an error answer the
   * variable holds the error object instead of a list; `isList` is false
   * then, and every `allPlayers.filter` call throws.
   */
  class AdminPanel {
    var allPlayers: seq<Player>
    var isList: bool

    constructor()
      ensures allPlayers == [] && isList
    {
      allPlayers := [];
      isList := true;
    }

    /**
     * `fetchPlayers`: every JSON answer replaces `allPlayers`, the error
     * object of a refused request included; only a request that threw
     * keeps the old list.
     */
    method FetchPlayers(answer: PlayersAnswer)
      modifies this
      ensures answer.PlayerArray? ==> allPlayers == answer.players && isList
      ensures answer.ErrorBody? ==> allPlayers == [] && !isList
      ensures answer.NoAnswer? ==> allPlayers == old(allPlayers) && isList == old(isList)
    {
      match answer
      case PlayerArray(players) =>
        allPlayers := players;
        isList := true;
      case ErrorBody =>
        allPlayers := [];
        isList := false;
      case NoAnswer =>
    }

    /**
     * `renderTable`: the table is emptied, then gets one row per filtered
     * player, in list order; when `allPlayers` is not a list the filter
     * throws and the table stays empty.
     */
    method RenderTable(f: Filters) returns (rows: seq<TableRow>, threw: bool)
      ensures threw <==> !isList
      ensures threw ==> rows == []
      ensures !threw ==> |rows| == |Filtered(allPlayers, f)|
      ensures !threw ==> forall i :: 0 <= i < |rows| ==> rows[i] == RowOf(Filtered(allPlayers, f)[i])
    {
      rows := [];
      if !isList {
        return rows, true;
      }
      threw := false;
      var filtered := Filtered(allPlayers, f);
      var i := 0;
      while i < |filtered|
        invariant 0 <= i <= |filtered|
        invariant |rows| == i
        invariant forall j :: 0 <= j < i ==> rows[j] == RowOf(filtered[j])
      {
        rows := rows + [RowOf(filtered[i])];
        i := i + 1;
      }
    }

    /**
     * `exportToExcel`: nothing when the list or the filtered list is
     * empty, otherwise one sheet per category of the filtered players,
     * in order of first appearance. An error object has no `length` of 0,
     * so the export reaches the filter and throws.
     */
    method ExportToExcel(f: Filters, le: (string, string) -> bool) returns (wb: Option<seq<Sheet>>, threw: bool)
      ensures threw <==> !isList
      ensures threw ==> wb.None?
      ensures isList && allPlayers == [] ==> wb.None?
      ensures !threw ==> (wb.None? <==> Filtered(allPlayers, f) == [])
      ensures wb.Some? ==> wb.value == Workbook(Filtered(allPlayers, f), le)
    {
      if !isList {
        return None, true;
      }
      threw := false;
      if |allPlayers| == 0 {
        return None, false;
      }
      var filtered := Filtered(allPlayers, f);
      if |filtered| == 0 {
        return None, false;
      }
      var cats := SheetCategories(filtered);
      var sheets: seq<Sheet> := [];
      var i := 0;
      while i < |cats|
        invariant 0 <= i <= |cats|
        invariant sheets == Workbook(filtered, le)[..i]
      {
        sheets := sheets + [SheetFor(filtered, cats[i], le)];
        i := i + 1;
      }
      wb := Some(sheets);
    }

    /**
     * `deletePlayer`: the local list drops the id only when the delete is
     * confirmed, the server reports success and `allPlayers` is a list;
     * on an error object the filter throws and the catch leaves it as it was.
     */
    method DeletePlayer(id: int, confirmed: bool, success: bool)
      modifies this
      ensures isList == old(isList)
      ensures allPlayers == if confirmed && success && old(isList) then RemoveId(old(allPlayers), id) else old(allPlayers)
    {
      if !confirmed || !isList {
        return;
      }
      if success {
        allPlayers := RemoveId(allPlayers, id);
      }
    }
  }
}
