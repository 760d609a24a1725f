/** The master workbook of the clan network: `load` reads the player list
    and the clan sheets of a spreadsheet into two maps, and `api_sync`
    folds fresh clan names and rosters into them. The Sheets API and the
    Destiny API are not modelled: their answers are inputs, and a failed
    call is an `Err` reply. */
module Sheets {
  import opened Common
  import opened Numbers

  datatype WorksheetPlayer = WorksheetPlayer(
    bungieName: string, discordName: string, discordId: string,
    bungieMembershipId: string, bungiePlatform: string)

  datatype WorksheetClan = WorksheetClan(name: string, groupId: int, members: seq<(string, int)>)

  datatype Workbook = Workbook(players: map<string, WorksheetPlayer>, clans: map<int, WorksheetClan>)

  /** One spreadsheet row: `values` is absent when the API returns the row
      without cells, and each cell's formatted value may be absent */
  datatype Row = Row(values: Option<seq<Option<string>>>)

  /** A sheet with grid data: one row list per requested range. The
      workbook code insists (`expect`) that grid data and row data exist,
      so they are not optional here. */
  datatype SheetData = SheetData(grids: seq<seq<Row>>)

  datatype Properties = Properties(title: Option<string>)

  /** A sheet of the workbook listing, without grid data */
  datatype SheetMeta = SheetMeta(properties: Option<Properties>)

  datatype ApiError = ApiError

  /** A cell's text: an absent cell and a cell without a formatted value
      both read as the empty string */
  function CellText(cells: seq<Option<string>>, i: nat): string {
    if i < |cells| then cells[i].GetOr("") else ""
  }

  // ------------------------------------------------------- clan titles

  const ClanMarker: string := "[Clan]"

  /** A sheet's title when it has properties (a missing title reads "") */
  function TitleOf(sheet: SheetMeta): Option<string> {
    match sheet.properties
    case Some(p) => Some(p.title.GetOr(""))
    case None => None
  }

  predicate IsClanSheet(sheet: SheetMeta) {
    TitleOf(sheet).Some? && Contains(TitleOf(sheet).value, ClanMarker)
  }

  /** The titles of the clan sheets, in workbook order */
  function ClanTitles(sheets: seq<SheetMeta>): (titles: seq<string>)
    ensures |titles| <= |sheets|
    ensures forall t :: t in titles ==> Contains(t, ClanMarker)
    ensures forall i :: 0 <= i < |sheets| && IsClanSheet(sheets[i]) ==> TitleOf(sheets[i]).value in titles
    ensures forall t :: t in titles ==> exists i :: 0 <= i < |sheets| && IsClanSheet(sheets[i]) && TitleOf(sheets[i]).value == t
    decreases |sheets|
  {
    if |sheets| == 0 then []
    else
      var init, last := sheets[..|sheets| - 1], sheets[|sheets| - 1];
      assert forall i :: 0 <= i < |init| ==> init[i] == sheets[i];
      ClanTitles(init) + (if IsClanSheet(last) then [TitleOf(last).value] else [])
  }

  /** Filtering commutes with splitting the workbook: the clan sheets keep
      their relative order */
  lemma {:induction false} ClanTitlesAppend(a: seq<SheetMeta>, b: seq<SheetMeta>)
    ensures ClanTitles(a + b) == ClanTitles(a) + ClanTitles(b)
    decreases |b|
  {
    if |b| == 0 {
      assert a + b == a;
    } else {
      var b' := b[..|b| - 1];
      assert (a + b)[..|a + b| - 1] == a + b';
      assert (a + b)[|a + b| - 1] == b[|b| - 1];
      ClanTitlesAppend(a, b');
    }
  }

  /** The two ranges requested from each clan sheet: the info block
      B1:B3 and the roster from A6 down */
  function ClanRanges(titles: seq<string>): (ranges: seq<string>)
    ensures |ranges| == 2 * |titles|
    ensures forall i :: 0 <= i < |titles| ==>
      ranges[2 * i] == titles[i] + "!B1:B3" && ranges[2 * i + 1] == titles[i] + "!A6:B"
    decreases |titles|
  {
    if |titles| == 0 then []
    else [titles[0] + "!B1:B3", titles[0] + "!A6:B"] + ClanRanges(titles[1..])
  }

  // ------------------------------------------------------- player list

  /** A player-list row: bungie name, discord name, discord id, membership
      id and platform, in columns A to E */
  function PlayerOf(cells: seq<Option<string>>): WorksheetPlayer {
    WorksheetPlayer(CellText(cells, 0), CellText(cells, 1), CellText(cells, 2), CellText(cells, 3), CellText(cells, 4))
  }

  /** The rows of a sheet across its grids, in order */
  function SheetRows(sheet: SheetData): seq<Row> {
    Concat(sheet.grids)
  }

  /** The membership ids (column D) of the rows that have cells */
  function IdsOf(rows: seq<Row>): set<string> {
    set i | 0 <= i < |rows| && rows[i].values.Some? :: CellText(rows[i].values.value, 3)
  }

  /** Every row with cells is a player, keyed by its membership id (column
      D); a later row with the same id replaces the earlier one */
  function PlayerFold(rows: seq<Row>): (players: map<string, WorksheetPlayer>)
    ensures players.Keys == IdsOf(rows)
    ensures forall k :: k in players ==> players[k].bungieMembershipId == k
    decreases |rows|
  {
    if |rows| == 0 then map[]
    else
      var init, last := rows[..|rows| - 1], rows[|rows| - 1];
      var m := PlayerFold(init);
      assert forall i :: 0 <= i < |init| ==> init[i] == rows[i];
      match last.values
      case Some(cells) => m[CellText(cells, 3) := PlayerOf(cells)]
      case None => m
  }

  /** The player a membership id maps to comes from its last row */
  lemma {:induction false} PlayerFoldLastWins(rows: seq<Row>, i: int)
    requires 0 <= i < |rows| && rows[i].values.Some?
    requires forall j :: i < j < |rows| && rows[j].values.Some? ==>
      CellText(rows[j].values.value, 3) != CellText(rows[i].values.value, 3)
    ensures PlayerFold(rows)[CellText(rows[i].values.value, 3)] == PlayerOf(rows[i].values.value)
    decreases |rows|
  {
    var init := rows[..|rows| - 1];
    if i < |rows| - 1 {
      assert forall j :: 0 <= j < |init| ==> init[j] == rows[j];
      PlayerFoldLastWins(init, i);
    }
  }

  /** Only the first sheet of the player-list reply is read */
  function Players(sheets: seq<SheetData>): (players: map<string, WorksheetPlayer>)
    ensures |sheets| == 0 ==> players == map[]
    ensures |sheets| > 0 ==> players.Keys == IdsOf(SheetRows(sheets[0]))
    ensures forall k :: k in players ==> players[k].bungieMembershipId == k
  {
    if |sheets| == 0 then map[] else PlayerFold(SheetRows(sheets[0]))
  }

  /** Sheets after the first one in the reply never affect the players */
  lemma PlayersFirstSheet(sheets: seq<SheetData>, more: seq<SheetData>)
    requires |sheets| > 0
    ensures Players(sheets + more) == Players(sheets)
  {
    assert (sheets + more)[0] == sheets[0];
  }

  /** A player is read from the last row of the first sheet that carries
      its membership id */
  lemma PlayersLastRow(sheets: seq<SheetData>, i: int)
    requires |sheets| > 0
    requires 0 <= i < |SheetRows(sheets[0])| && SheetRows(sheets[0])[i].values.Some?
    requires forall j :: i < j < |SheetRows(sheets[0])| && SheetRows(sheets[0])[j].values.Some? ==>
      CellText(SheetRows(sheets[0])[j].values.value, 3) != CellText(SheetRows(sheets[0])[i].values.value, 3)
    ensures Players(sheets)[CellText(SheetRows(sheets[0])[i].values.value, 3)] == PlayerOf(SheetRows(sheets[0])[i].values.value)
  {
    PlayerFoldLastWins(SheetRows(sheets[0]), i);
  }

  // --------------------------------------------------------- clan sheets

  /** The clan-sheet reader's state: the first three rows fill name, group
      id and member count, every later row is a member */
  datatype ClanParse = ClanParse(
    name: Option<string>, groupId: Option<int>, totalMembers: Option<string>, members: seq<(string, int)>)

  /** The texts of a row's cells (none for a row without cells) */
  function RowTexts(row: Row): (texts: seq<string>)
    ensures row.values.None? ==> texts == []
    ensures row.values.Some? ==>
      |texts| == |row.values.value| && forall i :: 0 <= i < |texts| ==> texts[i] == CellText(row.values.value, i)
  {
    match row.values
    case Some(cells) => seq(|cells|, i requires 0 <= i < |cells| => cells[i].GetOr(""))
    case None => []
  }

  function FirstText(texts: seq<string>): string {
    if |texts| == 0 then "" else texts[0]
  }

  function LastText(texts: seq<string>): string {
    if |texts| == 0 then "" else texts[|texts| - 1]
  }

  /** A roster row: the player's name from the first cell and the number in
      the last cell, 0 when it does not parse */
  function MemberOf(row: Row): (string, int) {
    (FirstText(RowTexts(row)), ParseOrZero(LastText(RowTexts(row))))
  }

  /** One row through the reader */
  function Step(p: ClanParse, row: Row): ClanParse {
    var first := FirstText(RowTexts(row));
    if p.name.None? then p.(name := Some(first))
    else if p.groupId.None? then p.(groupId := Some(ParseOrZero(first)))
    else if p.totalMembers.None? then p.(totalMembers := Some(first))
    else p.(members := p.members + [MemberOf(row)])
  }

  /** All rows of a sheet through the reader, from the empty state */
  function ParseRows(rows: seq<Row>): ClanParse
    decreases |rows|
  {
    if |rows| == 0 then ClanParse(None, None, None, [])
    else Step(ParseRows(rows[..|rows| - 1]), rows[|rows| - 1])
  }

  /** The members read from rows 4 onwards */
  function RosterRows(rows: seq<Row>): (members: seq<(string, int)>)
    ensures |rows| <= 3 ==> members == []
    ensures |rows| > 3 ==> |members| == |rows| - 3
    decreases |rows|
  {
    if |rows| <= 3 then [] else RosterRows(rows[..|rows| - 1]) + [MemberOf(rows[|rows| - 1])]
  }

  /** Member `i` comes from row `i + 4` (index `i + 3`) */
  lemma {:induction false} RosterRowsAt(rows: seq<Row>, i: int)
    requires 0 <= i < |rows| - 3
    ensures RosterRows(rows)[i] == MemberOf(rows[i + 3])
    decreases |rows|
  {
    var init, last := rows[..|rows| - 1], rows[|rows| - 1];
    assert RosterRows(rows) == RosterRows(init) + [MemberOf(last)];
    if i < |rows| - 4 {
      RosterRowsAt(init, i);
      assert init[i + 3] == rows[i + 3];
    }
  }

  /** The reader in closed form: row 1 is the name, row 2 the group id,
      row 3 the member count, each later row one member */
  lemma {:induction false} ParseRowsClosedForm(rows: seq<Row>)
    ensures ParseRows(rows) == ClanParse(
      if |rows| >= 1 then Some(FirstText(RowTexts(rows[0]))) else None,
      if |rows| >= 2 then Some(ParseOrZero(FirstText(RowTexts(rows[1])))) else None,
      if |rows| >= 3 then Some(FirstText(RowTexts(rows[2]))) else None,
      RosterRows(rows))
    decreases |rows|
  {
    var n := |rows|;
    if n > 0 {
      var init := rows[..n - 1];
      ParseRowsClosedForm(init);
      assert forall i :: 0 <= i < n - 1 ==> init[i] == rows[i];
    }
  }

  /** A clan sheet as a clan: the group id defaults to 0 and the name to ""
      when the sheet has too few rows */
  function ClanOf(sheet: SheetData): WorksheetClan {
    var p := ParseRows(SheetRows(sheet));
    WorksheetClan(p.name.GetOr(""), p.groupId.GetOr(0), p.members)
  }

  /** What a clan sheet yields, row by row */
  lemma ClanOfRows(sheet: SheetData)
    ensures var rows, clan := SheetRows(sheet), ClanOf(sheet);
      && clan.name == (if |rows| >= 1 then FirstText(RowTexts(rows[0])) else "")
      && clan.groupId == (if |rows| >= 2 then ParseOrZero(FirstText(RowTexts(rows[1]))) else 0)
      && clan.members == RosterRows(rows)
  {
    ParseRowsClosedForm(SheetRows(sheet));
  }

  function ClanPairs(sheets: seq<SheetData>): (pairs: seq<(int, WorksheetClan)>)
    ensures |pairs| == |sheets| && forall i :: 0 <= i < |sheets| ==> pairs[i] == (ClanOf(sheets[i]).groupId, ClanOf(sheets[i]))
  {
    seq(|sheets|, i requires 0 <= i < |sheets| => (ClanOf(sheets[i]).groupId, ClanOf(sheets[i])))
  }

  /** Clans keyed by group id; a later sheet with the same id replaces an
      earlier one */
  function Clans(sheets: seq<SheetData>): (clans: map<int, WorksheetClan>)
    ensures clans.Keys == set i | 0 <= i < |sheets| :: ClanOf(sheets[i]).groupId
    ensures forall id :: id in clans ==> clans[id].groupId == id
  {
    var pairs := ClanPairs(sheets);
    var clans := Upsert(map[], pairs);
    assert KeysOf(pairs) == set i | 0 <= i < |sheets| :: ClanOf(sheets[i]).groupId;
    UpsertOnlyFromPairs(pairs);
    clans
  }

  lemma ClansLastWins(sheets: seq<SheetData>, i: int)
    requires 0 <= i < |sheets|
    requires forall j :: i < j < |sheets| ==> ClanOf(sheets[j]).groupId != ClanOf(sheets[i]).groupId
    ensures Clans(sheets)[ClanOf(sheets[i]).groupId] == ClanOf(sheets[i])
  {
    var pairs := ClanPairs(sheets);
    assert LastFor(pairs, i);
    UpsertLastWins(map[], pairs, i);
  }

  // ---------------------------------------------------------------- load

  /** The three Sheets API answers `load` waits for, in call order: the
      sheet listing, the player list, the clan sheets */
  datatype LoadReplies = LoadReplies(
    listing: Result<Option<seq<SheetMeta>>, ApiError>,
    playerList: Result<Option<seq<SheetData>>, ApiError>,
    clanSheets: Result<Option<seq<SheetData>>, ApiError>)

  /** The workbook after `load`, the ranges of the clan-sheet request when
      it was made, and the result */
  datatype LoadOutcome = LoadOutcome(workbook: Workbook, clanRanges: Option<seq<string>>, result: Result<(), ApiError>)

  /** `load`: both maps are cleared before the first call, so a failure
      leaves them empty (or, for the last call, holding only the players) */
  function Load(wb: Workbook, replies: LoadReplies): (r: LoadOutcome)
    ensures r.result.Ok? <==> replies.listing.Ok? && replies.playerList.Ok? && replies.clanSheets.Ok?
    ensures r.clanRanges.Some? <==> replies.listing.Ok? && replies.playerList.Ok?
    ensures r.clanRanges.Some? ==> r.clanRanges.value == ClanRanges(ClanTitles(replies.listing.value.GetOr([])))
    ensures !(replies.listing.Ok? && replies.playerList.Ok?) ==> r.workbook == Workbook(map[], map[])
    ensures replies.listing.Ok? && replies.playerList.Ok? ==>
      r.workbook.players == Players(replies.playerList.value.GetOr([]))
    ensures replies.clanSheets.Err? ==> r.workbook.clans == map[]
    ensures r.result.Ok? ==> r.workbook.clans == Clans(replies.clanSheets.value.GetOr([]))
  {
    var cleared := Workbook(map[], map[]);
    match replies.listing
    case Err(e) => LoadOutcome(cleared, None, Err(e))
    case Ok(listing) =>
      var titles := ClanTitles(listing.GetOr([]));
      match replies.playerList
      case Err(e) => LoadOutcome(cleared, None, Err(e))
      case Ok(playerSheets) =>
        var players := Players(playerSheets.GetOr([]));
        var ranges := ClanRanges(titles);
        match replies.clanSheets
        case Err(e) => LoadOutcome(Workbook(players, map[]), Some(ranges), Err(e))
        case Ok(clanSheets) => LoadOutcome(Workbook(players, Clans(clanSheets.GetOr([]))), Some(ranges), Ok(()))
  }

  /** Nothing of the previous contents survives a `load` */
  lemma LoadForgetsPrevious(a: Workbook, b: Workbook, replies: LoadReplies)
    ensures Load(a, replies) == Load(b, replies)
  {
  }

  // ------------------------------------------------------------ api_sync

  /** A roster entry as the Destiny clan API returns it */
  datatype RosterMember = RosterMember(membershipId: int, displayNameGlobal: string, platform: int, clanGroupRole: int)

  /** What the Destiny API says about one clan: its name, when known, and
      its current roster */
  datatype ClanFetch = ClanFetch(info: Option<string>, roster: seq<RosterMember>)

  /** A roster entry as the merge uses it: membership id and platform
      rendered with `to_string` */
  datatype RosterEntry = RosterEntry(key: string, name: string, platform: string)

  function EntryOf(m: RosterMember): RosterEntry {
    RosterEntry(FormatInt(m.membershipId), m.displayNameGlobal, FormatInt(m.platform))
  }

  function Entries(roster: seq<RosterMember>): (entries: seq<RosterEntry>)
    ensures |entries| == |roster| && forall i :: 0 <= i < |roster| ==> entries[i] == EntryOf(roster[i])
  {
    seq(|roster|, i requires 0 <= i < |roster| => EntryOf(roster[i]))
  }

  /** `p`, the entry for `k` after a merge into `before`, kept the discord
      details and membership id `before` had for `k` (empty details and `k`
      itself for a player `before` did not list) */
  predicate DetailsKept(before: map<string, WorksheetPlayer>, k: string, p: WorksheetPlayer) {
    if k in before then
      && p.discordName == before[k].discordName
      && p.discordId == before[k].discordId
      && p.bungieMembershipId == before[k].bungieMembershipId
    else p.discordName == "" && p.discordId == "" && p.bungieMembershipId == k
  }

  predicate AllDetailsKept(before: map<string, WorksheetPlayer>, after: map<string, WorksheetPlayer>) {
    forall k :: k in after ==> DetailsKept(before, k, after[k])
  }

  lemma DetailsKeptTransitive(a: map<string, WorksheetPlayer>, b: map<string, WorksheetPlayer>, c: map<string, WorksheetPlayer>)
    requires a.Keys <= b.Keys && AllDetailsKept(a, b) && AllDetailsKept(b, c)
    ensures AllDetailsKept(a, c)
  {
  }

  /** One roster entry into the player list: a known player gets the new
      name and platform, a new one is added without discord details */
  function MergeMember(players: map<string, WorksheetPlayer>, e: RosterEntry): (r: map<string, WorksheetPlayer>)
    ensures r.Keys == players.Keys + {e.key}
    ensures forall k :: k in players && k != e.key ==> r[k] == players[k]
    ensures r[e.key].bungieName == e.name && r[e.key].bungiePlatform == e.platform
    ensures AllDetailsKept(players, r)
  {
    if e.key in players then
      players[e.key := players[e.key].(bungieName := e.name, bungiePlatform := e.platform)]
    else
      players[e.key := WorksheetPlayer(e.name, "", "", e.key, e.platform)]
  }

  function EntryKeys(entries: seq<RosterEntry>): set<string> {
    set i | 0 <= i < |entries| :: entries[i].key
  }

  /** A whole roster into the player list, in roster order. Discord
      details are never touched: they stay as the sheet had them, or empty
      for a player the sheet did not list. */
  function MergeRoster(players: map<string, WorksheetPlayer>, entries: seq<RosterEntry>): (r: map<string, WorksheetPlayer>)
    ensures r.Keys == players.Keys + EntryKeys(entries)
    ensures AllDetailsKept(players, r)
    decreases |entries|
  {
    if |entries| == 0 then players
    else
      assert EntryKeys(entries) == {entries[0].key} + EntryKeys(entries[1..]) by {
        assert forall i :: 0 < i < |entries| ==> entries[1..][i - 1] == entries[i];
      }
      var next := MergeMember(players, entries[0]);
      DetailsKeptTransitive(players, next, MergeRoster(next, entries[1..]));
      MergeRoster(next, entries[1..])
  }

  /** A player on no roster is left as it was */
  lemma {:induction false} MergeRosterUntouched(players: map<string, WorksheetPlayer>, entries: seq<RosterEntry>, k: string)
    requires k in players
    requires forall i :: 0 <= i < |entries| ==> entries[i].key != k
    ensures MergeRoster(players, entries)[k] == players[k]
    decreases |entries|
  {
    if |entries| > 0 {
      assert forall i :: 0 <= i < |entries| - 1 ==> entries[1..][i] == entries[i + 1];
      MergeRosterUntouched(MergeMember(players, entries[0]), entries[1..], k);
    }
  }

  /** A rostered player carries the name and platform of the last entry
      with its key */
  lemma {:induction false} MergeRosterLastWins(players: map<string, WorksheetPlayer>, entries: seq<RosterEntry>, i: int)
    requires 0 <= i < |entries|
    requires forall j :: i < j < |entries| ==> entries[j].key != entries[i].key
    ensures entries[i].key in MergeRoster(players, entries)
    ensures var p := MergeRoster(players, entries)[entries[i].key];
      p.bungieName == entries[i].name && p.bungiePlatform == entries[i].platform
    decreases |entries|
  {
    var next, rest := MergeMember(players, entries[0]), entries[1..];
    if i == 0 {
      assert forall j :: 0 <= j < |rest| ==> rest[j] == entries[j + 1];
      MergeRosterUntouched(next, rest, entries[0].key);
    } else {
      assert rest[i - 1] == entries[i];
      assert forall j :: i - 1 < j < |rest| ==> rest[j] == entries[j + 1];
      MergeRosterLastWins(next, rest, i - 1);
    }
  }

  /** For roster members: the player under a membership id carries the
      name and rendered platform of the id's last roster entry */
  lemma RosterLastWins(players: map<string, WorksheetPlayer>, roster: seq<RosterMember>, i: int)
    requires 0 <= i < |roster|
    requires forall j :: i < j < |roster| ==> roster[j].membershipId != roster[i].membershipId
    ensures FormatInt(roster[i].membershipId) in MergeRoster(players, Entries(roster))
    ensures var p := MergeRoster(players, Entries(roster))[FormatInt(roster[i].membershipId)];
      p.bungieName == roster[i].displayNameGlobal && p.bungiePlatform == FormatInt(roster[i].platform)
  {
    var entries := Entries(roster);
    forall j | i < j < |entries| ensures entries[j].key != entries[i].key {
      if entries[j].key == entries[i].key {
        FormatIntInjective(roster[j].membershipId, roster[i].membershipId);
      }
    }
    MergeRosterLastWins(players, entries, i);
  }

  /** Merging two rosters one after the other is merging their
      concatenation */
  lemma {:induction false} MergeRosterAppend(players: map<string, WorksheetPlayer>, a: seq<RosterEntry>, b: seq<RosterEntry>)
    ensures MergeRoster(players, a + b) == MergeRoster(MergeRoster(players, a), b)
    decreases |a|
  {
    if |a| == 0 {
      assert a + b == b;
    } else {
      assert (a + b)[0] == a[0];
      assert (a + b)[1..] == a[1..] + b;
      MergeRosterAppend(MergeMember(players, a[0]), a[1..], b);
    }
  }

  /** The clan after a sync: the fetched name when there is one, and the
      roster's names and roles, in roster order, as its members */
  function SyncClan(clan: WorksheetClan, fetch: ClanFetch): (r: WorksheetClan)
    ensures r.groupId == clan.groupId
    ensures r.name == fetch.info.GetOr(clan.name)
    ensures |r.members| == |fetch.roster| && forall j :: 0 <= j < |fetch.roster| ==>
      r.members[j] == (fetch.roster[j].displayNameGlobal, fetch.roster[j].clanGroupRole)
  {
    var named := match fetch.info case Some(n) => clan.(name := n) case None => clan;
    named.(members := seq(|fetch.roster|, j requires 0 <= j < |fetch.roster| =>
      (fetch.roster[j].displayNameGlobal, fetch.roster[j].clanGroupRole)))
  }

  /** All roster entries in clan order, one roster after the other */
  function AllEntries(fetched: seq<ClanFetch>): seq<RosterEntry>
    decreases |fetched|
  {
    if |fetched| == 0 then [] else Entries(fetched[0].roster) + AllEntries(fetched[1..])
  }

  /** Every id of `order` names a clan of `clans` */
  predicate Covers(order: seq<int>, clans: map<int, WorksheetClan>) {
    forall i :: 0 <= i < |order| ==> order[i] in clans
  }

  /** One iteration of the sync loop: the clan's name and members, then
      its roster into the player list */
  function SyncOne(wb: Workbook, id: int, fetch: ClanFetch): (r: Workbook)
    requires id in wb.clans
    ensures r.clans.Keys == wb.clans.Keys
    ensures forall x :: x in wb.clans && x != id ==> r.clans[x] == wb.clans[x]
  {
    Workbook(MergeRoster(wb.players, Entries(fetch.roster)), wb.clans[id := SyncClan(wb.clans[id], fetch)])
  }

  /** The sync loop over the clans in `order` (the iteration order of the
      clan map), `fetched[i]` being the API's answer for `order[i]` */
  function SyncLoop(wb: Workbook, order: seq<int>, fetched: seq<ClanFetch>): (r: Workbook)
    requires |fetched| == |order| && Covers(order, wb.clans)
    ensures r.clans.Keys == wb.clans.Keys
    ensures r.players == MergeRoster(wb.players, AllEntries(fetched))
    decreases |order|
  {
    if |order| == 0 then wb
    else
      var next := SyncOne(wb, order[0], fetched[0]);
      assert Covers(order[1..], next.clans) by {
        forall i | 0 <= i < |order| - 1 ensures order[1..][i] in next.clans {
          assert order[1..][i] == order[i + 1];
        }
      }
      MergeRosterAppend(wb.players, Entries(fetched[0].roster), AllEntries(fetched[1..]));
      SyncLoop(next, order[1..], fetched[1..])
  }

  /** A clan the loop does not visit keeps its contents */
  lemma {:induction false} SyncLoopUntouched(wb: Workbook, order: seq<int>, fetched: seq<ClanFetch>, id: int)
    requires |fetched| == |order| && Covers(order, wb.clans)
    requires id in wb.clans && forall i :: 0 <= i < |order| ==> order[i] != id
    ensures SyncLoop(wb, order, fetched).clans[id] == wb.clans[id]
    decreases |order|
  {
    if |order| > 0 {
      var next := SyncOne(wb, order[0], fetched[0]);
      assert Covers(order[1..], next.clans) by {
        forall i | 0 <= i < |order| - 1 ensures order[1..][i] in next.clans {
          assert order[1..][i] == order[i + 1];
        }
      }
      assert forall i :: 0 <= i < |order| - 1 ==> order[1..][i] != id by {
        forall i | 0 <= i < |order| - 1 ensures order[1..][i] != id {
          assert order[1..][i] == order[i + 1];
        }
      }
      SyncLoopUntouched(next, order[1..], fetched[1..], id);
    }
  }

  /** Each clan is synced exactly once, from its own answer */
  lemma {:induction false} SyncLoopClans(wb: Workbook, order: seq<int>, fetched: seq<ClanFetch>, i: int)
    requires |fetched| == |order| && Covers(order, wb.clans) && Distinct(order)
    requires 0 <= i < |order|
    ensures SyncLoop(wb, order, fetched).clans[order[i]] == SyncClan(wb.clans[order[i]], fetched[i])
    decreases |order|
  {
    var next := SyncOne(wb, order[0], fetched[0]);
    var rest, restFetched := order[1..], fetched[1..];
    assert forall j :: 0 <= j < |rest| ==> rest[j] == order[j + 1];
    assert Covers(rest, next.clans);
    if i == 0 {
      SyncLoopUntouched(next, rest, restFetched, order[0]);
    } else {
      assert Distinct(rest);
      assert rest[i - 1] == order[i] && restFetched[i - 1] == fetched[i];
      SyncLoopClans(next, rest, restFetched, i - 1);
    }
  }

  /** The outcome of `api_sync`: the workbook and the group ids (as text)
      handed to the remote clan jobs */
  datatype SyncOutcome = SyncOutcome(workbook: Workbook, groupIds: seq<string>, result: Result<(), ApiError>)

  /** `api_sync`: the remote info, roster and network jobs run first; if
      any fails nothing changes, otherwise every clan is synced */
  function ApiSync(wb: Workbook, order: seq<int>, remote: Result<(), ApiError>, fetched: seq<ClanFetch>): (r: SyncOutcome)
    requires Enumerates(order, wb.clans.Keys)
    requires |fetched| == |order|
    ensures |r.groupIds| == |order| && forall i :: 0 <= i < |order| ==> r.groupIds[i] == FormatInt(order[i])
    ensures r.result == remote
    ensures remote.Err? ==> r.workbook == wb
    ensures remote.Ok? ==> r.workbook.clans.Keys == wb.clans.Keys
    ensures remote.Ok? ==> r.workbook.players == MergeRoster(wb.players, AllEntries(fetched))
  {
    assert Covers(order, wb.clans);
    var ids := seq(|order|, i requires 0 <= i < |order| => FormatInt(order[i]));
    match remote
    case Err(e) => SyncOutcome(wb, ids, Err(e))
    case Ok(_) => SyncOutcome(SyncLoop(wb, order, fetched), ids, remote)
  }

  /** After a successful sync every clan holds its fetched roster */
  lemma ApiSyncClans(wb: Workbook, order: seq<int>, fetched: seq<ClanFetch>, i: int)
    requires Enumerates(order, wb.clans.Keys)
    requires |fetched| == |order|
    requires 0 <= i < |order|
    ensures ApiSync(wb, order, Ok(()), fetched).workbook.clans[order[i]] == SyncClan(wb.clans[order[i]], fetched[i])
  {
    SyncLoopClans(wb, order, fetched, i);
  }
}
