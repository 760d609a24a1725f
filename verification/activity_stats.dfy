/** Per-activity stat rows (`member_activity_stats`): `existing` maps the
    instances already stored for a character to their row ids, `write`
    builds one multi-row upsert, and `get_instances` builds the filtered
    lookup of one stat across instances. Statements are built, not
    executed; the store's answer is an input, and a `None` statement means
    no query is issued at all. Stat values are `f64` and stay opaque. */
module ActivityStats {
  import opened Common
  import opened Sql

  /** `ActivityStatRecord`, with the `id` and timestamp fields its record
      derive adds. The two activity hashes are carried but never bound. */
  datatype ActivityStatRecord = ActivityStatRecord(
    id: int, membershipId: int, characterId: int, instanceId: int,
    activityHash: int, activityHashDirector: int,
    name: string, value: F64, valueDisplay: string,
    createdAt: int, updatedAt: int, deletedAt: int)

  /** A row of the SELECT in `existing` */
  datatype ExistingRow = ExistingRow(id: int, instanceId: int)

  /** A row of the SELECT in `get_instances` */
  datatype StatRow = StatRow(membershipId: int, instanceId: int, value: F64, valueDisplay: string)

  /** Which extra condition `get_instances` puts on the stat value */
  datatype StatFilter = ByValue(v: F64) | ByValueDisplay(display: string) | Unfiltered

  datatype QueryError = QueryError

  /** What an operation hands the store (if anything) and what it returns */
  datatype Lookup<T> = Lookup(statement: Option<Statement>, result: T)

  function InstanceBinds(ids: seq<int>): (b: seq<Bind>)
    ensures |b| == |ids| && forall i :: 0 <= i < |ids| ==> b[i] == Int(ids[i])
  {
    seq(|ids|, i requires 0 <= i < |ids| => Int(ids[i]))
  }

  // ------------------------------------------------------------ existing

  const ExistingText: string :=
    "SELECT member_activity_stats.id, member_activity_stats.instance_id FROM member_activity_stats "
    + "WHERE member_activity_stats.character_id = "

  /** The SELECT of `existing`: the character first, then one placeholder
      and one bind per instance id, in input order */
  function ExistingStatement(character: int, ids: seq<int>): (st: Statement)
    ensures WellFormed(st)
    ensures |st.binds| == 1 + |ids| && st.binds[0] == Int(character)
    ensures forall i :: 0 <= i < |ids| ==> st.binds[1 + i] == Int(ids[i])
  {
    var head := Clause(ExistingText) + [Text(" AND member_activity_stats.instance_id IN(")];
    HolesAppend(Clause(ExistingText), [Text(" AND member_activity_stats.instance_id IN(")]);
    HolesAppend(head, InList(|ids|));
    HolesAppend(head + InList(|ids|), [Text(")")]);
    Statement(head + InList(|ids|) + [Text(")")], [Int(character)] + InstanceBinds(ids))
  }

  function ExistingPairs(rows: seq<ExistingRow>): (pairs: seq<(int, int)>)
    ensures |pairs| == |rows| && forall i :: 0 <= i < |rows| ==> pairs[i] == (rows[i].instanceId, rows[i].id)
  {
    seq(|rows|, i requires 0 <= i < |rows| => (rows[i].instanceId, rows[i].id))
  }

  /** `existing`: no query for an empty batch; otherwise each returned
      instance id maps to the id of its row, and a failed query yields
      the empty map. */
  function Existing(character: int, ids: seq<int>, reply: Result<seq<ExistingRow>, QueryError>): (r: Lookup<map<int, int>>)
    ensures |ids| == 0 ==> r.statement.None? && r.result == map[]
    ensures |ids| > 0 ==> r.statement == Some(ExistingStatement(character, ids))
    ensures reply.Err? ==> r.result == map[]
    ensures |ids| > 0 && reply.Ok? ==>
      r.result.Keys == set i | 0 <= i < |reply.value| :: reply.value[i].instanceId
  {
    if |ids| == 0 then Lookup(None, map[])
    else
      var result := match reply
        case Ok(rows) => Upsert(map[], ExistingPairs(rows))
        case Err(_) => map[];
      assert reply.Ok? ==> KeysOf(ExistingPairs(reply.value)) == set i | 0 <= i < |reply.value| :: reply.value[i].instanceId;
      Lookup(Some(ExistingStatement(character, ids)), result)
  }

  /** Among rows for the same instance, the last one's id is reported */
  lemma ExistingLastWins(character: int, ids: seq<int>, rows: seq<ExistingRow>, i: int)
    requires |ids| > 0
    requires 0 <= i < |rows| && forall j :: i < j < |rows| ==> rows[j].instanceId != rows[i].instanceId
    ensures Existing(character, ids, Ok(rows)).result[rows[i].instanceId] == rows[i].id
  {
    var pairs := ExistingPairs(rows);
    assert LastFor(pairs, i);
    UpsertLastWins(map[], pairs, i);
  }

  // ------------------------------------------------------------- write

  /** The columns of the INSERT, in bind order */
  const StatColumns: seq<string> :=
    ["id", "membership_id", "character_id", "instance_id", "name", "value", "value_display",
     "created_at", "updated_at", "deleted_at"]

  /** The ON DUPLICATE KEY UPDATE clause as (column, incoming column)
      pairs: note that `updated_at` takes the incoming `created_at`. */
  const StatUpdates: seq<(string, string)> :=
    [("value", "value"), ("value_display", "value_display"), ("updated_at", "created_at"), ("deleted_at", "deleted_at")]

  const StatInsertText: string :=
    "INSERT INTO member_activity_stats (`id`, `membership_id`, `character_id`, `instance_id`, `name`, "
    + "`value`, `value_display`, `created_at`, `updated_at`, `deleted_at`) VALUES "

  /** The upsert text for a batch of `n` records */
  function StatText(n: nat): (sql: seq<Frag>)
    ensures Holes(sql) == 10 * n
    ensures |sql| >= 2 && sql[0] == Text(StatInsertText) && sql[|sql| - 1..] == UpsertClause(StatUpdates)
  {
    UpsertText(StatInsertText, 10, n, ",", StatUpdates)
  }

  /** The ten binds of one record, in `StatColumns` order */
  function StatBinds(r: ActivityStatRecord): (b: seq<Bind>)
    ensures |b| == |StatColumns|
  {
    [Int(r.id), Int(r.membershipId), Int(r.characterId), Int(r.instanceId), Str(r.name),
     Float(r.value), Str(r.valueDisplay), Int(r.createdAt), Int(r.updatedAt), Int(r.deletedAt)]
  }

  function FlattenStats(values: seq<ActivityStatRecord>): (b: seq<Bind>)
    ensures |b| == 10 * |values|
    decreases |values|
  {
    if |values| == 0 then [] else StatBinds(values[0]) + FlattenStats(values[1..])
  }

  /** Record `i` owns binds `10 * i` up to `10 * i + 10` */
  lemma {:induction false} FlattenStatsAt(values: seq<ActivityStatRecord>, i: int)
    requires 0 <= i < |values|
    ensures 10 * i + 10 <= |FlattenStats(values)|
    ensures FlattenStats(values)[10 * i..10 * i + 10] == StatBinds(values[i])
    decreases i
  {
    var b := FlattenStats(values);
    if i > 0 {
      FlattenStatsAt(values[1..], i - 1);
      assert b[10..] == FlattenStats(values[1..]);
      assert b[10 * i..10 * i + 10] == b[10..][10 * (i - 1)..10 * (i - 1) + 10];
    }
  }

  /** `write`: nothing is sent for an empty batch; otherwise one group of
      ten placeholders and ten binds per record, in input order. */
  function Write(values: seq<ActivityStatRecord>): (r: Option<Statement>)
    ensures r.None? <==> |values| == 0
    ensures r.Some? ==> WellFormed(r.value) && |r.value.binds| == 10 * |values|
    ensures r.Some? ==> r.value.sql == StatText(|values|)
    ensures r.Some? ==> forall i :: 0 <= i < |values| ==>
      10 * i + 10 <= |r.value.binds| && r.value.binds[10 * i..10 * i + 10] == StatBinds(values[i])
  {
    if |values| == 0 then None
    else
      assert forall i :: 0 <= i < |values| ==>
        10 * i + 10 <= |FlattenStats(values)| && FlattenStats(values)[10 * i..10 * i + 10] == StatBinds(values[i]) by {
        forall i | 0 <= i < |values|
          ensures 10 * i + 10 <= |FlattenStats(values)| && FlattenStats(values)[10 * i..10 * i + 10] == StatBinds(values[i])
        {
          FlattenStatsAt(values, i);
        }
      }
      Some(Statement(StatText(|values|), FlattenStats(values)))
  }

  /** The upsert refreshes the value, its display, the deletion mark, and
      sets `updated_at` from the incoming `created_at`; the identifying
      columns and the stored `created_at` are never overwritten. */
  lemma StatUpsertColumns()
    ensures forall u :: u in StatUpdates ==> u.0 in StatColumns && u.1 in StatColumns
    ensures ("updated_at", "created_at") in StatUpdates
    ensures forall u :: u in StatUpdates ==>
      u.0 !in ["id", "membership_id", "character_id", "instance_id", "name", "created_at"]
  {
  }

  // ------------------------------------------------------- get_instances

  const InstancesSelect: string :=
    "SELECT member_activity_stats.membership_id, member_activity_stats.instance_id, "
    + "member_activity_stats.value, member_activity_stats.value_display FROM member_activity_stats "
    + "WHERE member_activity_stats.name = "

  const GroupByText: string :=
    ") GROUP BY member_activity_stats.membership_id, member_activity_stats.instance_id, "
    + "member_activity_stats.value, member_activity_stats.value_display"

  /** The optional value condition: absent exactly for `Unfiltered`, and
      then it has no placeholder */
  function FilterClause(filter: StatFilter): (sql: seq<Frag>)
    ensures Holes(sql) == |FilterBinds(filter)|
    ensures sql == [] <==> filter.Unfiltered?
  {
    match filter
    case ByValue(_) => Clause(" AND member_activity_stats.value = ")
    case ByValueDisplay(_) => Clause(" AND member_activity_stats.value_display = ")
    case Unfiltered => []
  }

  /** The filter's own value, bound right after the membership id */
  function FilterBinds(filter: StatFilter): (b: seq<Bind>)
    ensures |b| == (if filter.Unfiltered? then 0 else 1)
  {
    match filter
    case ByValue(v) => [Float(v)]
    case ByValueDisplay(d) => [Str(d)]
    case Unfiltered => []
  }

  /** The binds of `get_instances`: stat name, membership id, the filter
      value when there is one, then the instance ids in input order */
  function InstancesBinds(stat: string, membership: int, ids: seq<int>, filter: StatFilter): (b: seq<Bind>)
    ensures |b| == 2 + |FilterBinds(filter)| + |ids|
    ensures b[0] == Str(stat) && b[1] == Int(membership)
    ensures filter.ByValue? ==> b[2] == Float(filter.v)
    ensures filter.ByValueDisplay? ==> b[2] == Str(filter.display)
    ensures forall i :: 0 <= i < |ids| ==> b[2 + |FilterBinds(filter)| + i] == Int(ids[i])
  {
    [Str(stat), Int(membership)] + FilterBinds(filter) + InstanceBinds(ids)
  }

  /** The SELECT text of `get_instances` for `n` instance ids */
  function InstancesText(filter: StatFilter, n: nat): (sql: seq<Frag>)
    ensures Holes(sql) == 2 + |FilterBinds(filter)| + n
  {
    var head := Clause(InstancesSelect) + Clause(" AND member_activity_stats.membership_id = ");
    var inList := [Text(" AND member_activity_stats.instance_id IN (")];
    HolesAppend(Clause(InstancesSelect), Clause(" AND member_activity_stats.membership_id = "));
    HolesAppend(head, FilterClause(filter));
    var where := head + FilterClause(filter) + inList;
    HolesAppend(head + FilterClause(filter), inList);
    HolesAppend(where, InList(n));
    HolesAppend(where + InList(n), [Text(GroupByText)]);
    where + InList(n) + [Text(GroupByText)]
  }

  /** The SELECT of `get_instances`, one placeholder per bind */
  function InstancesStatement(stat: string, membership: int, ids: seq<int>, filter: StatFilter): (st: Statement)
    ensures WellFormed(st)
    ensures st.binds == InstancesBinds(stat, membership, ids, filter)
  {
    Statement(InstancesText(filter, |ids|), InstancesBinds(stat, membership, ids, filter))
  }

  /** `get_instances`: no query and no rows for an empty batch; otherwise
      the store's rows as returned, or no rows when the query fails */
  function GetInstances(
    stat: string, membership: int, ids: seq<int>, filter: StatFilter,
    reply: Result<seq<StatRow>, QueryError>): (r: Lookup<seq<StatRow>>)
    ensures |ids| == 0 ==> r.statement.None? && r.result == []
    ensures |ids| > 0 ==> r.statement == Some(InstancesStatement(stat, membership, ids, filter))
    ensures reply.Err? ==> r.result == []
    ensures |ids| > 0 && reply.Ok? ==> r.result == reply.value
  {
    if |ids| == 0 then Lookup(None, [])
    else
      Lookup(Some(InstancesStatement(stat, membership, ids, filter)), match reply case Ok(rows) => rows case Err(_) => [])
  }

  /** The filter adds a clause and a bind together, or neither */
  lemma FilterPresence(stat: string, membership: int, ids: seq<int>, filter: StatFilter)
    ensures var st := InstancesStatement(stat, membership, ids, filter);
      && (|st.binds| == 2 + |ids| <==> filter.Unfiltered?)
      && (Holes(st.sql) == 3 + |ids| <==> !filter.Unfiltered?)
  {
  }
}
