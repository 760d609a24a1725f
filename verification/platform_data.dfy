/** Per-account-platform key/value data (`account_platform_data`): `read`
    maps a batch of keys to the ids of their existing rows, and `write`
    builds the single multi-row upsert that inserts the new keys and
    refreshes the existing ones. Statements are built, not executed: the
    store's answer to the SELECT is an input. */
module PlatformData {
  import opened Common
  import opened Numbers
  import opened Utf8
  import opened Sql

  datatype AccountPlatform = AccountPlatform(account: int, id: int)

  /** One incoming key/value pair */
  datatype NewData = NewData(key: string, value: string)

  /** A row of the SELECT in `read` */
  datatype SlimRow = SlimRow(id: int, key: string)

  datatype QueryError = QueryError

  // ---------------------------------------------------------------- read

  const SelectText: string :=
    "SELECT account_platform_data.id, account_platform_data.key FROM account_platform_data "
    + "INNER JOIN account_platforms ON account_platform_data.platform = account_platforms.id "
    + "INNER JOIN accounts ON account_platforms.account = accounts.id AND accounts.deleted_at = 0 "
    + "WHERE accounts.id = "

  /** The SELECT up to its IN list: two placeholders, account and platform */
  function ReadHead(): (sql: seq<Frag>)
    ensures Holes(sql) == 2
  {
    var select := [Text(SelectText), Param];
    var platform := [Text(" AND account_platforms.id = "), Param];
    var keys := [Text(" AND account_platform_data.key IN (")];
    HolesAppend(select, platform);
    HolesAppend(select + platform, keys);
    select + platform + keys
  }

  function KeyBinds(keys: seq<string>): (b: seq<Bind>)
    ensures |b| == |keys| && forall i :: 0 <= i < |keys| ==> b[i] == Str(keys[i])
  {
    seq(|keys|, i requires 0 <= i < |keys| => Str(keys[i]))
  }

  /** The SELECT of `read`: account and platform first, then one
      placeholder and one bind per key, in input order */
  function ReadStatement(ap: AccountPlatform, keys: seq<string>): (st: Statement)
    ensures WellFormed(st)
    ensures |st.binds| == 2 + |keys|
    ensures st.binds[0] == Int(ap.account) && st.binds[1] == Int(ap.id)
    ensures forall i :: 0 <= i < |keys| ==> st.binds[2 + i] == Str(keys[i])
  {
    HolesAppend(ReadHead(), InList(|keys|));
    HolesAppend(ReadHead() + InList(|keys|), [Text(")")]);
    Statement(ReadHead() + InList(|keys|) + [Text(")")], [Int(ap.account), Int(ap.id)] + KeyBinds(keys))
  }

  function RowPairs(rows: seq<SlimRow>): seq<(string, int)> {
    seq(|rows|, i requires 0 <= i < |rows| => (rows[i].key, rows[i].id))
  }

  datatype ReadResult = ReadResult(statement: Statement, existing: map<string, int>)

  /** `read`: every requested key starts at 0 ("needs insert") and is
      overwritten only by a returned row with that key; a failed query
      leaves every key at 0. */
  function Read(ap: AccountPlatform, keys: seq<string>, reply: Result<seq<SlimRow>, QueryError>): (r: ReadResult)
    ensures r.statement == ReadStatement(ap, keys)
    ensures r.existing.Keys == set k | k in keys
    ensures reply.Err? ==> forall k :: k in r.existing ==> r.existing[k] == 0
  {
    var zeros := map k | k in keys :: 0;
    var existing := match reply
      case Ok(rows) => Refresh(zeros, RowPairs(rows))
      case Err(_) => zeros;
    ReadResult(ReadStatement(ap, keys), existing)
  }

  /** What `read` reports for one requested key: the id of the last
      returned row with that key, or 0 when no row has it. */
  lemma ReadExisting(ap: AccountPlatform, keys: seq<string>, rows: seq<SlimRow>, k: string)
    requires k in keys
    ensures var e := Read(ap, keys, Ok(rows)).existing;
      && ((forall i :: 0 <= i < |rows| ==> rows[i].key != k) ==> e[k] == 0)
      && (forall i :: 0 <= i < |rows| && rows[i].key == k && (forall j :: i < j < |rows| ==> rows[j].key != k) ==> e[k] == rows[i].id)
  {
    var zeros := map k | k in keys :: 0;
    var pairs := RowPairs(rows);
    if forall i :: 0 <= i < |rows| ==> rows[i].key != k {
      RefreshUntouched(zeros, pairs, k);
    }
    forall i | 0 <= i < |rows| && rows[i].key == k && (forall j :: i < j < |rows| ==> rows[j].key != k)
      ensures Read(ap, keys, Ok(rows)).existing[k] == rows[i].id
    {
      assert LastFor(pairs, i);
      RefreshLastWins(zeros, pairs, i);
    }
  }

  // ---------------------------------------------------------------- write

  /** The columns of the INSERT, in bind order */
  const InsertColumns: seq<string> :=
    ["id", "account", "platform", "key", "value", "value_bigint", "value_big", "created_at", "updated_at", "deleted_at"]

  /** The ON DUPLICATE KEY UPDATE clause as (column, incoming column)
      pairs: each overwritten column takes its own incoming value. */
  const Updates: seq<(string, string)> :=
    [("value", "value"), ("value_big", "value_big"), ("value_bigint", "value_bigint"),
     ("updated_at", "updated_at"), ("deleted_at", "deleted_at")]

  const InsertText: string :=
    "INSERT INTO account_platform_data (`id`, `account`, `platform`, `key`, `value`, "
    + "`value_bigint`, `value_big`, `created_at`, `updated_at`, `deleted_at`) VALUES "

  /** The upsert text for a batch of `n` values */
  function WriteText(n: nat): (sql: seq<Frag>)
    ensures Holes(sql) == 10 * n
    ensures |sql| >= 2 && sql[0] == Text(InsertText) && sql[|sql| - 1..] == UpsertClause(Updates)
  {
    UpsertText(InsertText, 10, n, ", ", Updates)
  }

  /** One bound row, field by field in `InsertColumns` order */
  datatype DataRow = DataRow(
    id: int, account: int, platform: int, key: string, value: string,
    valueBigint: int, valueBig: string, createdAt: int, updatedAt: int, deletedAt: int)

  function RowBinds(r: DataRow): (b: seq<Bind>)
    ensures |b| == |InsertColumns|
  {
    [Int(r.id), Int(r.account), Int(r.platform), Str(r.key), Str(r.value),
     Int(r.valueBigint), Str(r.valueBig), Int(r.createdAt), Int(r.updatedAt), Int(r.deletedAt)]
  }

  /** The flat bind list of a batch of rows */
  function Flatten(rows: seq<DataRow>): (b: seq<Bind>)
    ensures |b| == 10 * |rows|
    decreases |rows|
  {
    if |rows| == 0 then [] else RowBinds(rows[0]) + Flatten(rows[1..])
  }

  /** Reads one row back from ten binds, if they have the column types */
  function DecodeRow(b: seq<Bind>): Option<DataRow>
    requires |b| == 10
  {
    if b[0].Int? && b[1].Int? && b[2].Int? && b[3].Str? && b[4].Str?
      && b[5].Int? && b[6].Str? && b[7].Int? && b[8].Int? && b[9].Int?
    then Some(DataRow(b[0].i, b[1].i, b[2].i, b[3].s, b[4].s, b[5].i, b[6].s, b[7].i, b[8].i, b[9].i))
    else None
  }

  /** Splits a bind list back into rows of ten */
  function Unflatten(b: seq<Bind>): Option<seq<DataRow>>
    decreases |b|
  {
    if |b| == 0 then Some([])
    else if |b| < 10 then None
    else match (DecodeRow(b[..10]), Unflatten(b[10..]))
      case (Some(r), Some(rs)) => Some([r] + rs)
      case _ => None
  }

  /** The bind list loses nothing: every row can be read back from it */
  lemma {:induction false} FlattenRoundTrip(rows: seq<DataRow>)
    ensures Unflatten(Flatten(rows)) == Some(rows)
    decreases |rows|
  {
    if |rows| > 0 {
      var b := Flatten(rows);
      assert b[..10] == RowBinds(rows[0]);
      assert b[10..] == Flatten(rows[1..]);
      FlattenRoundTrip(rows[1..]);
      assert [rows[0]] + rows[1..] == rows;
    }
  }

  /** The bound row for one key: the display copy, the i64 reading and the
      full value of its record; an existing row binds its id and the update
      time, a new row binds id 0 and the creation time. */
  function BuildRow(ap: AccountPlatform, id: int, record: NewData, now: int): (r: DataRow)
    ensures r.key == record.key && r.valueBig == record.value
    ensures r.value == Display(record.value) && r.valueBigint == ParseOrZero(record.value)
    ensures r.account == ap.account && r.platform == ap.id
    ensures r.id == id && r.deletedAt == 0
    ensures id == 0 ==> r.createdAt == now && r.updatedAt == 0
    ensures id != 0 ==> r.createdAt == 0 && r.updatedAt == now
  {
    if id == 0 then
      DataRow(0, ap.account, ap.id, record.key, Display(record.value), ParseOrZero(record.value), record.value, now, 0, 0)
    else
      DataRow(id, ap.account, ap.id, record.key, Display(record.value), ParseOrZero(record.value), record.value, 0, now, 0)
  }

  function Keys(values: seq<NewData>): (ks: seq<string>)
    ensures |ks| == |values| && forall i :: 0 <= i < |values| ==> ks[i] == values[i].key
  {
    seq(|values|, i requires 0 <= i < |values| => values[i].key)
  }

  function IndexPairs(values: seq<NewData>): (pairs: seq<(string, int)>)
    ensures |pairs| == |values| && forall i :: 0 <= i < |values| ==> pairs[i] == (values[i].key, i)
  {
    seq(|values|, i requires 0 <= i < |values| => (values[i].key, i))
  }

  /** `value_map`: each key to the index of its last record */
  function ValueMap(values: seq<NewData>): (m: map<string, int>)
    ensures m.Keys == set k | k in Keys(values)
    ensures forall k :: k in m ==> 0 <= m[k] < |values| && values[m[k]].key == k
    ensures forall k :: k in m ==> LastRecord(values, m[k])
  {
    var pairs := IndexPairs(values);
    assert KeysOf(pairs) == set k | k in Keys(values) by {
      forall k | k in Keys(values) ensures k in KeysOf(pairs) {
        var i :| 0 <= i < |values| && Keys(values)[i] == k;
        assert pairs[i].0 == k;
      }
    }
    var m := Upsert(map[], pairs);
    assert forall k :: k in m ==> 0 <= m[k] < |values| && values[m[k]].key == k && LastRecord(values, m[k]) by {
      forall k | k in m ensures 0 <= m[k] < |values| && values[m[k]].key == k && LastRecord(values, m[k]) {
        var i := LastIndex(pairs, k);
        UpsertLastWins(map[], pairs, i);
      }
    }
    m
  }

  /** Record `j` is the last one in the batch with its key */
  predicate LastRecord(values: seq<NewData>, j: int) {
    0 <= j < |values| && forall l :: j < l < |values| ==> values[l].key != values[j].key
  }

  datatype WriteResult = WriteResult(read: ReadResult, rows: seq<DataRow>, statement: Statement)

  /** `row` is bound from the last record of the batch with key `k` */
  predicate FromLastRecord(ap: AccountPlatform, id: int, values: seq<NewData>, k: string, now: int, row: DataRow) {
    exists j :: 0 <= j < |values| && LastRecord(values, j) && values[j].key == k && row == BuildRow(ap, id, values[j], now)
  }

  /** One bound row per key of `order`: the key's existing id (0 for a new
      key), its last record in the batch, and its clock reading */
  function BoundRows(
    ap: AccountPlatform, existing: map<string, int>, values: seq<NewData>,
    order: seq<string>, stamps: seq<int>): (rows: seq<DataRow>)
    requires |stamps| == |order|
    requires forall k :: k in order ==> k in existing && k in Keys(values)
    ensures |rows| == |order|
    ensures forall i :: 0 <= i < |order| ==> FromLastRecord(ap, existing[order[i]], values, order[i], stamps[i], rows[i])
  {
    var vm := ValueMap(values);
    var rows := seq(|order|, i requires 0 <= i < |order| => BuildRow(ap, existing[order[i]], values[vm[order[i]]], stamps[i]));
    assert forall i :: 0 <= i < |order| ==> FromLastRecord(ap, existing[order[i]], values, order[i], stamps[i], rows[i]) by {
      forall i | 0 <= i < |order|
        ensures FromLastRecord(ap, existing[order[i]], values, order[i], stamps[i], rows[i])
      {
        assert order[i] in Keys(values);
        var j := vm[order[i]];
        assert LastRecord(values, j) && values[j].key == order[i];
      }
    }
    rows
  }

  /** `write`: look up the existing ids of the batch's keys, then bind one
      row per distinct key, visiting the keys in `order` (the iteration
      order of the `read` result, which Rust's `HashMap` leaves
      unspecified). `stamps[i]` is the clock reading for the i-th bound
      row. The VALUES list has one group per input record. */
  function Write(
    ap: AccountPlatform, values: seq<NewData>, reply: Result<seq<SlimRow>, QueryError>,
    order: seq<string>, stamps: seq<int>): (r: WriteResult)
    requires Enumerates(order, set k | k in Keys(values))
    requires |stamps| == |order|
    ensures r.read == Read(ap, Keys(values), reply)
    ensures |r.rows| == |order|
    ensures Holes(r.statement.sql) == 10 * |values| && r.statement.binds == Flatten(r.rows)
    ensures r.statement.sql == WriteText(|values|)
    ensures forall i :: 0 <= i < |order| ==>
      && order[i] in r.read.existing && order[i] in ValueMap(values)
      && r.rows[i] == BuildRow(ap, r.read.existing[order[i]], values[ValueMap(values)[order[i]]], stamps[i])
  {
    var read := Read(ap, Keys(values), reply);
    OrderCovered(ap, values, reply, order);
    var rows := BoundRows(ap, read.existing, values, order, stamps);
    WriteResult(read, rows, Statement(WriteText(|values|), Flatten(rows)))
  }

  lemma OrderCovered(
    ap: AccountPlatform, values: seq<NewData>, reply: Result<seq<SlimRow>, QueryError>, order: seq<string>)
    requires Enumerates(order, set k | k in Keys(values))
    ensures forall k :: k in order ==>
      && k in Read(ap, Keys(values), reply).existing && k in ValueMap(values)
      && 0 <= ValueMap(values)[k] < |values|
  {
  }

  /** The record bound for a key is its last occurrence in the batch */
  lemma ValueMapLastWins(values: seq<NewData>, i: int)
    requires 0 <= i < |values| && forall j :: i < j < |values| ==> values[j].key != values[i].key
    ensures ValueMap(values)[values[i].key] == i
  {
    assert LastFor(IndexPairs(values), i);
    UpsertLastWins(map[], IndexPairs(values), i);
  }

  /** Placeholders and binds agree exactly when the batch's keys are
      distinct: a repeated key gets a VALUES group but no row. */
  lemma WriteArity(
    ap: AccountPlatform, values: seq<NewData>, reply: Result<seq<SlimRow>, QueryError>,
    order: seq<string>, stamps: seq<int>)
    requires Enumerates(order, set k | k in Keys(values))
    requires |stamps| == |order|
    ensures WellFormed(Write(ap, values, reply, order, stamps).statement) <==> Distinct(Keys(values))
    ensures |Write(ap, values, reply, order, stamps).rows| == |set k | k in Keys(values)|
  {
    EnumerationSize(order, set k | k in Keys(values));
    DistinctSize(Keys(values));
  }

  /** A batch that repeats a key gets two VALUES groups (twenty
      placeholders) but only one bound row (ten values). */
  lemma DuplicateKeyBreaksArity(ap: AccountPlatform, reply: Result<seq<SlimRow>, QueryError>, now: int)
    ensures var values := [NewData("level", "1"), NewData("level", "2")];
      && Enumerates(["level"], set k | k in Keys(values))
      && var w := Write(ap, values, reply, ["level"], [now]);
        Holes(w.statement.sql) == 20 && |w.statement.binds| == 10
  {
    var values := [NewData("level", "1"), NewData("level", "2")];
    assert Keys(values) == ["level", "level"];
    assert Enumerates(["level"], set k | k in Keys(values));
    var w := Write(ap, values, reply, ["level"], [now]);
    assert |w.rows| == 1;
  }

  /** `write` as evidently intended: one VALUES group per bound row, so
      every batch, repeated keys included, yields a well-formed statement
      with the same rows. */
  function WriteCorrected(
    ap: AccountPlatform, values: seq<NewData>, reply: Result<seq<SlimRow>, QueryError>,
    order: seq<string>, stamps: seq<int>): (r: WriteResult)
    requires Enumerates(order, set k | k in Keys(values))
    requires |stamps| == |order|
    ensures WellFormed(r.statement)
    ensures r.read == Write(ap, values, reply, order, stamps).read
    ensures r.rows == Write(ap, values, reply, order, stamps).rows
    ensures r.statement.binds == Flatten(r.rows)
  {
    var w := Write(ap, values, reply, order, stamps);
    WriteResult(w.read, w.rows, Statement(WriteText(|w.rows|), Flatten(w.rows)))
  }

  /** A duplicate-free sequence enumerating a set has the set's size */
  lemma {:induction false} EnumerationSize<T>(order: seq<T>, keys: set<T>)
    requires Enumerates(order, keys)
    ensures |order| == |keys|
    decreases |order|
  {
    if |order| > 0 {
      var rest := order[1..];
      assert Enumerates(rest, keys - {order[0]}) by {
        forall x | x in rest ensures x in keys - {order[0]} {
          var j :| 0 <= j < |rest| && rest[j] == x;
          assert order[j + 1] == x;
        }
        forall x | x in keys - {order[0]} ensures x in rest {
          var j :| 0 <= j < |order| && order[j] == x;
          assert j != 0;
          assert rest[j - 1] == x;
        }
      }
      EnumerationSize(rest, keys - {order[0]});
    }
  }

  /** A sequence has as many distinct elements as entries iff it has no
      repetition */
  lemma {:induction false} DistinctSize<T>(s: seq<T>)
    ensures |set x | x in s| <= |s|
    ensures |set x | x in s| == |s| <==> Distinct(s)
    decreases |s|
  {
    if |s| > 0 {
      var rest := s[1..];
      DistinctSize(rest);
      var tail := set x | x in rest;
      assert (set x | x in s) == tail + {s[0]};
      if s[0] in rest {
        assert (set x | x in s) == tail;
        var j :| 0 <= j < |rest| && rest[j] == s[0];
        assert s[0] == s[j + 1];
      } else {
        assert Distinct(s) <==> Distinct(rest) by {
          if Distinct(rest) {
            forall i, j | 0 <= i < j < |s| ensures s[i] != s[j] {
              if i == 0 { assert s[j] == rest[j - 1]; } else { assert s[i] == rest[i - 1] && s[j] == rest[j - 1]; }
            }
          }
          if Distinct(s) {
            forall i, j | 0 <= i < j < |rest| ensures rest[i] != rest[j] {
              assert rest[i] == s[i + 1] && rest[j] == s[j + 1];
            }
          }
        }
      }
    }
  }

  /** The upsert never rewrites a row's owner, key or creation time */
  lemma UpsertPreservesIdentity()
    ensures forall u :: u in Updates ==> u.0 == u.1 && u.0 in InsertColumns
    ensures forall u :: u in Updates ==> u.0 !in ["id", "account", "platform", "key", "created_at"]
  {
  }
}
