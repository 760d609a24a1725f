/** The layered settings cache of one application (`ApplicationSettings`):
    setting definitions (`base`), application-wide values (`global`) and
    per-user values (`user`), read from memory and written through to the
    store.

    Store effects go through an oracle: each synchronous insert-then-fetch
    is answered by a `Reply`, and the insert statements issued are recorded.
    The background update that `set` spawns is recorded as a `Pending` write
    instead of being run. Timestamps and md5 digests are inputs. */
module AppSettings {
  import opened Common

  datatype SettingType = Global | User

  /** A row of `application_settings` */
  datatype Definition = Definition(
    id: int, application: int, hash: string, name: string,
    createdAt: int, updatedAt: int, deletedAt: int)

  /** A row of `application_global_settings` */
  datatype GlobalRow = GlobalRow(
    id: int, application: int, hash: string, setting: int, value: string,
    createdAt: int, updatedAt: int, deletedAt: int)

  /** A row of `application_user_settings` */
  datatype UserRow = UserRow(
    id: int, application: int, hash: string, hashUser: string, setting: int, value: string,
    createdAt: int, updatedAt: int, deletedAt: int)

  /** A cached model and the time it was cached */
  datatype Cached<T> = Cached(model: T, cachedAt: int)

  /** User slots are keyed by (user, setting name) */
  type UserKey = (string, string)

  datatype ApplicationSettings = ApplicationSettings(
    application: int,
    names: map<int, string>,
    base: map<string, Cached<Definition>>,
    global: map<string, Cached<GlobalRow>>,
    user: map<UserKey, Cached<UserRow>>)

  datatype StoreError = QueryFailed

  /** The user a call targets; an absent user is the empty string */
  function TargetUser(user: Option<string>): string {
    user.GetOr("")
  }

  // ---------------------------------------------------------------- load

  /** The name a global row is cached under: its definition's name, or the
      empty string when no loaded definition has its id */
  function NameOf(names: map<int, string>, setting: int): string {
    if setting in names then names[setting] else ""
  }

  function NamePairs(defs: seq<Definition>): seq<(int, string)> {
    seq(|defs|, i requires 0 <= i < |defs| => (defs[i].id, defs[i].name))
  }

  function BasePairs(defs: seq<Definition>, now: int): seq<(string, Cached<Definition>)> {
    seq(|defs|, i requires 0 <= i < |defs| => (defs[i].name, Cached(defs[i], now)))
  }

  function GlobalPairs(names: map<int, string>, rows: seq<GlobalRow>, now: int): seq<(string, Cached<GlobalRow>)> {
    seq(|rows|, i requires 0 <= i < |rows| => (NameOf(names, rows[i].setting), Cached(rows[i], now)))
  }

  /** The in-memory assembly of `load` from the rows its two queries
      returned (live definitions of the application, then its live global
      values); a failed query fails the load, and the user layer starts
      empty. */
  function Load(
    application: int,
    definitions: Result<seq<Definition>, StoreError>,
    globals: Result<seq<GlobalRow>, StoreError>,
    now: int): (r: Result<ApplicationSettings, StoreError>)
    ensures r.Ok? <==> definitions.Ok? && globals.Ok?
    ensures r.Ok? ==> r.value.application == application && r.value.user == map[]
  {
    match definitions
    case Err(e) => Err(e)
    case Ok(defs) =>
      match globals
      case Err(e) => Err(e)
      case Ok(rows) =>
        var names := Upsert(map[], NamePairs(defs));
        Ok(ApplicationSettings(
          application, names,
          Upsert(map[], BasePairs(defs, now)),
          Upsert(map[], GlobalPairs(names, rows, now)),
          map[]))
  }

  /** The cache keys after a load: one definition per loaded name, one name
      per loaded id, and one global slot per name the global rows resolve
      to. */
  lemma LoadKeys(application: int, defs: seq<Definition>, rows: seq<GlobalRow>, now: int)
    ensures var s := Load(application, Ok(defs), Ok(rows), now).value;
      && s.base.Keys == (set d | d in defs :: d.name)
      && s.names.Keys == (set d | d in defs :: d.id)
      && s.global.Keys == (set g | g in rows :: NameOf(s.names, g.setting))
  {
    var s := Load(application, Ok(defs), Ok(rows), now).value;
    assert KeysOf(BasePairs(defs, now)) == (set d | d in defs :: d.name) by {
      forall d | d in defs ensures d.name in KeysOf(BasePairs(defs, now)) {
        var i :| 0 <= i < |defs| && defs[i] == d;
        assert BasePairs(defs, now)[i].0 == d.name;
      }
    }
    assert KeysOf(NamePairs(defs)) == (set d | d in defs :: d.id) by {
      forall d | d in defs ensures d.id in KeysOf(NamePairs(defs)) {
        var i :| 0 <= i < |defs| && defs[i] == d;
        assert NamePairs(defs)[i].0 == d.id;
      }
    }
    assert KeysOf(GlobalPairs(s.names, rows, now)) == (set g | g in rows :: NameOf(s.names, g.setting)) by {
      forall g | g in rows ensures NameOf(s.names, g.setting) in KeysOf(GlobalPairs(s.names, rows, now)) {
        var i :| 0 <= i < |rows| && rows[i] == g;
        assert GlobalPairs(s.names, rows, now)[i].0 == NameOf(s.names, g.setting);
      }
    }
  }

  /** A loaded definition is cached under its name, and its name under its
      id, unless a later definition reuses that name (or id). */
  lemma LoadDefinition(application: int, defs: seq<Definition>, rows: seq<GlobalRow>, now: int, i: int)
    requires 0 <= i < |defs|
    ensures var s := Load(application, Ok(defs), Ok(rows), now).value;
      && ((forall j :: i < j < |defs| ==> defs[j].name != defs[i].name) ==> defs[i].name in s.base && s.base[defs[i].name] == Cached(defs[i], now))
      && ((forall j :: i < j < |defs| ==> defs[j].id != defs[i].id) ==> defs[i].id in s.names && s.names[defs[i].id] == defs[i].name)
  {
    if forall j :: i < j < |defs| ==> defs[j].name != defs[i].name {
      assert LastFor(BasePairs(defs, now), i);
      UpsertLastWins(map[], BasePairs(defs, now), i);
    }
    if forall j :: i < j < |defs| ==> defs[j].id != defs[i].id {
      assert LastFor(NamePairs(defs), i);
      UpsertLastWins(map[], NamePairs(defs), i);
    }
  }

  /** A loaded global row is cached under the name of the definition whose
      id it references, or under "" when no loaded definition has that id,
      unless a later row resolves to the same name. */
  lemma LoadGlobal(application: int, defs: seq<Definition>, rows: seq<GlobalRow>, now: int, i: int)
    requires 0 <= i < |rows|
    ensures var s := Load(application, Ok(defs), Ok(rows), now).value;
      var key := NameOf(s.names, rows[i].setting);
      && ((forall d :: d in defs ==> d.id != rows[i].setting) ==> key == "")
      && ((forall j :: i < j < |rows| ==> NameOf(s.names, rows[j].setting) != key) ==> key in s.global && s.global[key] == Cached(rows[i], now))
  {
    var s := Load(application, Ok(defs), Ok(rows), now).value;
    LoadKeys(application, defs, rows, now);
    var key := NameOf(s.names, rows[i].setting);
    if forall j :: i < j < |rows| ==> NameOf(s.names, rows[j].setting) != key {
      assert LastFor(GlobalPairs(s.names, rows, now), i);
      UpsertLastWins(map[], GlobalPairs(s.names, rows, now), i);
    }
  }

  // ---------------------------------------------------------------- get

  /** `get`: a user value masks the global value of the same name; the
      global value is the floor; without either the result is `None`. */
  function Get(s: ApplicationSettings, t: SettingType, name: string, user: Option<string>): Option<string>
    decreases t.User?
  {
    match t
    case Global =>
      if name in s.global then Some(s.global[name].model.value) else None
    case User =>
      var key := (TargetUser(user), name);
      if key in s.user then Some(s.user[key].model.value) else Get(s, Global, name, None)
  }

  // ---------------------------------------------------------------- set

  /** The outcome of one synchronous insert followed by `find_by_id` of the
      inserted id: the insert failed (nothing was written), the insert took
      effect but the fetch failed, the row came back with the id the store
      assigned, or the fetch found no row. */
  datatype Reply = InsertFailed | FetchFailed | Fetched(id: int) | Vanished {
    /** One of the two statements failed, so `set` returns an error */
    predicate Failed() {
      InsertFailed? || FetchFailed?
    }

    /** The INSERT took effect, whatever the fetch did afterwards */
    predicate Written() {
      !InsertFailed?
    }
  }

  /** The replies the store gives to the at most two inserts of a `set` */
  datatype Replies = Replies(definition: Reply, row: Reply)

  /** The md5 digests `set` derives for a new definition and a new value row */
  datatype Hashes = Hashes(definition: string, row: string)

  /** A value-row INSERT statement `set` issued (its id column left to the
      store) */
  datatype RowInsert =
    | InsertGlobal(global: GlobalRow)
    | InsertUser(user: UserRow)

  /** The UPDATE the spawned task performs: write `value` into the row with
      id `id` (the update time is the spawned task's own clock). */
  datatype Pending =
    | UpdateGlobal(id: int, value: string)
    | UpdateUser(id: int, value: string)
    | NoUpdate

  /** The cache after a successful `set`, the definition and value row it
      inserted (if any), and the update it handed to the background task */
  datatype SetOutcome = SetOutcome(
    settings: ApplicationSettings,
    definitionInsert: Option<Definition>,
    rowInsert: Option<RowInsert>,
    pending: Pending)

  /** A failed `set`: the error, and the inserts that had already taken
      effect in the store when it gave up (the cache is left as it was) */
  datatype SetFailure = SetFailure(
    error: StoreError,
    definitionInsert: Option<Definition>,
    rowInsert: Option<RowInsert>)

  /** A scoped slot is created in the store when it is not cached or is
      cached with the "not persisted" id 0. */
  predicate NeedsCreate(s: ApplicationSettings, t: SettingType, name: string, user: Option<string>) {
    match t
    case Global => name !in s.global || s.global[name].model.id == 0
    case User =>
      var key := (TargetUser(user), name);
      key !in s.user || s.user[key].model.id == 0
  }

  function NewDefinition(s: ApplicationSettings, name: string, now: int, hash: string): Definition {
    Definition(0, s.application, hash, name, now, 0, 0)
  }

  function NewGlobalRow(s: ApplicationSettings, setting: int, value: string, now: int, hash: string): GlobalRow {
    GlobalRow(0, s.application, hash, setting, value, now, 0, 0)
  }

  function NewUserRow(s: ApplicationSettings, user: string, setting: int, value: string, now: int, hash: string): UserRow {
    UserRow(0, s.application, hash, user, setting, value, now, 0, 0)
  }

  datatype DefinitionStep = DefinitionStep(setting: int, insert: Option<Definition>)

  /** Step 1: reuse the cached definition, or insert one and fetch it back.
      The fetched definition is not added to the cache. */
  function ResolveDefinition(s: ApplicationSettings, name: string, now: int, hash: string, reply: Reply): Result<DefinitionStep, SetFailure> {
    if name in s.base then Ok(DefinitionStep(s.base[name].model.id, None))
    else
      var ins := Some(NewDefinition(s, name, now, hash));
      match reply
      case InsertFailed => Err(SetFailure(QueryFailed, None, None))
      case FetchFailed => Err(SetFailure(QueryFailed, ins, None))
      case Fetched(id) => Ok(DefinitionStep(id, ins))
      case Vanished => Ok(DefinitionStep(0, ins))
  }

  datatype GlobalStep = GlobalStep(global: map<string, Cached<GlobalRow>>, insert: Option<RowInsert>)

  /** Step 2 for the global scope: insert the row when needed; a fetched row
      fills an absent slot, or gives an existing id-0 slot its id and hash. */
  function CreateGlobal(s: ApplicationSettings, name: string, setting: int, value: string, now: int, hash: string, reply: Reply): Result<GlobalStep, Option<RowInsert>> {
    if !NeedsCreate(s, Global, name, None) then Ok(GlobalStep(s.global, None))
    else
      var row := NewGlobalRow(s, setting, value, now, hash);
      match reply
      case InsertFailed => Err(None)
      case FetchFailed => Err(Some(InsertGlobal(row)))
      case Vanished => Ok(GlobalStep(s.global, Some(InsertGlobal(row))))
      case Fetched(id) =>
        var slot :=
          if name in s.global then Cached(s.global[name].model.(id := id, hash := hash), now)
          else Cached(row.(id := id), now);
        Ok(GlobalStep(s.global[name := slot], Some(InsertGlobal(row))))
  }

  datatype UserStep = UserStep(user: map<UserKey, Cached<UserRow>>, insert: Option<RowInsert>)

  /** Step 2 for the user scope */
  function CreateUser(s: ApplicationSettings, key: UserKey, setting: int, value: string, now: int, hash: string, reply: Reply): Result<UserStep, Option<RowInsert>> {
    if key in s.user && s.user[key].model.id != 0 then Ok(UserStep(s.user, None))
    else
      var row := NewUserRow(s, key.0, setting, value, now, hash);
      match reply
      case InsertFailed => Err(None)
      case FetchFailed => Err(Some(InsertUser(row)))
      case Vanished => Ok(UserStep(s.user, Some(InsertUser(row))))
      case Fetched(id) =>
        var slot :=
          if key in s.user then Cached(s.user[key].model.(id := id, hash := hash, hashUser := key.0), now)
          else Cached(row.(id := id), now);
        Ok(UserStep(s.user[key := slot], Some(InsertUser(row))))
  }

  /** Step 3 for the global scope: write the value into the slot, or cache
      an unpersisted (id 0) row when there is none. */
  function WriteGlobal(global: map<string, Cached<GlobalRow>>, application: int, name: string, setting: int, value: string, now: int): map<string, Cached<GlobalRow>> {
    if name in global then global[name := Cached(global[name].model.(value := value, updatedAt := now), now)]
    else global[name := Cached(GlobalRow(0, application, "", setting, value, now, 0, 0), now)]
  }

  /** Step 3 for the user scope */
  function WriteUser(user: map<UserKey, Cached<UserRow>>, application: int, key: UserKey, setting: int, value: string, now: int): map<UserKey, Cached<UserRow>> {
    if key in user then user[key := Cached(user[key].model.(value := value, updatedAt := now), now)]
    else user[key := Cached(UserRow(0, application, "", key.0, setting, value, now, 0, 0), now)]
  }

  /** `set`: ensure the definition, create the scoped row if needed, update
      the cached value at once, and hand the durable update to a task.
      Fails exactly when a needed insert fails; then nothing is cached. */
  function Set(
    s: ApplicationSettings, t: SettingType, name: string, value: string, user: Option<string>,
    now: int, hashes: Hashes, replies: Replies): (r: Result<SetOutcome, SetFailure>)
    ensures r.Err? <==>
      (name !in s.base && replies.definition.Failed()) || (NeedsCreate(s, t, name, user) && replies.row.Failed())
    ensures r.Err? ==> (r.error.definitionInsert.Some? <==> name !in s.base && replies.definition.Written())
    ensures r.Err? ==>
      (r.error.rowInsert.Some? <==> !(name !in s.base && replies.definition.Failed()) && replies.row.FetchFailed?)
    ensures r.Ok? ==> Get(r.value.settings, t, name, user) == Some(value)
    ensures r.Ok? ==>
      && r.value.settings.base == s.base
      && r.value.settings.names == s.names
      && r.value.settings.application == s.application
    ensures r.Ok? && t.Global? ==>
      && r.value.settings.user == s.user
      && r.value.settings.global.Keys == s.global.Keys + {name}
      && forall n :: n in s.global && n != name ==> r.value.settings.global[n] == s.global[n]
    ensures r.Ok? && t.User? ==>
      && r.value.settings.global == s.global
      && r.value.settings.user.Keys == s.user.Keys + {(TargetUser(user), name)}
      && forall k :: k in s.user && k != (TargetUser(user), name) ==> r.value.settings.user[k] == s.user[k]
  {
    match ResolveDefinition(s, name, now, hashes.definition, replies.definition)
    case Err(e) => Err(e)
    case Ok(d) =>
      match t
      case Global =>
        (match CreateGlobal(s, name, d.setting, value, now, hashes.row, replies.row)
         case Err(written) => Err(SetFailure(QueryFailed, d.insert, written))
         case Ok(c) =>
           var global := WriteGlobal(c.global, s.application, name, d.setting, value, now);
           var pending := if name in global then UpdateGlobal(global[name].model.id, value) else NoUpdate;
           Ok(SetOutcome(s.(global := global), d.insert, c.insert, pending)))
      case User =>
        var key := (TargetUser(user), name);
        (match CreateUser(s, key, d.setting, value, now, hashes.row, replies.row)
         case Err(written) => Err(SetFailure(QueryFailed, d.insert, written))
         case Ok(c) =>
           var users := WriteUser(c.user, s.application, key, d.setting, value, now);
           var pending := if key in users then UpdateUser(users[key].model.id, value) else NoUpdate;
           Ok(SetOutcome(s.(user := users), d.insert, c.insert, pending)))
  }

  // ---------------------------------------------------------------- laws

  /** The user layer masks the global layer: a user read returns the user
      value when there is one and otherwise exactly the global read. */
  lemma UserFallsBackToGlobal(s: ApplicationSettings, name: string, user: Option<string>)
    ensures (TargetUser(user), name) in s.user ==>
      Get(s, User, name, user) == Some(s.user[(TargetUser(user), name)].model.value)
    ensures (TargetUser(user), name) !in s.user ==>
      Get(s, User, name, user) == Get(s, Global, name, None)
    ensures (TargetUser(user), name) !in s.user && name !in s.global ==>
      Get(s, User, name, user) == None
  {
  }

  /** An absent user is the user "" for reads and for writes alike */
  lemma AbsentUserIsEmptyUser(
    s: ApplicationSettings, t: SettingType, name: string, value: string,
    now: int, hashes: Hashes, replies: Replies)
    ensures Get(s, t, name, None) == Get(s, t, name, Some(""))
    ensures Set(s, t, name, value, None, now, hashes, replies) == Set(s, t, name, value, Some(""), now, hashes, replies)
  {
  }

  /** After a global write, every user without an override of that name
      reads the new value; users with an override keep theirs. */
  lemma GlobalWriteReachesUsersWithoutOverride(
    s: ApplicationSettings, name: string, value: string, other: Option<string>,
    now: int, hashes: Hashes, replies: Replies)
    requires Set(s, Global, name, value, None, now, hashes, replies).Ok?
    ensures var s' := Set(s, Global, name, value, None, now, hashes, replies).value.settings;
      && ((TargetUser(other), name) !in s.user ==> Get(s', User, name, other) == Some(value))
      && ((TargetUser(other), name) in s.user ==> Get(s', User, name, other) == Get(s, User, name, other))
  {
  }

  /** A user write is invisible to every other user and to the global read */
  lemma UserWriteIsPrivate(
    s: ApplicationSettings, name: string, value: string, user: Option<string>, other: Option<string>,
    now: int, hashes: Hashes, replies: Replies, n: string)
    requires Set(s, User, name, value, user, now, hashes, replies).Ok?
    ensures var s' := Set(s, User, name, value, user, now, hashes, replies).value.settings;
      && Get(s', Global, n, None) == Get(s, Global, n, None)
      && (TargetUser(other) != TargetUser(user) || n != name ==> Get(s', User, n, other) == Get(s, User, n, other))
  {
  }

  /** The store effects of a successful `set`: a definition is inserted iff
      the name is not cached in `base`, a value row iff the slot needs
      creating; inserted rows carry the new value, the definition id (0 when
      the definition could not be fetched back) and the row digest. */
  lemma SetInserts(
    s: ApplicationSettings, t: SettingType, name: string, value: string, user: Option<string>,
    now: int, hashes: Hashes, replies: Replies)
    requires Set(s, t, name, value, user, now, hashes, replies).Ok?
    ensures var out := Set(s, t, name, value, user, now, hashes, replies).value;
      var setting :=
        if name in s.base then s.base[name].model.id
        else if replies.definition.Fetched? then replies.definition.id
        else 0;
      && (out.definitionInsert.Some? <==> name !in s.base)
      && (out.definitionInsert.Some? ==>
            && out.definitionInsert.value.name == name
            && out.definitionInsert.value.application == s.application
            && out.definitionInsert.value.hash == hashes.definition)
      && (out.rowInsert.Some? <==> NeedsCreate(s, t, name, user))
      && (out.rowInsert.Some? && t.Global? ==>
            var row := out.rowInsert.value;
            row.InsertGlobal? && row.global.value == value && row.global.setting == setting
            && row.global.hash == hashes.row && row.global.application == s.application)
      && (out.rowInsert.Some? && t.User? ==>
            var row := out.rowInsert.value;
            row.InsertUser? && row.user.value == value && row.user.setting == setting
            && row.user.hash == hashes.row && row.user.application == s.application
            && row.user.hashUser == TargetUser(user))
  {
  }

  /** A failed `set` still reports the inserts that took effect before the
      failure: the definition row when its insert succeeded but its fetch
      failed, or when it was fetched and the value row then failed; and the
      value row when its insert succeeded but its fetch failed. */
  lemma SetFailureWrites(
    s: ApplicationSettings, t: SettingType, name: string, value: string, user: Option<string>,
    now: int, hashes: Hashes, replies: Replies)
    requires Set(s, t, name, value, user, now, hashes, replies).Err?
    ensures var f := Set(s, t, name, value, user, now, hashes, replies).error;
      var setting :=
        if name in s.base then s.base[name].model.id
        else if replies.definition.Fetched? then replies.definition.id
        else 0;
      && (f.definitionInsert.Some? <==> name !in s.base && replies.definition.Written())
      && (f.definitionInsert.Some? ==> f.definitionInsert.value == NewDefinition(s, name, now, hashes.definition))
      && (f.rowInsert.Some? <==>
            !(name !in s.base && replies.definition.Failed()) && replies.row.FetchFailed?)
      && (f.rowInsert.Some? && t.Global? ==>
            f.rowInsert.value == InsertGlobal(NewGlobalRow(s, setting, value, now, hashes.row)))
      && (f.rowInsert.Some? && t.User? ==>
            f.rowInsert.value == InsertUser(NewUserRow(s, TargetUser(user), setting, value, now, hashes.row)))
  {
  }

  /** The slot a successful global `set` leaves behind. A slot that needed
      creating and was fetched back carries the store's id and the row
      digest; one that was not fetched back keeps id 0; a persisted slot
      keeps its id and digest. The spawned update targets the slot's id. */
  lemma SetGlobalSlot(
    s: ApplicationSettings, name: string, value: string,
    now: int, hashes: Hashes, replies: Replies)
    requires Set(s, Global, name, value, None, now, hashes, replies).Ok?
    ensures var out := Set(s, Global, name, value, None, now, hashes, replies).value;
      var slot := out.settings.global[name];
      && slot.model.value == value && slot.cachedAt == now
      && out.pending == UpdateGlobal(slot.model.id, value)
      && (NeedsCreate(s, Global, name, None) && replies.row.Fetched? ==>
            slot.model.id == replies.row.id && slot.model.hash == hashes.row)
      && (NeedsCreate(s, Global, name, None) && replies.row.Vanished? ==> slot.model.id == 0)
      && (!NeedsCreate(s, Global, name, None) ==>
            slot.model.id == s.global[name].model.id && slot.model.hash == s.global[name].model.hash)
  {
  }

  /** The user-scope counterpart of `SetGlobalSlot` */
  lemma SetUserSlot(
    s: ApplicationSettings, name: string, value: string, user: Option<string>,
    now: int, hashes: Hashes, replies: Replies)
    requires Set(s, User, name, value, user, now, hashes, replies).Ok?
    ensures var out := Set(s, User, name, value, user, now, hashes, replies).value;
      var slot := out.settings.user[(TargetUser(user), name)];
      && slot.model.value == value && slot.cachedAt == now
      && out.pending == UpdateUser(slot.model.id, value)
      && (NeedsCreate(s, User, name, user) && replies.row.Fetched? ==>
            slot.model.id == replies.row.id && slot.model.hash == hashes.row)
      && (NeedsCreate(s, User, name, user) && replies.row.Vanished? ==> slot.model.id == 0)
      && (!NeedsCreate(s, User, name, user) ==>
            slot.model.id == s.user[(TargetUser(user), name)].model.id
            && slot.model.hash == s.user[(TargetUser(user), name)].model.hash)
  {
  }

  /** A slot that was fetched back with a non-zero id is persisted: the next
      `set` of the same slot inserts no value row and its update targets
      that same id. */
  lemma SecondSetUpdatesInPlace(
    s: ApplicationSettings, t: SettingType, name: string, v1: string, v2: string, user: Option<string>,
    now1: int, now2: int, h1: Hashes, h2: Hashes, r1: Replies, r2: Replies)
    requires Set(s, t, name, v1, user, now1, h1, r1).Ok?
    requires NeedsCreate(s, t, name, user) ==> r1.row.Fetched? && r1.row.id != 0
    ensures var s1 := Set(s, t, name, v1, user, now1, h1, r1).value;
      && !NeedsCreate(s1.settings, t, name, user)
      && (Set(s1.settings, t, name, v2, user, now2, h2, r2).Ok? ==>
            var s2 := Set(s1.settings, t, name, v2, user, now2, h2, r2).value;
            && s2.rowInsert.None?
            && s2.pending == (if t.Global? then UpdateGlobal(PendingId(s1.pending), v2) else UpdateUser(PendingId(s1.pending), v2))
            && Get(s2.settings, t, name, user) == Some(v2))
  {
  }

  function PendingId(p: Pending): int {
    match p
    case UpdateGlobal(id, _) => id
    case UpdateUser(id, _) => id
    case NoUpdate => 0
  }

  /** A slot whose row could not be fetched back stays unpersisted: its
      spawned update targets id 0, which no row has, and the next `set` of
      that slot inserts again. */
  lemma UnfetchedSlotIsRecreated(
    s: ApplicationSettings, t: SettingType, name: string, value: string, user: Option<string>,
    now: int, hashes: Hashes, replies: Replies)
    requires Set(s, t, name, value, user, now, hashes, replies).Ok?
    requires NeedsCreate(s, t, name, user) && replies.row.Vanished?
    ensures var out := Set(s, t, name, value, user, now, hashes, replies).value;
      PendingId(out.pending) == 0 && NeedsCreate(out.settings, t, name, user)
  {
  }

  /** A definition inserted by `set` is not cached, so the next `set` of the
      same name inserts a definition again. */
  lemma DefinitionIsNotCached(
    s: ApplicationSettings, t1: SettingType, t2: SettingType, name: string, v1: string, v2: string,
    u1: Option<string>, u2: Option<string>, now1: int, now2: int, h1: Hashes, h2: Hashes, r1: Replies, r2: Replies)
    requires name !in s.base
    requires Set(s, t1, name, v1, u1, now1, h1, r1).Ok?
    ensures var s1 := Set(s, t1, name, v1, u1, now1, h1, r1).value.settings;
      && name !in s1.base
      && (Set(s1, t2, name, v2, u2, now2, h2, r2).Ok? ==>
            Set(s1, t2, name, v2, u2, now2, h2, r2).value.definitionInsert.Some?)
  {
  }

  /** Every cached user row belongs to the user its slot is keyed by */
  ghost predicate UserSlotsConsistent(s: ApplicationSettings) {
    forall k :: k in s.user ==> s.user[k].model.hashUser == k.0
  }

  /** `load` starts consistent (no user rows) and `set` keeps it so */
  lemma SetKeepsUserSlotsConsistent(
    s: ApplicationSettings, t: SettingType, name: string, value: string, user: Option<string>,
    now: int, hashes: Hashes, replies: Replies)
    requires UserSlotsConsistent(s)
    requires Set(s, t, name, value, user, now, hashes, replies).Ok?
    ensures UserSlotsConsistent(Set(s, t, name, value, user, now, hashes, replies).value.settings)
  {
  }
}
