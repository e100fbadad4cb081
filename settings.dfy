/** The two handlers of `user_settings`: `getUserSettings` (get or create
    with the defaults) and `updateUserSettings` (merge the provided fields
    into the stored row, or insert a row completed with the defaults). Each
    is a pure step on the table, and a method on the store that performs it. */
module SettingsHandlers {

  import opened Wrappers
  import opened Tables
  import opened Validation
  import opened Database

  /** `select ... where user_id = user`: the position of the first row of
      `user`, if there is one. */
  function FindSettings(rows: seq<UserSettings>, user: string): (r: Option<nat>)
    ensures r.Some? ==> r.value < |rows| && rows[r.value].userId == user
    ensures r.Some? ==> forall i :: 0 <= i < r.value ==> rows[i].userId != user
    ensures r.None? <==> forall i :: 0 <= i < |rows| ==> rows[i].userId != user
    decreases |rows|
  {
    if rows == [] then None
    else if rows[0].userId == user then Some(0)
    else match FindSettings(rows[1..], user)
      case None => None
      case Some(k) => Some(k + 1)
  }

  /** `row` is the one row of `user` in `rows`. */
  ghost predicate OnlyRowOf(rows: seq<UserSettings>, user: string, row: UserSettings) {
    row in rows && row.userId == user && forall i :: 0 <= i < |rows| && rows[i].userId == user ==> rows[i] == row
  }

  /** The settings a call leaves in the table, and the row it returns. */
  datatype Outcome = Outcome(table: seq<UserSettings>, row: UserSettings)

  /** The row `getUserSettings` inserts: the column defaults. */
  function DefaultSettings(user: string, id: int, now: int): (r: UserSettings)
    ensures r.userId == user && r.id == id && r.createdAt == now && r.updatedAt == now
    ensures r.timerDuration == 120 && r.darkMode && r.reminderEnabled
  {
    UserSettings(id, user, DefaultTimerDuration, DefaultDarkMode, DefaultReminderEnabled, now, now)
  }

  /** `getUserSettings` as a step on the table: the stored row when there
      is one, and the table untouched; otherwise a default row appended.
      Either way a row comes back (the `null` of the signature is never
      produced), the table grows by at most one row, rows already stored
      stay as they were, and the returned row is the user's only row. */
  function GetOrCreate(rows: seq<UserSettings>, user: string, nextId: int, now: int): (r: Outcome)
    ensures FindSettings(rows, user).Some? ==> r == Outcome(rows, rows[FindSettings(rows, user).value])
    ensures FindSettings(rows, user).None? ==> r.table == rows + [r.row] && r.row == DefaultSettings(user, nextId, now)
    ensures r.row.userId == user && r.row in r.table
    ensures OneRowPerUser(rows) ==> OneRowPerUser(r.table) && OnlyRowOf(r.table, user, r.row)
  {
    match FindSettings(rows, user)
    case Some(k) => Outcome(rows, rows[k])
    case None => Outcome(rows + [DefaultSettings(user, nextId, now)], DefaultSettings(user, nextId, now))
  }

  /** The update branch: every provided field overwrites the stored value,
      every omitted one keeps it, `updated_at` becomes the current time and
      the id, the user and `created_at` stay. */
  function MergeSettings(row: UserSettings, u: SettingsUpdate, now: int): (r: UserSettings)
    ensures r.id == row.id && r.userId == row.userId && r.createdAt == row.createdAt && r.updatedAt == now
    ensures u.timerDuration.Some? ==> r.timerDuration == u.timerDuration.value
    ensures u.timerDuration.None? ==> r.timerDuration == row.timerDuration
    ensures u.darkMode.Some? ==> r.darkMode == u.darkMode.value
    ensures u.darkMode.None? ==> r.darkMode == row.darkMode
    ensures u.reminderEnabled.Some? ==> r.reminderEnabled == u.reminderEnabled.value
    ensures u.reminderEnabled.None? ==> r.reminderEnabled == row.reminderEnabled
  {
    row.(timerDuration := u.timerDuration.GetOr(row.timerDuration),
         darkMode := u.darkMode.GetOr(row.darkMode),
         reminderEnabled := u.reminderEnabled.GetOr(row.reminderEnabled),
         updatedAt := now)
  }

  /** The insert branch: provided fields, and the defaults 120, true and
      true for the omitted ones. */
  function InsertedSettings(u: SettingsUpdate, id: int, now: int): (r: UserSettings)
    ensures r == MergeSettings(DefaultSettings(u.userId, id, now), u, now)
  {
    UserSettings(id, u.userId, u.timerDuration.GetOr(DefaultTimerDuration), u.darkMode.GetOr(DefaultDarkMode),
                 u.reminderEnabled.GetOr(DefaultReminderEnabled), now, now)
  }

  /** `updateUserSettings` as a step on the table. Rows of other users are
      left alone, and afterwards the returned row is the user's only row. */
  function Upsert(rows: seq<UserSettings>, u: SettingsUpdate, nextId: int, now: int): (r: Outcome)
    ensures FindSettings(rows, u.userId).Some? ==>
      var k := FindSettings(rows, u.userId).value;
      r == Outcome(rows[k := MergeSettings(rows[k], u, now)], MergeSettings(rows[k], u, now))
    ensures FindSettings(rows, u.userId).None? ==>
      r == Outcome(rows + [InsertedSettings(u, nextId, now)], InsertedSettings(u, nextId, now))
    ensures |rows| <= |r.table| <= |rows| + 1
    ensures forall i :: 0 <= i < |rows| && rows[i].userId != u.userId ==> r.table[i] == rows[i]
    ensures OneRowPerUser(rows) ==> OneRowPerUser(r.table) && OnlyRowOf(r.table, u.userId, r.row)
  {
    match FindSettings(rows, u.userId)
    case Some(k) =>
      var merged := MergeSettings(rows[k], u, now);
      assert rows[k := merged][k] == merged;
      Outcome(rows[k := merged], merged)
    case None => Outcome(rows + [InsertedSettings(u, nextId, now)], InsertedSettings(u, nextId, now))
  }

  /** Once `getUserSettings` has run for a user, the next call finds the
      row it returned and inserts nothing. */
  lemma GetOrCreateStable(rows: seq<UserSettings>, user: string, nextId: int, now: int, nextId': int, now': int)
    ensures var first := GetOrCreate(rows, user, nextId, now);
      GetOrCreate(first.table, user, nextId', now') == first
  {
    var first := GetOrCreate(rows, user, nextId, now);
    if FindSettings(rows, user).None? {
      var k := FindSettings(first.table, user);
      assert k.Some? by {
        assert first.table[|rows|].userId == user;
      }
      assert k.value == |rows|;
    }
  }

  /** Two different users asking in turn get two different rows. */
  lemma DistinctUsersDistinctRows(rows: seq<UserSettings>, u1: string, u2: string, nextId: int, now1: int, now2: int)
    requires IdsFresh(rows, SettingsId, nextId) && u1 != u2
    ensures var first := GetOrCreate(rows, u1, nextId, now1);
      var next := if |first.table| == |rows| then nextId else nextId + 1;
      var second := GetOrCreate(first.table, u2, next, now2);
      first.row.id != second.row.id
  {
    var first := GetOrCreate(rows, u1, nextId, now1);
    var next := if |first.table| == |rows| then nextId else nextId + 1;
    if |first.table| != |rows| {
      AppendKeepsIdsFresh(rows, SettingsId, nextId, first.row, next);
    }
    assert IdsFresh(first.table, SettingsId, next);
    var second := GetOrCreate(first.table, u2, next, now2);
    var i :| 0 <= i < |first.table| && first.table[i] == first.row;
    match FindSettings(first.table, u2)
    case Some(j) =>
      assert i != j;
      if first.row.id == second.row.id {
        IdsFreshUnique(first.table, SettingsId, next, i, j);
      }
    case None =>
  }

  /** Sending the same update twice leaves the same settings as sending it
      once; only `updated_at` moves. */
  lemma MergeIdempotent(row: UserSettings, u: SettingsUpdate, now: int, now': int)
    ensures MergeSettings(MergeSettings(row, u, now), u, now') == MergeSettings(row, u, now')
  {
  }

  /** An update carrying all three fields overwrites every setting: the
      result does not depend on what was stored. */
  lemma FullUpdateOverwrites(a: UserSettings, b: UserSettings, u: SettingsUpdate, now: int)
    requires u.timerDuration.Some? && u.darkMode.Some? && u.reminderEnabled.Some?
    requires a.id == b.id && a.userId == b.userId && a.createdAt == b.createdAt
    ensures MergeSettings(a, u, now) == MergeSettings(b, u, now)
  {
  }

  /** Validated updates keep every stored timer duration positive. */
  lemma UpsertKeepsRecordsValid(rows: seq<UserSettings>, u: SettingsUpdate, nextId: int, now: int)
    requires forall i :: 0 <= i < |rows| ==> SettingsRecordValid(rows[i])
    requires SettingsUpdateValid(u)
    ensures var r := Upsert(rows, u, nextId, now);
      SettingsRecordValid(r.row) && forall i :: 0 <= i < |r.table| ==> SettingsRecordValid(r.table[i])
  {
  }

  /** `getUserSettings`: read, and insert the defaults on a miss. */
  method GetUserSettings(db: Store, userId: string, now: int) returns (r: UserSettings)
    requires db.Valid()
    modifies db`settings, db`nextId
    ensures db.Valid()
    ensures Outcome(db.settings, r) == GetOrCreate(old(db.settings), userId, old(db.nextId), now)
    ensures db.nextId == old(db.nextId) + (|db.settings| - |old(db.settings)|)
  {
    var existing := FindSettings(db.settings, userId);
    if existing.Some? {
      r := db.settings[existing.value];
    } else {
      r := db.InsertSettings(userId, DefaultTimerDuration, DefaultDarkMode, DefaultReminderEnabled, now);
    }
  }

  /** `updateUserSettings`: read, then update the stored row in place or
      insert a new one. */
  method UpdateUserSettings(db: Store, input: SettingsUpdate, now: int) returns (r: UserSettings)
    requires db.Valid()
    modifies db`settings, db`nextId
    ensures db.Valid()
    ensures Outcome(db.settings, r) == Upsert(old(db.settings), input, old(db.nextId), now)
    ensures db.nextId == old(db.nextId) + (|db.settings| - |old(db.settings)|)
  {
    var existing := FindSettings(db.settings, input.userId);
    if existing.Some? {
      var k := existing.value;
      r := MergeSettings(db.settings[k], input, now);
      db.UpdateSettingsRow(k, r);
    } else {
      r := db.InsertSettings(input.userId, input.timerDuration.GetOr(DefaultTimerDuration),
                             input.darkMode.GetOr(DefaultDarkMode),
                             input.reminderEnabled.GetOr(DefaultReminderEnabled), now);
    }
  }
}
