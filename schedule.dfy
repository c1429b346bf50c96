/** Rows of the `schedule` table and the pure parts of the schedule handler:
    the upsert keyed on (user_id, work_date), the hours update, and the month
    listing with its roster. The handler itself is
    `Backend.Database.HandleSchedule`. */
module Schedule {
  import opened Common
  import Users

  /** A row of `schedule`. Hours are exact rationals. */
  datatype Entry = Entry(id: int, userId: Option<int>, workDate: Option<Date>, hours: real)

  /** The JSON body of a POST or PUT; `None` is an absent key. */
  datatype ScheduleBody = ScheduleBody(
    id: Option<int>,
    userId: Option<int>,
    workDate: Option<Date>,
    hours: Option<real>)

  /** A listed record: a schedule row joined with its user. */
  datatype DayRecord = DayRecord(
    id: int,
    userId: int,
    workDate: Date,
    hours: real,
    fullName: Option<string>,
    login: Option<string>)

  datatype RosterEntry = RosterEntry(id: int, fullName: Option<string>, login: Option<string>)

  /** The GET body: `{schedule, users}`. */
  datatype MonthView = MonthView(schedule: seq<DayRecord>, users: seq<RosterEntry>)

  // ---------------------------------------------------------------------------
  // POST: INSERT ... ON CONFLICT (user_id, work_date) DO UPDATE SET hours

  /** `e` conflicts with a row inserted for this key. A NULL in the key never
      conflicts: NULLs are distinct under a unique constraint. */
  predicate HasKey(e: Entry, userId: Option<int>, workDate: Option<Date>)
  {
    userId.Some? && workDate.Some? && e.userId == userId && e.workDate == workDate
  }

  /** The unique constraint on (user_id, work_date). */
  predicate UniqueKeys(rows: seq<Entry>)
  {
    forall i, j :: 0 <= i < j < |rows| ==> !HasKey(rows[j], rows[i].userId, rows[i].workDate)
  }

  function Conflict(rows: seq<Entry>, userId: Option<int>, workDate: Option<Date>): (r: Option<Entry>)
    ensures r.Some? ==> r.value in rows && HasKey(r.value, userId, workDate)
    ensures r.None? <==> forall e :: e in rows ==> !HasKey(e, userId, workDate)
  {
    FindFirst(rows, (e: Entry) => HasKey(e, userId, workDate))
  }

  /** The table after the upsert: the conflicting row gets the new hours,
      or a new row is appended with `freshId`. */
  function Upserted(rows: seq<Entry>, userId: Option<int>, workDate: Option<Date>, hours: real, freshId: int)
    : (r: seq<Entry>)
    ensures Conflict(rows, userId, workDate).Some? ==> |r| == |rows|
    ensures Conflict(rows, userId, workDate).None? ==> r == rows + [Entry(freshId, userId, workDate, hours)]
    ensures forall i :: 0 <= i < |rows| ==>
      r[i] == if HasKey(rows[i], userId, workDate) then rows[i].(hours := hours) else rows[i]
  {
    if Conflict(rows, userId, workDate).Some? then
      UpdateWhere(rows, (e: Entry) => HasKey(e, userId, workDate), (e: Entry) => e.(hours := hours))
    else
      rows + [Entry(freshId, userId, workDate, hours)]
  }

  /** The id `RETURNING id` yields: the updated row's, or the fresh one. */
  function UpsertedId(rows: seq<Entry>, userId: Option<int>, workDate: Option<Date>, freshId: int): (id: int)
    ensures Conflict(rows, userId, workDate).None? ==> id == freshId
    ensures Conflict(rows, userId, workDate).Some? ==> exists e :: e in rows && HasKey(e, userId, workDate) && e.id == id
  {
    match Conflict(rows, userId, workDate)
    case Some(e) => e.id
    case None => freshId
  }

  /** The upsert keeps at most one row per (user_id, work_date). */
  lemma UpsertKeepsKeysUnique(rows: seq<Entry>, userId: Option<int>, workDate: Option<Date>, hours: real, freshId: int)
    requires UniqueKeys(rows)
    ensures UniqueKeys(Upserted(rows, userId, workDate, hours, freshId))
  {
    var r := Upserted(rows, userId, workDate, hours, freshId);
    if Conflict(rows, userId, workDate).Some? {
      forall i, j | 0 <= i < j < |r| ensures !HasKey(r[j], r[i].userId, r[i].workDate) {
        assert r[i].userId == rows[i].userId && r[i].workDate == rows[i].workDate;
        assert r[j].userId == rows[j].userId && r[j].workDate == rows[j].workDate;
      }
    } else {
      forall i, j | 0 <= i < j < |r| ensures !HasKey(r[j], r[i].userId, r[i].workDate) {
        if j == |rows| {
          assert !HasKey(rows[i], userId, workDate);
        }
      }
    }
  }

  /** After an upsert with a full key there is exactly one row with that
      key; it holds the new hours and the returned id. */
  lemma UpsertStoresHours(rows: seq<Entry>, userId: Option<int>, workDate: Option<Date>, hours: real, freshId: int)
    requires UniqueKeys(rows) && userId.Some? && workDate.Some?
    ensures var r := Upserted(rows, userId, workDate, hours, freshId);
      exists i :: 0 <= i < |r| && HasKey(r[i], userId, workDate) && r[i].hours == hours
        && r[i].id == UpsertedId(rows, userId, workDate, freshId)
        && forall j :: 0 <= j < |r| && HasKey(r[j], userId, workDate) ==> j == i
  {
    var r := Upserted(rows, userId, workDate, hours, freshId);
    UpsertKeepsKeysUnique(rows, userId, workDate, hours, freshId);
    match Conflict(rows, userId, workDate)
    case None =>
      var i := |rows|;
      assert HasKey(r[i], userId, workDate);
    case Some(e) =>
      var i :| 0 <= i < |rows| && rows[i] == e;
      assert HasKey(r[i], userId, workDate);
  }

  function IdOf(e: Entry): int
  {
    e.id
  }

  /** The upsert keeps ids serial: an update keeps every id, an insert
      takes the next one. */
  lemma UpsertKeepsIdsSerial(rows: seq<Entry>, userId: Option<int>, workDate: Option<Date>, hours: real, freshId: int)
    requires StampedBelow(rows, IdOf, freshId)
    ensures StampedBelow(Upserted(rows, userId, workDate, hours, freshId), IdOf, freshId + 1)
  {
    var r := Upserted(rows, userId, workDate, hours, freshId);
    if Conflict(rows, userId, workDate).Some? {
      StampedKept(rows, r, IdOf, freshId, freshId + 1);
    } else {
      StampedAppend(rows, Entry(freshId, userId, workDate, hours), IdOf, freshId);
    }
  }

  /** Two upserts on one key leave one row with the later hours, as if only
      the later upsert had run (the row keeps the first upsert's id). */
  lemma UpsertTwice(rows: seq<Entry>, userId: Option<int>, workDate: Option<Date>,
                    h1: real, h2: real, id1: int, id2: int)
    requires userId.Some? && workDate.Some?
    ensures Upserted(Upserted(rows, userId, workDate, h1, id1), userId, workDate, h2, id2)
         == Upserted(rows, userId, workDate, h2, id1)
  {
    var once := Upserted(rows, userId, workDate, h1, id1);
    var twice := Upserted(once, userId, workDate, h2, id2);
    var direct := Upserted(rows, userId, workDate, h2, id1);
    if Conflict(rows, userId, workDate).None? {
      assert once[|rows|] in once && HasKey(once[|rows|], userId, workDate);
    } else {
      var e := Conflict(rows, userId, workDate).value;
      var k :| 0 <= k < |rows| && rows[k] == e;
      assert once[k] in once && HasKey(once[k], userId, workDate);
    }
    assert |twice| == |direct|;
    forall i | 0 <= i < |twice| ensures twice[i] == direct[i] {
      if i < |rows| {
        assert once[i] == if HasKey(rows[i], userId, workDate) then rows[i].(hours := h1) else rows[i];
      }
    }
  }

  // ---------------------------------------------------------------------------
  // PUT: UPDATE schedule SET hours WHERE id

  /** Only the hours of the rows with that id change; user and date stay. */
  function SetHours(rows: seq<Entry>, id: Option<int>, hours: real): (r: seq<Entry>)
    ensures |r| == |rows|
    ensures forall i :: 0 <= i < |rows| ==>
      r[i].id == rows[i].id && r[i].userId == rows[i].userId && r[i].workDate == rows[i].workDate
    ensures forall i :: 0 <= i < |rows| ==>
      r[i].hours == if Some(rows[i].id) == id then hours else rows[i].hours
  {
    UpdateWhere(rows, (e: Entry) => Some(e.id) == id, (e: Entry) => e.(hours := hours))
  }

  /** A PUT changes nothing the upsert relies on: the keys stay unique. */
  lemma SetHoursKeepsKeysUnique(rows: seq<Entry>, id: Option<int>, hours: real)
    requires UniqueKeys(rows)
    ensures UniqueKeys(SetHours(rows, id, hours))
  {
    var r := SetHours(rows, id, hours);
    forall i, j | 0 <= i < j < |r| ensures !HasKey(r[j], r[i].userId, r[i].workDate) {
      assert !HasKey(rows[j], rows[i].userId, rows[i].workDate);
    }
  }

  // ---------------------------------------------------------------------------
  // GET: the month's records joined with their users, and the roster

  /** `if not year or not month`: either missing means the current month. */
  function RequestedMonth(year: Option<int>, month: Option<int>, today: Date): (ym: (int, int))
    ensures year.None? || month.None? ==> ym == (today.year, today.month)
    ensures year.Some? && month.Some? ==> ym == (year.value, month.value)
  {
    if year.None? || month.None? then (today.year, today.month) else (year.value, month.value)
  }

  predicate InMonth(e: Entry, year: int, month: int)
  {
    e.workDate.Some? && e.workDate.value.year == year && e.workDate.value.month == month
  }

  function RecordOf(e: Entry, u: Users.User): DayRecord
    requires e.workDate.Some?
  {
    DayRecord(e.id, u.id, e.workDate.value, e.hours, u.fullName, u.login)
  }

  function UserIdOf(u: Users.User): int
  {
    u.id
  }

  /** A schedule row the join keeps: it has a date and a user with its
      user_id exists. */
  predicate Joinable(e: Entry, users: seq<Users.User>)
  {
    e.workDate.Some? && exists u :: u in users && e.userId == Some(u.id)
  }

  /** The joined rows of one schedule row: one per user with its user_id. */
  function JoinOne(e: Entry, users: seq<Users.User>): (r: seq<DayRecord>)
    ensures forall d :: d in r <==>
      e.workDate.Some? && exists u :: u in users && e.userId == Some(u.id) && d == RecordOf(e, u)
    ensures e.workDate.None? ==> r == []
    ensures e.workDate.Some? ==> |r| == |FilterBy(users, (u: Users.User) => e.userId == Some(u.id))|
  {
    if e.workDate.None? then []
    else
      var matched := FilterBy(users, (u: Users.User) => e.userId == Some(u.id));
      var r := seq(|matched|, i requires 0 <= i < |matched| => RecordOf(e, matched[i]));
      assert forall u :: u in matched ==> RecordOf(e, u) in r by {
        forall u | u in matched ensures RecordOf(e, u) in r {
          var k :| 0 <= k < |matched| && matched[k] == u;
          assert r[k] == RecordOf(e, u);
        }
      }
      assert forall d :: d in r ==> exists u :: u in matched && d == RecordOf(e, u) by {
        forall d | d in r ensures exists u :: u in matched && d == RecordOf(e, u) {
          var k :| 0 <= k < |r| && r[k] == d;
          assert matched[k] in matched;
        }
      }
      r
  }

  /** With unique user ids a dated row whose user exists joins into exactly
      one record. */
  lemma JoinOneOnUniqueUserIds(e: Entry, users: seq<Users.User>, k: int)
    requires IncreasingBy(users, UserIdOf)
    requires 0 <= k < |users| && e.workDate.Some? && e.userId == Some(users[k].id)
    ensures JoinOne(e, users) == [RecordOf(e, users[k])]
  {
    var matches := (u: Users.User) => e.userId == Some(u.id);
    forall i | 0 <= i < |users| && i != k ensures !matches(users[i]) {
      assert UserIdOf(users[i]) != UserIdOf(users[k]);
    }
    FilterSingle(users, matches, k);
  }

  /** So with unique user ids a row yields one record, carrying its id, when
      it is joinable, and none otherwise. */
  lemma JoinOneSize(e: Entry, users: seq<Users.User>)
    requires IncreasingBy(users, UserIdOf)
    ensures Joinable(e, users) ==> |JoinOne(e, users)| == 1 && JoinOne(e, users)[0].id == e.id
    ensures !Joinable(e, users) ==> JoinOne(e, users) == []
  {
    if Joinable(e, users) {
      var u :| u in users && e.userId == Some(u.id);
      var k :| 0 <= k < |users| && users[k] == u;
      JoinOneOnUniqueUserIds(e, users, k);
    } else if e.workDate.Some? {
      FilterNone(users, (u: Users.User) => e.userId == Some(u.id));
    }
  }

  /** `schedule s JOIN users u ON s.user_id = u.id`, unordered. */
  function Join(rows: seq<Entry>, users: seq<Users.User>): (r: seq<DayRecord>)
    ensures forall d :: d in r <==>
      (exists e, u :: e in rows && u in users && e.workDate.Some? && e.userId == Some(u.id) && d == RecordOf(e, u))
  {
    if rows == [] then []
    else
      var r := JoinOne(rows[0], users) + Join(rows[1..], users);
      assert forall e :: e in rows ==> e == rows[0] || e in rows[1..];
      r
  }

  function RecordIdOf(d: DayRecord): int
  {
    d.id
  }

  /** Every joined record carries the id of a row it came from. */
  lemma JoinIdsFromRows(rows: seq<Entry>, users: seq<Users.User>, bound: int)
    requires forall e :: e in rows ==> bound < e.id
    ensures forall d :: d in Join(rows, users) ==> bound < d.id
  {
  }

  /** With unique schedule and user ids, the join yields one record per
      joinable row, in table order: so no record appears twice. */
  lemma {:induction false} JoinOncePerRow(rows: seq<Entry>, users: seq<Users.User>)
    requires IncreasingBy(rows, IdOf) && IncreasingBy(users, UserIdOf)
    ensures IncreasingBy(Join(rows, users), RecordIdOf)
    ensures |Join(rows, users)| == |FilterBy(rows, (e: Entry) => Joinable(e, users))|
  {
    if rows != [] {
      IncreasingTail(rows, IdOf);
      JoinOncePerRow(rows[1..], users);
      JoinStep(rows, users);
    }
  }

  /** One step of `JoinOncePerRow`: the first row's record, if any, goes in
      front of the rest's. */
  lemma JoinStep(rows: seq<Entry>, users: seq<Users.User>)
    requires rows != [] && IncreasingBy(rows, IdOf) && IncreasingBy(users, UserIdOf)
    requires IncreasingBy(Join(rows[1..], users), RecordIdOf)
    requires |Join(rows[1..], users)| == |FilterBy(rows[1..], (e: Entry) => Joinable(e, users))|
    ensures IncreasingBy(Join(rows, users), RecordIdOf)
    ensures |Join(rows, users)| == |FilterBy(rows, (e: Entry) => Joinable(e, users))|
  {
    var e := rows[0];
    var tail := rows[1..];
    JoinOneSize(e, users);
    forall e' | e' in tail ensures e.id < e'.id {
      var j :| 0 <= j < |tail| && tail[j] == e';
      assert IdOf(rows[0]) < IdOf(rows[j + 1]);
    }
    JoinIdsFromRows(tail, users, e.id);
    var rest := Join(tail, users);
    assert Join(rows, users) == JoinOne(e, users) + rest;
    if Joinable(e, users) {
      IncreasingCons(JoinOne(e, users)[0], rest, RecordIdOf);
      assert JoinOne(e, users) == [JoinOne(e, users)[0]];
    }
  }

  /** `ORDER BY s.work_date, u.full_name`. */
  predicate RecordLe(a: DayRecord, b: DayRecord)
  {
    DateLe(a.workDate, b.workDate) && (a.workDate == b.workDate ==> NullsLastLe(a.fullName, b.fullName))
  }

  lemma RecordLeTotalPreorder()
    ensures TotalPreorder(RecordLe)
  {
    forall a: DayRecord, b: DayRecord ensures RecordLe(a, b) || RecordLe(b, a) {
      NullsLastTotal(a.fullName, b.fullName);
    }
    forall a: DayRecord, b: DayRecord, c: DayRecord | RecordLe(a, b) && RecordLe(b, c)
      ensures RecordLe(a, c)
    {
      if a.workDate == c.workDate {
        NullsLastTransitive(a.fullName, b.fullName, c.fullName);
      }
    }
  }

  /** The month's records as GET lists them. */
  function MonthRecords(rows: seq<Entry>, users: seq<Users.User>, year: int, month: int): seq<DayRecord>
  {
    SortBy(Join(FilterBy(rows, (e: Entry) => InMonth(e, year, month)), users), RecordLe)
  }

  /** GET lists exactly the records dated in the requested month whose user
      exists, ordered by date and then by full name. */
  lemma MonthRecordsSpec(rows: seq<Entry>, users: seq<Users.User>, year: int, month: int)
    ensures var r := MonthRecords(rows, users, year, month);
      && SortedBy(r, RecordLe)
      && multiset(r) == multiset(Join(FilterBy(rows, (e: Entry) => InMonth(e, year, month)), users))
      && forall d :: d in r <==>
           (exists e, u :: e in rows && u in users && InMonth(e, year, month) && e.userId == Some(u.id) && d == RecordOf(e, u))
  {
    var joined := Join(FilterBy(rows, (e: Entry) => InMonth(e, year, month)), users);
    RecordLeTotalPreorder();
    SortBySorted(joined, RecordLe);
    SameMembers(MonthRecords(rows, users, year, month), joined);
  }

  /** With unique schedule and user ids, GET lists each dated row of the
      month whose user exists exactly once. */
  lemma MonthRecordsOncePerRow(rows: seq<Entry>, users: seq<Users.User>, year: int, month: int)
    requires IncreasingBy(rows, IdOf) && IncreasingBy(users, UserIdOf)
    ensures var r := MonthRecords(rows, users, year, month);
      && (forall d :: multiset(r)[d] <= 1)
      && |r| == |FilterBy(rows, (e: Entry) => InMonth(e, year, month) && Joinable(e, users))|
  {
    var inMonth := (e: Entry) => InMonth(e, year, month);
    var kept := FilterBy(rows, inMonth);
    FilterIncreasing(rows, inMonth, IdOf);
    JoinOncePerRow(kept, users);
    IncreasingOnce(Join(kept, users), RecordIdOf);
    MonthRecordsSpec(rows, users, year, month);
    FilterFuse(rows, inMonth, (e: Entry) => Joinable(e, users),
               (e: Entry) => InMonth(e, year, month) && Joinable(e, users));
    var r := MonthRecords(rows, users, year, month);
    assert |r| == |multiset(r)| == |multiset(Join(kept, users))|;
  }

  predicate OnRoster(u: Users.User)
  {
    u.role == Some("worker") || u.role == Some("manager")
  }

  function RosterEntryOf(u: Users.User): RosterEntry
  {
    RosterEntry(u.id, u.fullName, u.login)
  }

  /** `ORDER BY full_name`. */
  predicate NameLe(a: RosterEntry, b: RosterEntry)
  {
    NullsLastLe(a.fullName, b.fullName)
  }

  lemma NameLeTotalPreorder()
    ensures TotalPreorder(NameLe)
  {
    forall a: RosterEntry, b: RosterEntry ensures NameLe(a, b) || NameLe(b, a) {
      NullsLastTotal(a.fullName, b.fullName);
    }
    forall a: RosterEntry, b: RosterEntry, c: RosterEntry | NameLe(a, b) && NameLe(b, c)
      ensures NameLe(a, c)
    {
      NullsLastTransitive(a.fullName, b.fullName, c.fullName);
    }
  }

  /** The workers and managers in table order, before sorting: one entry
      per eligible user, position by position. */
  function RosterEntries(users: seq<Users.User>): (r: seq<RosterEntry>)
    ensures var eligible := FilterBy(users, OnRoster);
      |r| == |eligible| && forall i :: 0 <= i < |eligible| ==> r[i] == RosterEntryOf(eligible[i])
  {
    var eligible := FilterBy(users, OnRoster);
    seq(|eligible|, i requires 0 <= i < |eligible| => RosterEntryOf(eligible[i]))
  }

  /** The roster as GET lists it. */
  function Roster(users: seq<Users.User>): seq<RosterEntry>
  {
    SortBy(RosterEntries(users), NameLe)
  }

  /** The roster is exactly the workers and managers, ordered by full name,
      each eligible user's entry once. */
  lemma RosterSpec(users: seq<Users.User>)
    ensures var r := Roster(users);
      && SortedBy(r, NameLe)
      && (forall x :: x in r <==> exists u :: u in users && OnRoster(u) && x == RosterEntryOf(u))
      && multiset(r) == multiset(RosterEntries(users))
      && |r| == |FilterBy(users, OnRoster)|
  {
    var entries := RosterEntries(users);
    NameLeTotalPreorder();
    SortBySorted(entries, NameLe);
    RosterEntriesMembers(users);
    SameMembers(Roster(users), entries);
    assert |Roster(users)| == |multiset(Roster(users))| == |multiset(entries)| == |entries|;
  }

  lemma RosterEntriesMembers(users: seq<Users.User>)
    ensures forall x :: x in RosterEntries(users) <==> exists u :: u in users && OnRoster(u) && x == RosterEntryOf(u)
  {
    var eligible := FilterBy(users, OnRoster);
    var entries := RosterEntries(users);
    forall u | u in eligible ensures RosterEntryOf(u) in entries {
      var k :| 0 <= k < |eligible| && eligible[k] == u;
      assert entries[k] == RosterEntryOf(u);
    }
  }

  function RosterIdOf(x: RosterEntry): int
  {
    x.id
  }

  /** With unique user ids the roster lists each worker and manager once. */
  lemma RosterOncePerUser(users: seq<Users.User>)
    requires IncreasingBy(users, UserIdOf)
    ensures forall x :: multiset(Roster(users))[x] <= 1
  {
    var eligible := FilterBy(users, OnRoster);
    var entries := RosterEntries(users);
    FilterIncreasing(users, OnRoster, UserIdOf);
    assert IncreasingBy(entries, RosterIdOf) by {
      forall i, j | 0 <= i < j < |entries| ensures RosterIdOf(entries[i]) < RosterIdOf(entries[j]) {
        assert UserIdOf(eligible[i]) < UserIdOf(eligible[j]);
      }
    }
    IncreasingOnce(entries, RosterIdOf);
    RosterSpec(users);
  }

  /** The GET body for the requested month, or the current one. */
  function Month(rows: seq<Entry>, users: seq<Users.User>, year: Option<int>, month: Option<int>, today: Date)
    : MonthView
  {
    var ym := RequestedMonth(year, month, today);
    MonthView(MonthRecords(rows, users, ym.0, ym.1), Roster(users))
  }
}
