/** The schedule tab: one block per roster user with the month's total hours
    and the day cells in date order, month navigation, and the hours dialog.
    The records and the roster are what the schedule GET returns. */
module ScheduleTab {
  import opened Common
  import opened Schedule

  // ---------------------------------------------------------------------------
  // Per-user totals

  /** `schedule.filter(s => s.user_id === user.id)`. */
  function UserRecords(records: seq<DayRecord>, userId: int): (r: seq<DayRecord>)
    ensures forall d :: d in r <==> d in records && d.userId == userId
  {
    FilterBy(records, (d: DayRecord) => d.userId == userId)
  }

  /** `reduce((sum, r) => sum + r.hours, 0)`. */
  function SumHours(records: seq<DayRecord>): real
  {
    if records == [] then 0.0 else records[0].hours + SumHours(records[1..])
  }

  /** The total shown in a user's block. */
  function TotalHours(records: seq<DayRecord>, userId: int): real
  {
    SumHours(UserRecords(records, userId))
  }

  /** The reference definition: the hours of the records that carry the
      user's id, each counted once. */
  function HoursOf(records: seq<DayRecord>, userId: int): real
  {
    if records == [] then 0.0
    else (if records[0].userId == userId then records[0].hours else 0.0) + HoursOf(records[1..], userId)
  }

  lemma {:induction false} TotalHoursIsHoursOf(records: seq<DayRecord>, userId: int)
    ensures TotalHours(records, userId) == HoursOf(records, userId)
  {
    if records != [] {
      TotalHoursIsHoursOf(records[1..], userId);
    }
  }

  /** Totals add up over any split of the records. */
  lemma {:induction false} HoursOfAppend(a: seq<DayRecord>, b: seq<DayRecord>, userId: int)
    ensures HoursOf(a + b, userId) == HoursOf(a, userId) + HoursOf(b, userId)
  {
    if a != [] {
      assert (a + b)[1..] == a[1..] + b;
      HoursOfAppend(a[1..], b, userId);
    } else {
      assert a + b == b;
    }
  }

  /** Records of other users never change a user's total. */
  lemma OthersDoNotCount(records: seq<DayRecord>, others: seq<DayRecord>, userId: int)
    requires forall d :: d in others ==> d.userId != userId
    ensures TotalHours(records + others, userId) == TotalHours(records, userId)
  {
    TotalHoursIsHoursOf(records + others, userId);
    TotalHoursIsHoursOf(records, userId);
    HoursOfAppend(records, others, userId);
    NoRecordsNoHours(others, userId);
    TotalHoursIsHoursOf(others, userId);
  }

  /** A user without records shows a total of 0 and no day cells. */
  lemma NoRecordsNoHours(records: seq<DayRecord>, userId: int)
    requires forall d :: d in records ==> d.userId != userId
    ensures TotalHours(records, userId) == 0.0 && UserRecords(records, userId) == []
  {
  }

  // ---------------------------------------------------------------------------
  // Day cells

  /** `new Date(a.work_date).getTime() - new Date(b.work_date).getTime()`,
      as a preorder. */
  predicate EarlierOrSame(a: DayRecord, b: DayRecord)
  {
    DateLe(a.workDate, b.workDate)
  }

  /** The user's records sorted by date; `Array.prototype.sort` is stable. */
  function DayCells(records: seq<DayRecord>, userId: int): seq<DayRecord>
  {
    SortBy(UserRecords(records, userId), EarlierOrSame)
  }

  /** The cells are exactly the user's records, each once, in ascending date
      order. */
  lemma DayCellsSpec(records: seq<DayRecord>, userId: int)
    ensures SortedBy(DayCells(records, userId), EarlierOrSame)
    ensures multiset(DayCells(records, userId)) == multiset(UserRecords(records, userId))
  {
    SortBySorted(UserRecords(records, userId), EarlierOrSame);
  }

  // ---------------------------------------------------------------------------
  // The blocks

  datatype UserBlock = UserBlock(user: RosterEntry, total: real, cells: seq<DayRecord>)

  datatype Body = Placeholder | Blocks(blocks: seq<UserBlock>)

  /** An empty roster shows the placeholder; otherwise one block per roster
      user, in roster order. */
  function Render(records: seq<DayRecord>, roster: seq<RosterEntry>): (v: Body)
    ensures v == Placeholder <==> roster == []
    ensures v.Blocks? ==> |v.blocks| == |roster| && forall i :: 0 <= i < |roster| ==>
      v.blocks[i] == UserBlock(roster[i], TotalHours(records, roster[i].id), DayCells(records, roster[i].id))
  {
    if roster == [] then Placeholder
    else Blocks(seq(|roster|, i requires 0 <= i < |roster| =>
      UserBlock(roster[i], TotalHours(records, roster[i].id), DayCells(records, roster[i].id))))
  }

  // ---------------------------------------------------------------------------
  // Month navigation

  /** A month as `Date` holds it: `getMonth()` runs from 0 to 11. */
  datatype MonthRef = MonthRef(year: int, month: int)

  predicate Normal(m: MonthRef)
  {
    0 <= m.month < 12
  }

  /** The year `new Date(year, month)` starts from: a year argument from 0
      to 99 is read as 1900 plus that year. */
  function FullYear(year: int): (y: int)
    ensures 0 <= year <= 99 ==> y == 1900 + year
    ensures year < 0 || 99 < year ==> y == year
  {
    if 0 <= year <= 99 then 1900 + year else year
  }

  /** `new Date(year, month)` carries an out-of-range month into the year,
      after reading a two-digit year as a year of the 1900s. */
  function MonthAt(year: int, month: int): (m: MonthRef)
    ensures Normal(m) && m.year * 12 + m.month == FullYear(year) * 12 + month
    ensures (year < 0 || 99 < year) ==> m.year * 12 + m.month == year * 12 + month
  {
    MonthRef(FullYear(year) + month / 12, month % 12)
  }

  /** The previous-month button. */
  function PrevMonth(m: MonthRef): (r: MonthRef)
    requires Normal(m)
    ensures Normal(r)
    ensures m.month == 0 ==> r == MonthRef(FullYear(m.year) - 1, 11)
    ensures m.month > 0 ==> r == MonthRef(FullYear(m.year), m.month - 1)
  {
    MonthAt(m.year, m.month - 1)
  }

  /** The next-month button. */
  function NextMonth(m: MonthRef): (r: MonthRef)
    requires Normal(m)
    ensures Normal(r)
    ensures m.month == 11 ==> r == MonthRef(FullYear(m.year) + 1, 0)
    ensures m.month < 11 ==> r == MonthRef(FullYear(m.year), m.month + 1)
  {
    MonthAt(m.year, m.month + 1)
  }

  /** The two buttons undo each other, away from the years that `Date`
      reads as two-digit ones. */
  lemma PrevNextInverse(m: MonthRef)
    requires Normal(m)
    requires m.year < -1 || 100 < m.year
    ensures PrevMonth(NextMonth(m)) == m && NextMonth(PrevMonth(m)) == m
  {
  }

  /** Near the two-digit years they do not: stepping forward from December
      of the year 99 lands in January 2000, and stepping back from there in
      December 1999. */
  lemma TwoDigitYearBreaksInverse()
    ensures NextMonth(MonthRef(99, 11)) == MonthRef(2000, 0)
    ensures PrevMonth(NextMonth(MonthRef(99, 11))) == MonthRef(1999, 11)
    ensures PrevMonth(MonthRef(0, 0)) == MonthRef(1899, 11)
  {
  }

  // ---------------------------------------------------------------------------
  // The hours dialog

  class HoursDialog {
    var userId: int
    var date: string
    var hours: real
    var open: bool

    constructor()
      ensures userId == 0 && date == "" && hours == 0.0 && !open
    {
      userId, date, hours, open := 0, "", 0.0, false;
    }

    /** `handleSaveSchedule`: forwards the three fields as they are, with no
        check of the user, the date or the hours, then resets the form. */
    method HandleSave() returns (saved: (int, string, real))
      modifies this
      ensures saved == (old(userId), old(date), old(hours))
      ensures userId == 0 && date == "" && hours == 0.0 && !open
    {
      saved := (userId, date, hours);
      open, date, userId, hours := false, "", 0, 0.0;
    }
  }
}
