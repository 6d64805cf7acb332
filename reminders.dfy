/** The subject reminder clock: exam reminders, the upcoming ones in date
    order, a day countdown with urgency bands, and a table of all exams.
    Times are milliseconds; `now` is one reading of the clock. */
module ReminderClock {
  import opened Common
  import opened Seqs
  import opened CollectionStore

  datatype ExamReminder = ExamReminder(id: string, examName: string, subject: string, examDate: int, className: string)

  /** The draft; `examDate` is the date-time input's string. */
  datatype ReminderForm = ReminderForm(examName: string, subject: string, examDate: string, className: string)

  const EmptyForm := ReminderForm("", "", "", "")

  /** `1000 * 60 * 60 * 24`. */
  const MsPerDay: int := 86400000

  function ReminderId(r: ExamReminder): string { r.id }

  function ExamTime(r: ExamReminder): int { r.examDate }

  /** The reminder a submission stores; `parseDate` stands for `new Date(s)`. */
  function NewReminder(id: string, f: ReminderForm, parseDate: string -> int): (r: ExamReminder)
    ensures r.id == id && r.examName == f.examName && r.subject == f.subject
    ensures r.examDate == parseDate(f.examDate) && r.className == f.className
  {
    ExamReminder(id, f.examName, f.subject, parseDate(f.examDate), f.className)
  }

  // ---------------------------------------------------------------------
  // Upcoming exams

  function UpcomingAt(now: int): ExamReminder -> bool
  {
    (r: ExamReminder) => r.examDate > now
  }

  /** `getUpcomingExams()`: the exams strictly after `now`, earliest first. */
  function UpcomingExams(rs: seq<ExamReminder>, now: int): (up: seq<ExamReminder>)
    ensures forall r :: r in up <==> r in rs && r.examDate > now
    ensures SortedBy(up, ExamTime)
    ensures multiset(up) == multiset(Filter(rs, UpcomingAt(now)))
  {
    var f := Filter(rs, UpcomingAt(now));
    var up := SortBy(f, ExamTime);
    assert forall r :: r in up <==> r in multiset(up);
    assert forall r :: r in f <==> r in multiset(f);
    assert forall r :: UpcomingAt(now)(r) == (r.examDate > now);
    up
  }

  /** Exams at the same instant are listed in the order they were added. */
  lemma UpcomingKeepsOrderOfTies(rs: seq<ExamReminder>, now: int, t: int)
    ensures Filter(UpcomingExams(rs, now), KeyIs(ExamTime, t)) == Filter(Filter(rs, UpcomingAt(now)), KeyIs(ExamTime, t))
  {
    SortStable(Filter(rs, UpcomingAt(now)), ExamTime, t);
  }

  /** `nextExam = upcomingExams[0]`: the earliest upcoming exam, absent exactly
      when nothing is upcoming. */
  function NextExam(rs: seq<ExamReminder>, now: int): (next: Option<ExamReminder>)
    ensures next.None? <==> forall r :: r in rs ==> r.examDate <= now
    ensures next.Some? ==> next.value in rs && next.value.examDate > now
    ensures next.Some? ==> forall r :: r in rs && r.examDate > now ==> next.value.examDate <= r.examDate
    ensures next.Some? ==> exists k :: 0 <= k < |rs| && rs[k] == next.value
                                       && forall j :: 0 <= j < k ==> !(rs[j].examDate > now && rs[j].examDate == next.value.examDate)
  {
    var up := UpcomingExams(rs, now);
    if up == [] then None
    else
      EarliestFirst(up);
      FirstAddedOfEarliest(rs, now);
      Some(up[0])
  }

  /** Of several upcoming exams at the earliest instant, the sorted list starts
      with the one added first: the sort is stable. */
  lemma FirstAddedOfEarliest(rs: seq<ExamReminder>, now: int)
    requires UpcomingExams(rs, now) != []
    ensures var h := UpcomingExams(rs, now)[0];
            exists k :: 0 <= k < |rs| && rs[k] == h
                        && forall j :: 0 <= j < k ==> !(rs[j].examDate > now && rs[j].examDate == h.examDate)
  {
    var up := UpcomingExams(rs, now);
    var h := up[0];
    var ties := KeyIs(ExamTime, h.examDate);
    EarliestHeadsTies(rs, now);
    FilterFilter(rs, UpcomingAt(now), ties);
    FilterHeadIsFound(rs, Both(UpcomingAt(now), ties));
    var k := FindIndex(rs, Both(UpcomingAt(now), ties)).value;
    assert rs[k] == h;
    forall j | 0 <= j < k ensures !(rs[j].examDate > now && rs[j].examDate == h.examDate) {
      var r := rs[j];
      assert !Both(UpcomingAt(now), ties)(r);
      assert Both(UpcomingAt(now), ties)(r) == (UpcomingAt(now)(r) && ties(r));
      assert UpcomingAt(now)(r) == (r.examDate > now);
      assert ties(r) == (ExamTime(r) == h.examDate);
    }
  }

  /** The earliest upcoming exam heads the upcoming exams at its instant, taken
      in the order they were added. */
  lemma EarliestHeadsTies(rs: seq<ExamReminder>, now: int)
    requires UpcomingExams(rs, now) != []
    ensures var h := UpcomingExams(rs, now)[0];
            var first := Filter(Filter(rs, UpcomingAt(now)), KeyIs(ExamTime, h.examDate));
            first != [] && first[0] == h
  {
    var up := UpcomingExams(rs, now);
    var h := up[0];
    UpcomingKeepsOrderOfTies(rs, now, h.examDate);
    assert KeyIs(ExamTime, h.examDate)(h) == (ExamTime(h) == h.examDate);
    FilterKeepsHead(up, KeyIs(ExamTime, h.examDate));
  }

  /** The head of a list sorted by date is no later than any of its members. */
  lemma EarliestFirst(up: seq<ExamReminder>)
    requires up != [] && SortedBy(up, ExamTime)
    ensures forall r :: r in up ==> up[0].examDate <= r.examDate
  {
    forall r | r in up ensures up[0].examDate <= r.examDate {
      var j :| 0 <= j < |up| && up[j] == r;
      assert j == 0 || ExamTime(up[0]) <= ExamTime(up[j]);
    }
  }

  // ---------------------------------------------------------------------
  // Countdown

  /** `getDaysUntilExam`: `Math.ceil((examDate - now) / MsPerDay)`, the whole
      number of days such that the remaining time is more than one day less
      and at most that many days. */
  function DaysUntilExam(examDate: int, now: int): (days: int)
    ensures MsPerDay * (days - 1) < examDate - now <= MsPerDay * days
  {
    -((now - examDate) / MsPerDay)
  }

  /** An exam strictly in the future is at least one day away. */
  lemma DaysLeftPositive(examDate: int, now: int)
    requires examDate > now
    ensures DaysUntilExam(examDate, now) >= 1
  {
  }

  /** An earlier exam never has more days left than a later one. */
  lemma DaysLeftMonotone(a: int, b: int, now: int)
    requires a <= b
    ensures DaysUntilExam(a, now) <= DaysUntilExam(b, now)
  {
    var da, db := DaysUntilExam(a, now), DaysUntilExam(b, now);
    assert MsPerDay * (da - 1) < MsPerDay * db;
  }

  /** Every upcoming exam shows a countdown of at least one day. */
  lemma UpcomingCountdownPositive(rs: seq<ExamReminder>, now: int)
    ensures forall r :: r in UpcomingExams(rs, now) ==> DaysUntilExam(r.examDate, now) >= 1
  {
  }

  // ---------------------------------------------------------------------
  // Urgency and labels

  datatype Badge = Red | Yellow | Green | Gray

  /** `isUrgent`. */
  predicate IsUrgent(days: int) { days <= 3 }

  /** An exam is urgent exactly when it is at most three days (72 hours)
      away, counting to the millisecond. */
  lemma UrgentWithinThreeDays(examDate: int, now: int)
    ensures IsUrgent(DaysUntilExam(examDate, now)) <==> examDate - now <= 3 * MsPerDay
  {
    var d := DaysUntilExam(examDate, now);
    if d >= 4 {
      assert MsPerDay * 3 <= MsPerDay * (d - 1);
    }
    if d <= 3 {
      assert MsPerDay * d <= MsPerDay * 3;
    }
  }

  /** The badge colour of an upcoming exam: red when urgent, yellow up to a
      week, green beyond. */
  function UrgencyBadge(days: int): (b: Badge)
    ensures b == Red <==> IsUrgent(days)
    ensures b == Yellow <==> 3 < days <= 7
    ensures b == Green <==> 7 < days
  {
    if days <= 3 then Red else if days <= 7 then Yellow else Green
  }

  function Urgency(b: Badge): nat
  {
    match b
    case Red => 2
    case Yellow => 1
    case Green => 0
    case Gray => 0
  }

  /** A later exam is never more urgent than an earlier one. */
  lemma LaterIsNoMoreUrgent(a: int, b: int, now: int)
    requires a <= b
    ensures Urgency(UrgencyBadge(DaysUntilExam(b, now))) <= Urgency(UrgencyBadge(DaysUntilExam(a, now)))
  {
    DaysLeftMonotone(a, b, now);
  }

  /** The table's badge: grey for exams that are over, else the urgency band. */
  function TableBadge(upcoming: bool, days: int): (b: Badge)
    ensures !upcoming ==> b == Gray
    ensures upcoming ==> b == UrgencyBadge(days) && b != Gray
  {
    if !upcoming then Gray else UrgencyBadge(days)
  }

  datatype Countdown = Completed | Today | Tomorrow | DaysAway(n: int)

  /** The urgency badge text on an upcoming exam's card, as written: 0 is
      "Today", 1 "Tomorrow", anything else "n days". */
  function CardLabel(days: int): (c: Countdown)
    ensures c == Today <==> days == 0
    ensures c == Tomorrow <==> days == 1
    ensures c.DaysAway? <==> days != 0 && days != 1
    ensures c.DaysAway? ==> c.n == days
    ensures c != Completed
  {
    if days == 0 then Today else if days == 1 then Tomorrow else DaysAway(days)
  }

  /** The table's status text, as written: "Completed" for an exam that is
      over, otherwise the card's label. */
  function TableStatus(upcoming: bool, days: int): (c: Countdown)
    ensures !upcoming ==> c == Completed
    ensures upcoming ==> c == CardLabel(days)
  {
    if !upcoming then Completed else CardLabel(days)
  }

  /** As written, "Today" is never shown: an upcoming exam is at least one
      (rounded-up) day away. */
  lemma TodayNeverShown(examDate: int, now: int)
    ensures CardLabel(DaysUntilExam(examDate, now)) == Today ==> examDate <= now
    ensures TableStatus(examDate > now, DaysUntilExam(examDate, now)) != Today
  {
  }

  /** As written, an exam two hours away is labelled "Tomorrow". */
  lemma ExamLaterTodaySaysTomorrow(now: int)
    ensures CardLabel(DaysUntilExam(now + 7200000, now)) == Tomorrow
    ensures TableStatus(true, DaysUntilExam(now + 7200000, now)) == Tomorrow
  {
  }

  /** The label with the evident intent: "Today" for an exam less than a day
      away, "Tomorrow" for one between one and two days away, otherwise the
      number of whole days left, so "2 days" covers every moment from 48 up to
      72 hours away. */
  function CorrectedLabel(examDate: int, now: int): (c: Countdown)
    requires examDate > now
    ensures c == Today <==> examDate - now < MsPerDay
    ensures c == Tomorrow <==> MsPerDay <= examDate - now < 2 * MsPerDay
    ensures c.DaysAway? <==> 2 * MsPerDay <= examDate - now
    ensures c.DaysAway? ==> c.n == (examDate - now) / MsPerDay >= 2
  {
    var whole := (examDate - now) / MsPerDay;
    if whole == 0 then Today else if whole == 1 then Tomorrow else DaysAway(whole)
  }

  /** The table status with the corrected label. */
  function CorrectedTableStatus(r: ExamReminder, now: int): (c: Countdown)
    ensures r.examDate <= now <==> c == Completed
  {
    if r.examDate > now then CorrectedLabel(r.examDate, now) else Completed
  }

  /** One row of the all-exams table. */
  datatype ExamRow = ExamRow(reminder: ExamReminder, status: Countdown, badge: Badge)

  /** One row as the table renders it: the status from the rounded-up day
      count, so an exam two hours away reads "Tomorrow". */
  function RowOf(r: ExamReminder, now: int): (row: ExamRow)
    ensures row.reminder == r
    ensures r.examDate <= now <==> row.status == Completed
    ensures r.examDate > now ==> row.status == CardLabel(DaysUntilExam(r.examDate, now))
    ensures row.status != Today
    ensures row.badge == TableBadge(r.examDate > now, DaysUntilExam(r.examDate, now))
  {
    ExamRow(r, TableStatus(r.examDate > now, DaysUntilExam(r.examDate, now)),
            TableBadge(r.examDate > now, DaysUntilExam(r.examDate, now)))
  }

  /** The same row with the corrected status: it differs from `RowOf` only in
      the status, and only for an upcoming exam whose rounded-up day count is
      not its whole-day count. */
  function CorrectedRowOf(r: ExamReminder, now: int): (row: ExamRow)
    ensures row.reminder == r && row.badge == RowOf(r, now).badge
    ensures row.status == CorrectedTableStatus(r, now)
    ensures (row.status == Completed) == (RowOf(r, now).status == Completed)
    ensures r.examDate <= now || (r.examDate - now) % MsPerDay == 0 <==> row == RowOf(r, now)
  {
    ExamRow(r, CorrectedTableStatus(r, now), TableBadge(r.examDate > now, DaysUntilExam(r.examDate, now)))
  }

  /** The rows of the table, one per reminder in the given order. */
  function TableRows(rs: seq<ExamReminder>, now: int): (rows: seq<ExamRow>)
    ensures |rows| == |rs|
    ensures forall i :: 0 <= i < |rs| ==> rows[i] == RowOf(rs[i], now)
  {
    seq(|rs|, i requires 0 <= i < |rs| => RowOf(rs[i], now))
  }

  /** The screen's state: the stored reminders and the draft. */
  class Clock {
    const reminders: Collection<ExamReminder>
    var form: ReminderForm

    ghost predicate Valid()
    {
      reminders.idOf == ReminderId
    }

    constructor (loaded: seq<ExamReminder>)
      ensures Valid() && fresh(reminders)
      ensures reminders.items == loaded && form == EmptyForm
    {
      reminders := new Collection(ReminderId, loaded);
      form := EmptyForm;
    }

    /** `handleSubmit`: append exactly one reminder and reset the draft. */
    method HandleSubmit(freshId: string, parseDate: string -> int)
      requires Valid()
      modifies this, reminders
      ensures Valid()
      ensures reminders.items == old(reminders.items) + [NewReminder(freshId, old(form), parseDate)]
      ensures form == EmptyForm
    {
      reminders.Append(NewReminder(freshId, form, parseDate));
      form := EmptyForm;
    }

    /** Rendering the all-exams table: `reminders.sort(...)` reorders the
        stored array in place by date (a stable permutation), then one row is
        produced per reminder. */
    method AllExamsTable(now: int) returns (rows: seq<ExamRow>)
      requires Valid()
      modifies reminders
      ensures reminders.items == SortBy(old(reminders.items), ExamTime)
      ensures multiset(reminders.items) == multiset(old(reminders.items))
      ensures SortedBy(reminders.items, ExamTime)
      ensures rows == TableRows(reminders.items, now)
    {
      reminders.SortInPlace(ExamTime);
      rows := TableRows(reminders.items, now);
    }
  }
}
