/** The student budget tracker: expense entries by category, a monthly view
    per roll, category totals and an average-per-month statistic. Amounts are
    whole currency units; `monthOf` stands for `toISOString().slice(0, 7)`. */
module BudgetTracker {
  import opened Common
  import opened Seqs
  import opened CollectionStore

  datatype Category = Tuition | Transport | Food | Personal | Fees

  datatype BudgetEntry = BudgetEntry(id: string, studentRoll: string, category: Category, description: string,
                                     amount: int, date: int, addedBy: string)

  /** The draft; `date` is the date input's string. */
  datatype BudgetForm = BudgetForm(studentRoll: string, category: Category, description: string,
                                   amount: int, date: string)

  /** The draft at start and after a submission: the user's roll, transport,
      nothing spent, today. */
  function ResetForm(user: Option<User>, today: string): (f: BudgetForm)
    ensures f.studentRoll == RollOf(user).GetOr("") && f.category == Transport
    ensures f.description == "" && f.amount == 0 && f.date == today
  {
    BudgetForm(RollOf(user).GetOr(""), Transport, "", 0, today)
  }

  function EntryId(e: BudgetEntry): string { e.id }

  /** The entry a submission stores; `parseDate` stands for `new Date(s)`. */
  function NewEntry(id: string, f: BudgetForm, parseDate: string -> int, user: Option<User>): (e: BudgetEntry)
    ensures e.id == id && e.studentRoll == f.studentRoll && e.category == f.category
    ensures e.description == f.description && e.amount == f.amount && e.date == parseDate(f.date)
    ensures e.addedBy == ContributorName(user)
  {
    BudgetEntry(id, f.studentRoll, f.category, f.description, f.amount, parseDate(f.date), ContributorName(user))
  }

  // ---------------------------------------------------------------------
  // The monthly view

  /** `entryMonth === month && (!rollNumber || entry.studentRoll === rollNumber)`:
      an absent or empty roll does not restrict, any other roll must match. */
  function InMonthFor(monthOf: int -> string, month: string, roll: Option<string>, e: BudgetEntry): (b: bool)
    ensures b ==> monthOf(e.date) == month
    ensures roll.None? || roll.value == "" ==> (b <==> monthOf(e.date) == month)
    ensures roll.Some? && roll.value != "" ==> (b <==> monthOf(e.date) == month && e.studentRoll == roll.value)
  {
    monthOf(e.date) == month && (roll.None? || roll.value == "" || e.studentRoll == roll.value)
  }

  function MonthFilter(monthOf: int -> string, month: string, roll: Option<string>): BudgetEntry -> bool
  {
    e => InMonthFor(monthOf, month, roll, e)
  }

  /** `getMonthlyExpenses(month, roll)`: the entries of that month, and of that
      roll when a roll is given; order is kept. */
  function MonthlyExpenses(es: seq<BudgetEntry>, monthOf: int -> string, month: string, roll: Option<string>)
    : (r: seq<BudgetEntry>)
    ensures forall e :: e in r <==> e in es && monthOf(e.date) == month
                                    && (roll.None? || roll.value == "" || e.studentRoll == roll.value)
  {
    Filter(es, MonthFilter(monthOf, month, roll))
  }

  lemma MonthlyExpensesInOrder(es: seq<BudgetEntry>, monthOf: int -> string, month: string, roll: Option<string>)
    ensures IsSubsequence(MonthlyExpenses(es, monthOf, month, roll), es)
  {
    FilterIsSubsequence(es, MonthFilter(monthOf, month, roll));
  }

  /** The roll the current-month view is restricted to: none for a teacher,
      the user's roll otherwise. */
  function ViewerRoll(user: Option<User>): (r: Option<string>)
    ensures IsTeacher(user) ==> r.None?
    ensures !IsTeacher(user) ==> r == RollOf(user)
  {
    if IsTeacher(user) then None else RollOf(user)
  }

  /** `currentMonthEntries`: a teacher sees every roll's entries of the
      month; a student with a roll sees exactly their own entries of the
      month; anyone else (no roll, or an empty one) is not restricted by roll
      and sees every entry of the month. */
  function CurrentMonthEntries(es: seq<BudgetEntry>, monthOf: int -> string, month: string, user: Option<User>)
    : (r: seq<BudgetEntry>)
    ensures IsTeacher(user) || !HasRoll(user) ==>
              forall e :: e in r <==> e in es && monthOf(e.date) == month
    ensures !IsTeacher(user) && HasRoll(user) ==>
              forall e :: e in r <==> e in es && monthOf(e.date) == month && e.studentRoll == RollOf(user).value
    ensures IsSubsequence(r, es)
  {
    MonthlyExpensesInOrder(es, monthOf, month, ViewerRoll(user));
    MonthlyExpenses(es, monthOf, month, ViewerRoll(user))
  }

  // ---------------------------------------------------------------------
  // Totals

  function Amount(e: BudgetEntry): int { e.amount }

  /** `getTotalExpenses(entries)`: 0 for no entries, and never negative when
      no amount is. */
  function TotalExpenses(es: seq<BudgetEntry>): (t: int)
    ensures es == [] ==> t == 0
    ensures (forall e :: e in es ==> e.amount >= 0) ==> t >= 0
  {
    SumNonNegative(es, Amount);
    Sum(es, Amount)
  }

  function InCategory(c: Category): BudgetEntry -> bool
  {
    (e: BudgetEntry) => e.category == c
  }

  /** `getCategoryTotal(entries, category)`: 0 when no entry has the
      category, the whole total when every entry has it. */
  function CategoryTotal(es: seq<BudgetEntry>, c: Category): (t: int)
    ensures (forall e :: e in es ==> e.category != c) ==> t == 0
    ensures (forall e :: e in es ==> e.category == c) ==> t == TotalExpenses(es)
    ensures (forall e :: e in es ==> e.amount >= 0) ==> t >= 0
  {
    FilterCategoryExtremes(es, c);
    TotalExpenses(Filter(es, InCategory(c)))
  }

  lemma FilterCategoryExtremes(es: seq<BudgetEntry>, c: Category)
    ensures (forall e :: e in es ==> e.category != c) ==> Filter(es, InCategory(c)) == []
    ensures (forall e :: e in es ==> e.category == c) ==> Filter(es, InCategory(c)) == es
  {
    if forall e :: e in es ==> e.category != c {
      FilterNone(es, InCategory(c));
    }
    if forall e :: e in es ==> e.category == c {
      FilterAll(es, InCategory(c));
    }
  }

  /** The total of nothing is 0, totals add over concatenation, and appending
      an entry raises the total by its amount. */
  lemma TotalFacts(es: seq<BudgetEntry>, more: seq<BudgetEntry>, e: BudgetEntry)
    ensures TotalExpenses([]) == 0
    ensures TotalExpenses(es + more) == TotalExpenses(es) + TotalExpenses(more)
    ensures TotalExpenses(es + [e]) == TotalExpenses(es) + e.amount
  {
    SumConcat(es, more, Amount);
    SumConcat(es, [e], Amount);
  }

  /** One step of a category total. */
  lemma CategoryTotalCons(e: BudgetEntry, es: seq<BudgetEntry>, c: Category)
    ensures CategoryTotal([e] + es, c) == (if e.category == c then e.amount else 0) + CategoryTotal(es, c)
  {
    FilteredSumCons(e, es, c);
  }

  /** Every entry has exactly one of the five categories, so the category
      totals add up to the total. */
  lemma CategoryTotalsSum(es: seq<BudgetEntry>)
    ensures CategoryTotal(es, Tuition) + CategoryTotal(es, Transport) + CategoryTotal(es, Food)
            + CategoryTotal(es, Personal) + CategoryTotal(es, Fees) == TotalExpenses(es)
  {
    FilteredSumsAddUp(es);
  }

  /** `CategoryTotalCons` on the sums themselves. */
  lemma FilteredSumCons(e: BudgetEntry, es: seq<BudgetEntry>, c: Category)
    ensures Sum(Filter([e] + es, InCategory(c)), Amount)
            == (if e.category == c then e.amount else 0) + Sum(Filter(es, InCategory(c)), Amount)
  {
    FilterCons(e, es, InCategory(c));
    SumConcat(if e.category == c then [e] else [], Filter(es, InCategory(c)), Amount);
  }

  /** `CategoryTotalsSum` on the sums themselves, by induction on the entries. */
  lemma {:induction false} FilteredSumsAddUp(es: seq<BudgetEntry>)
    ensures Sum(Filter(es, InCategory(Tuition)), Amount) + Sum(Filter(es, InCategory(Transport)), Amount)
            + Sum(Filter(es, InCategory(Food)), Amount) + Sum(Filter(es, InCategory(Personal)), Amount)
            + Sum(Filter(es, InCategory(Fees)), Amount) == Sum(es, Amount)
  {
    if es != [] {
      var e, rest := es[0], es[1..];
      assert es == [e] + rest;
      FilteredSumCons(e, rest, Tuition);
      FilteredSumCons(e, rest, Transport);
      FilteredSumCons(e, rest, Food);
      FilteredSumCons(e, rest, Personal);
      FilteredSumCons(e, rest, Fees);
      FilteredSumsAddUp(rest);
    }
  }

  // ---------------------------------------------------------------------
  // Categories and summary cards

  datatype CategoryInfo = CategoryInfo(category: Category, name: string, teacherOnly: bool)

  /** The fixed category table; tuition and school fees are teacher-only. */
  const Categories: seq<CategoryInfo> := [
    CategoryInfo(Tuition, "Tuition & Fees", true),
    CategoryInfo(Transport, "Transport", false),
    CategoryInfo(Food, "Food", false),
    CategoryInfo(Personal, "Personal", false),
    CategoryInfo(Fees, "School Fees", true)
  ]

  function Selectable(user: Option<User>): CategoryInfo -> bool
  {
    (c: CategoryInfo) => IsTeacher(user) || !c.teacherOnly
  }

  /** `availableCategories`: what the form lets the user pick. Teachers may
      pick all five categories; everyone else may pick exactly transport, food
      and personal, in that order. */
  function AvailableCategories(user: Option<User>): (r: seq<CategoryInfo>)
    ensures IsTeacher(user) ==> r == Categories
    ensures !IsTeacher(user) ==> r == [Categories[1], Categories[2], Categories[3]]
  {
    var p := Selectable(user);
    var c0, c1, c2, c3, c4 := Categories[0], Categories[1], Categories[2], Categories[3], Categories[4];
    assert Categories == [c0] + [c1, c2, c3] + [c4];
    if IsTeacher(user) then
      FilterAll(Categories, p);
      Filter(Categories, p)
    else
      assert !p(c0) && p(c1) && p(c2) && p(c3) && !p(c4);
      FilterInner(c0, [c1, c2, c3], c4, p);
      Filter(Categories, p)
  }

  /** A filter that rejects both ends and keeps the middle. */
  lemma FilterInner<T(!new)>(first: T, mid: seq<T>, last: T, p: T -> bool)
    requires !p(first) && !p(last)
    requires forall x :: x in mid ==> p(x)
    ensures Filter([first] + mid + [last], p) == mid
  {
    FilterConcat([first] + mid, [last], p);
    FilterConcat([first], mid, p);
    FilterNone([first], p);
    FilterNone([last], p);
    FilterAll(mid, p);
  }

  /** A category's summary card is rendered unless the user may not use the
      category and nothing was spent on it this month. */
  function CardShown(user: Option<User>, c: CategoryInfo, monthTotal: int): (b: bool)
    ensures monthTotal != 0 ==> b
    ensures !b <==> monthTotal == 0 && !IsTeacher(user) && c.teacherOnly
  {
    !(!(IsTeacher(user) || !c.teacherOnly) && monthTotal == 0)
  }

  /** For a student, a teacher-only card is hidden exactly when its month total
      is 0; every other card is always shown. */
  lemma CardVisibility(user: Option<User>, c: CategoryInfo, monthTotal: int)
    ensures IsTeacher(user) || !c.teacherOnly ==> CardShown(user, c, monthTotal)
    ensures !IsTeacher(user) && c.teacherOnly ==> (!CardShown(user, c, monthTotal) <==> monthTotal == 0)
  {
  }

  // ---------------------------------------------------------------------
  // Invoice and statistics

  function NewestFirst(e: BudgetEntry): int { -e.date }

  /** The invoice rows: the month's entries sorted by date, newest first (a
      sorted copy; the stored list is not reordered). */
  function InvoiceRows(monthEntries: seq<BudgetEntry>): (rows: seq<BudgetEntry>)
    ensures multiset(rows) == multiset(monthEntries)
    ensures forall i, j :: 0 <= i < j < |rows| ==> rows[i].date >= rows[j].date
  {
    var rows := SortBy(monthEntries, NewestFirst);
    assert forall i, j :: 0 <= i < j < |rows| ==> NewestFirst(rows[i]) <= NewestFirst(rows[j]);
    rows
  }

  /** `Math.round(a / n)` for `n > 0`: the integer nearest to `a / n`, halves
      rounded up. */
  function RoundDiv(a: int, n: int): (r: int)
    requires n > 0
    ensures 2 * n * r - n <= 2 * a < 2 * n * r + n
  {
    (2 * a + n) / (2 * n)
  }

  function MonthKey(monthOf: int -> string): BudgetEntry -> string
  {
    (e: BudgetEntry) => monthOf(e.date)
  }

  /** The number of distinct months among all entries: the size of the set
      of their months. */
  function MonthCount(es: seq<BudgetEntry>, monthOf: int -> string): (n: nat)
    ensures n == |set e | e in es :: monthOf(e.date)|
    ensures n <= |es|
    ensures es != [] ==> n >= 1
  {
    var months := Image(es, MonthKey(monthOf));
    assert months == set e | e in es :: monthOf(e.date) by {
      forall u | u in months ensures exists e :: e in es && monthOf(e.date) == u {
        var e :| e in es && MonthKey(monthOf)(e) == u;
      }
      forall e | e in es ensures monthOf(e.date) in months {
        var i :| 0 <= i < |es| && es[i] == e;
      }
    }
    |months|
  }

  /** The "Avg Monthly" statistic: the overall total over the number of
      distinct months (at least one), rounded. */
  function AvgMonthly(es: seq<BudgetEntry>, monthOf: int -> string): (avg: int)
    ensures var n := if MonthCount(es, monthOf) > 0 then MonthCount(es, monthOf) else 1;
            2 * n * avg - n <= 2 * TotalExpenses(es) < 2 * n * avg + n
    ensures es == [] ==> avg == 0
  {
    RoundDiv(TotalExpenses(es), if MonthCount(es, monthOf) > 0 then MonthCount(es, monthOf) else 1)
  }

  /** The screen's state: the stored entries and the draft. */
  class Tracker {
    const entries: Collection<BudgetEntry>
    var form: BudgetForm

    ghost predicate Valid()
    {
      entries.idOf == EntryId
    }

    constructor (loaded: seq<BudgetEntry>, user: Option<User>, today: string)
      ensures Valid() && fresh(entries)
      ensures entries.items == loaded && form == ResetForm(user, today)
    {
      entries := new Collection(EntryId, loaded);
      form := ResetForm(user, today);
    }

    /** `handleSubmit`: append exactly one entry and reset the draft. */
    method HandleSubmit(freshId: string, parseDate: string -> int, user: Option<User>, today: string)
      requires Valid()
      modifies this, entries
      ensures Valid()
      ensures entries.items == old(entries.items) + [NewEntry(freshId, old(form), parseDate, user)]
      ensures form == ResetForm(user, today)
    {
      entries.Append(NewEntry(freshId, form, parseDate, user));
      form := ResetForm(user, today);
    }
  }
}
