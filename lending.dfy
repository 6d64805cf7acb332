/** The book lending history: loans are recorded, later marked returned, and
    shown split into active loans and returned books. Dates are milliseconds. */
module BookLending {
  import opened Common
  import opened Seqs
  import opened CollectionStore

  datatype Lending = Lending(id: string, bookId: string, bookName: string, borrowerName: string,
                             borrowerRoll: string, borrowDate: int, returnDate: Option<int>)

  /** The draft; the two dates are the date inputs' strings. */
  datatype LendingForm = LendingForm(bookId: string, bookName: string, borrowerName: string,
                                     borrowerRoll: string, borrowDate: string, returnDate: string)

  /** The reset draft: empty fields and today's date as the borrow date. */
  function FreshForm(today: string): (f: LendingForm)
    ensures f.borrowDate == today && f.returnDate == ""
    ensures f.bookId == "" && f.bookName == "" && f.borrowerName == "" && f.borrowerRoll == ""
  {
    LendingForm("", "", "", "", today, "")
  }

  function LendingId(l: Lending): string { l.id }

  /** The loan a submission stores; `parseDate` stands for `new Date(s)`. A
      return date is recorded exactly when one was typed. */
  function NewLending(id: string, f: LendingForm, parseDate: string -> int): (l: Lending)
    ensures l.id == id && l.bookId == f.bookId && l.bookName == f.bookName
    ensures l.borrowerName == f.borrowerName && l.borrowerRoll == f.borrowerRoll
    ensures l.borrowDate == parseDate(f.borrowDate)
    ensures l.returnDate.Some? <==> f.returnDate != ""
    ensures l.returnDate.Some? ==> l.returnDate.value == parseDate(f.returnDate)
  {
    Lending(id, f.bookId, f.bookName, f.borrowerName, f.borrowerRoll, parseDate(f.borrowDate),
            if f.returnDate != "" then Some(parseDate(f.returnDate)) else None)
  }

  /** `{ ...lending, returnDate: new Date() }`. */
  function MarkReturned(l: Lending, now: int): (r: Lending)
    ensures r.returnDate == Some(now)
    ensures r.(returnDate := l.returnDate) == l
  {
    l.(returnDate := Some(now))
  }

  /** `handleReturn(id)` at time `now`. */
  function Returned(ls: seq<Lending>, id: string, now: int): (r: seq<Lending>)
    ensures |r| == |ls|
    ensures forall i :: 0 <= i < |ls| && ls[i].id == id ==> r[i] == MarkReturned(ls[i], now)
    ensures forall i :: 0 <= i < |ls| && ls[i].id != id ==> r[i] == ls[i]
  {
    Updated(ls, LendingId, id, l => MarkReturned(l, now))
  }

  /** Returning an id nobody carries changes nothing. */
  lemma ReturnUnknownId(ls: seq<Lending>, id: string, now: int)
    requires forall l :: l in ls ==> l.id != id
    ensures Returned(ls, id, now) == ls
  {
    UpdatedUnknownId(ls, LendingId, id, l => MarkReturned(l, now));
  }

  /** `lending.returnDate` (truthy): any recorded return date counts, since a
      date object is never falsy. */
  function IsReturned(l: Lending): (b: bool)
    ensures b <==> l.returnDate != None
  {
    l.returnDate.Some?
  }

  /** `!lending.returnDate`: the complement of `IsReturned`, so every loan is
      either active or returned and never both. */
  function IsActive(l: Lending): (b: bool)
    ensures b <==> !IsReturned(l)
  {
    l.returnDate.None?
  }

  function ActiveLoans(ls: seq<Lending>): (r: seq<Lending>)
    ensures forall l :: l in r <==> l in ls && l.returnDate.None?
  {
    Filter(ls, IsActive)
  }

  function ReturnedBooks(ls: seq<Lending>): (r: seq<Lending>)
    ensures forall l :: l in r <==> l in ls && l.returnDate.Some?
  {
    Filter(ls, IsReturned)
  }

  /** Active loans and returned books partition the history. */
  lemma LoansPartition(ls: seq<Lending>)
    ensures |ActiveLoans(ls)| + |ReturnedBooks(ls)| == |ls|
    ensures multiset(ActiveLoans(ls)) + multiset(ReturnedBooks(ls)) == multiset(ls)
    ensures forall l :: l in ls ==> (l in ActiveLoans(ls) <==> l !in ReturnedBooks(ls))
  {
    FilterPartition(ls, IsActive, IsReturned);
  }

  /** After `handleReturn(id)` no loan with that id is active, and the loans
      with other ids are active exactly as before. */
  lemma ReturnClosesLoan(ls: seq<Lending>, id: string, now: int)
    ensures forall l :: l in ActiveLoans(Returned(ls, id, now)) ==> l.id != id
    ensures forall l :: l in ls && l.id != id ==> (l in ActiveLoans(Returned(ls, id, now)) <==> l in ActiveLoans(ls))
  {
    var r := Returned(ls, id, now);
    forall l | l in ActiveLoans(r) ensures l.id != id {
      var i :| 0 <= i < |r| && r[i] == l;
    }
    forall l | l in ls && l.id != id
      ensures l in ActiveLoans(r) <==> l in ActiveLoans(ls)
    {
      var k :| 0 <= k < |ls| && ls[k] == l;
      assert r[k] == l;
      if l in r && IsActive(l) {
        assert l in ls;
      }
    }
  }

  /** Recording a loan without a return date adds one active loan. */
  lemma NewLoanIsActive(ls: seq<Lending>, id: string, f: LendingForm, parseDate: string -> int)
    requires f.returnDate == ""
    ensures ActiveLoans(ls + [NewLending(id, f, parseDate)]) == ActiveLoans(ls) + [NewLending(id, f, parseDate)]
    ensures ReturnedBooks(ls + [NewLending(id, f, parseDate)]) == ReturnedBooks(ls)
  {
    var l := NewLending(id, f, parseDate);
    assert IsActive(l) && !IsReturned(l);
    FilterConcat(ls, [l], IsActive);
    FilterConcat(ls, [l], IsReturned);
    FilterCons(l, [], IsActive);
    FilterCons(l, [], IsReturned);
    assert Filter([l], IsActive) == [l];
    assert Filter([l], IsReturned) == [];
  }

  datatype LoanStatus = Active | ReturnedStatus

  /** The status column of the history table. */
  function StatusOf(l: Lending): (s: LoanStatus)
    ensures s == Active <==> l in ActiveLoans([l])
  {
    if l.returnDate.Some? then ReturnedStatus else Active
  }

  /** The screen's state: the stored history and the draft. */
  class LendingHistory {
    const lendings: Collection<Lending>
    var form: LendingForm

    ghost predicate Valid()
    {
      lendings.idOf == LendingId
    }

    constructor (loaded: seq<Lending>, today: string)
      ensures Valid() && fresh(lendings)
      ensures lendings.items == loaded && form == FreshForm(today)
    {
      lendings := new Collection(LendingId, loaded);
      form := FreshForm(today);
    }

    /** `handleSubmit`: append exactly one loan and reset the draft. */
    method HandleSubmit(freshId: string, parseDate: string -> int, today: string)
      requires Valid()
      modifies this, lendings
      ensures Valid()
      ensures lendings.items == old(lendings.items) + [NewLending(freshId, old(form), parseDate)]
      ensures form == FreshForm(today)
    {
      lendings.Append(NewLending(freshId, form, parseDate));
      form := FreshForm(today);
    }

    /** `handleReturn(id)` at time `now`. */
    method HandleReturn(id: string, now: int)
      requires Valid()
      modifies lendings
      ensures lendings.items == Returned(old(lendings.items), id, now)
    {
      lendings.UpdateById(id, l => MarkReturned(l, now));
    }
  }
}
