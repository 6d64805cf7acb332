/** The student result viewer: five subject marks per result, a total and a
    letter grade, the top-three leaderboard and a lookup by roll number. */
module ResultViewer {
  import opened Common
  import opened Seqs
  import opened CollectionStore

  /** The five subject marks, each typed into a 0..100 number field
      (`parseInt(v) || 0`). */
  datatype Marks = Marks(math: int, english: int, science: int, history: int, bengali: int)

  const NoMarks := Marks(0, 0, 0, 0, 0)

  /** Five subjects of 100 marks each. */
  const SubjectCount: nat := 5
  const MaxMarks: nat := SubjectCount * 100

  /** The marks the number fields allow. */
  predicate InRange(m: Marks)
  {
    0 <= m.math <= 100 && 0 <= m.english <= 100 && 0 <= m.science <= 100
    && 0 <= m.history <= 100 && 0 <= m.bengali <= 100
  }

  /** `Object.values(subjects).reduce(+)`: for marks in range the total lies
      between 0 and 500, is at least every single mark, and is 500 only for
      full marks in every subject. */
  function TotalMarks(m: Marks): (t: int)
    ensures InRange(m) ==> 0 <= t <= MaxMarks
    ensures InRange(m) ==> m.math <= t && m.english <= t && m.science <= t && m.history <= t && m.bengali <= t
    ensures t == MaxMarks ==> InRange(m) ==> m == Marks(100, 100, 100, 100, 100)
  {
    m.math + m.english + m.science + m.history + m.bengali
  }

  /** `(totalMarks / maxMarks) * 100`, over the reals. */
  function Percentage(total: int): (p: real)
    ensures 0 <= total <= MaxMarks ==> 0.0 <= p <= 100.0
    ensures p * (MaxMarks as real) == (total as real) * 100.0
  {
    (total as real / MaxMarks as real) * 100.0
  }

  datatype Grade = APlus | A | B | C | D | F

  /** `calculateGrade`: A+ from 90, then a band every ten points down to D
      from 50; F below. */
  function CalculateGrade(p: real): (g: Grade)
    ensures g == APlus <==> p >= 90.0
    ensures g == A <==> 80.0 <= p < 90.0
    ensures g == B <==> 70.0 <= p < 80.0
    ensures g == C <==> 60.0 <= p < 70.0
    ensures g == D <==> 50.0 <= p < 60.0
    ensures g == F <==> p < 50.0
  {
    if p >= 90.0 then APlus
    else if p >= 80.0 then A
    else if p >= 70.0 then B
    else if p >= 60.0 then C
    else if p >= 50.0 then D
    else F
  }

  /** Higher bands rank higher. */
  function Rank(g: Grade): nat
  {
    match g
    case APlus => 5
    case A => 4
    case B => 3
    case C => 2
    case D => 1
    case F => 0
  }

  /** A higher percentage never gives a lower grade. */
  lemma GradeMonotone(p: real, q: real)
    requires p <= q
    ensures Rank(CalculateGrade(p)) <= Rank(CalculateGrade(q))
  {
  }

  /** On a whole total out of 500 the bands fall at 450, 400, 350, 300 and 250. */
  lemma GradeOfTotal(total: int)
    ensures CalculateGrade(Percentage(total)) == APlus <==> total >= 450
    ensures CalculateGrade(Percentage(total)) == A <==> 400 <= total < 450
    ensures CalculateGrade(Percentage(total)) == B <==> 350 <= total < 400
    ensures CalculateGrade(Percentage(total)) == C <==> 300 <= total < 350
    ensures CalculateGrade(Percentage(total)) == D <==> 250 <= total < 300
    ensures CalculateGrade(Percentage(total)) == F <==> total < 250
  {
    assert Percentage(total) == (total as real) / 5.0;
  }

  datatype StudentResult = StudentResult(id: string, studentName: string, studentRoll: string,
                                         subjects: Marks, totalMarks: int, grade: Grade)

  /** The draft. */
  datatype ResultForm = ResultForm(studentName: string, studentRoll: string, subjects: Marks)

  const EmptyForm := ResultForm("", "", NoMarks)

  function ResultId(r: StudentResult): string { r.id }

  /** The result a submission stores: the draft's marks, their total, and the
      grade of the total's percentage. */
  function NewResult(id: string, f: ResultForm): (r: StudentResult)
    ensures r.id == id && r.studentName == f.studentName && r.studentRoll == f.studentRoll
    ensures r.subjects == f.subjects && r.totalMarks == TotalMarks(f.subjects)
    ensures r.grade == CalculateGrade(Percentage(TotalMarks(f.subjects)))
  {
    var total := TotalMarks(f.subjects);
    StudentResult(id, f.studentName, f.studentRoll, f.subjects, total, CalculateGrade(Percentage(total)))
  }

  // ---------------------------------------------------------------------
  // Leaderboard

  /** `(a, b) => b.totalMarks - a.totalMarks`: ascending on the negated total. */
  function HighestFirst(r: StudentResult): int { -r.totalMarks }

  datatype RankedResult = RankedResult(result: StudentResult, rank: nat)

  function BoardSize(n: nat): (k: nat)
    ensures k <= n && k <= 3
    ensures k == n || k == 3
  {
    if n < 3 then n else 3
  }

  /** `.slice(0, 3).map((r, i) => ({ ...r, rank: i + 1 }))` on an already
      sorted list. */
  function TopThree(sorted: seq<StudentResult>): (board: seq<RankedResult>)
    ensures |board| == BoardSize(|sorted|)
    ensures forall i :: 0 <= i < |board| ==> board[i] == RankedResult(sorted[i], i + 1)
  {
    seq(BoardSize(|sorted|), i requires 0 <= i < BoardSize(|sorted|) => RankedResult(sorted[i], i + 1))
  }

  /** `getLeaderboard()` over the results in their stored order. */
  function Leaderboard(rs: seq<StudentResult>): (board: seq<RankedResult>)
    ensures |board| == BoardSize(|rs|)
    ensures forall i :: 0 <= i < |board| ==> board[i].rank == i + 1
    ensures forall i :: 0 <= i < |board| ==> board[i].result in rs
    ensures forall i, j :: 0 <= i < j < |board| ==> board[i].result.totalMarks >= board[j].result.totalMarks
  {
    var sorted := SortBy(rs, HighestFirst);
    HighestFirstOrder(rs);
    var board := TopThree(sorted);
    assert forall i :: 0 <= i < |board| ==> board[i].result == sorted[i];
    board
  }

  /** Sorting by falling total keeps only stored results and orders them by
      non-increasing total. */
  lemma HighestFirstOrder(rs: seq<StudentResult>)
    ensures forall x :: x in SortBy(rs, HighestFirst) ==> x in rs
    ensures forall i, j :: 0 <= i < j < |SortBy(rs, HighestFirst)| ==>
              SortBy(rs, HighestFirst)[i].totalMarks >= SortBy(rs, HighestFirst)[j].totalMarks
  {
    var sorted := SortBy(rs, HighestFirst);
    assert forall x :: x in sorted <==> x in multiset(sorted);
    assert forall x :: x in rs <==> x in multiset(rs);
    assert forall i, j :: 0 <= i < j < |sorted| ==> HighestFirst(sorted[i]) <= HighestFirst(sorted[j]);
  }

  /** The results left off the board, in sorted order. */
  function OffBoard(rs: seq<StudentResult>): seq<StudentResult>
  {
    SortBy(rs, HighestFirst)[BoardSize(|rs|)..]
  }

  function BoardResults(board: seq<RankedResult>): (r: seq<StudentResult>)
    ensures |r| == |board|
    ensures forall i :: 0 <= i < |board| ==> r[i] == board[i].result
  {
    seq(|board|, i requires 0 <= i < |board| => board[i].result)
  }

  /** The board's results are the front of the sorted list. */
  lemma TopThreeIsFront(sorted: seq<StudentResult>)
    ensures BoardResults(TopThree(sorted)) == sorted[..BoardSize(|sorted|)]
  {
    var front := BoardResults(TopThree(sorted));
    assert forall i :: 0 <= i < |front| ==> front[i] == sorted[i];
  }

  /** In a list sorted by falling total, nothing after position `k` outscores
      anything before it. */
  lemma FrontOutscoresRest(sorted: seq<StudentResult>, k: nat)
    requires SortedBy(sorted, HighestFirst) && k <= |sorted|
    ensures forall b, x :: b in sorted[..k] && x in sorted[k..] ==> x.totalMarks <= b.totalMarks
  {
    forall b, x | b in sorted[..k] && x in sorted[k..] ensures x.totalMarks <= b.totalMarks {
      var i :| 0 <= i < k && sorted[..k][i] == b;
      var j :| 0 <= j < |sorted| - k && sorted[k..][j] == x;
      assert sorted[i] == b && sorted[k + j] == x;
      assert HighestFirst(sorted[i]) <= HighestFirst(sorted[k + j]);
    }
  }

  /** The board and the results left off it together are exactly the results,
      and nothing left off outscores anything on the board. */
  lemma LeaderboardIsTop(rs: seq<StudentResult>)
    ensures multiset(BoardResults(Leaderboard(rs))) + multiset(OffBoard(rs)) == multiset(rs)
    ensures forall b, x :: b in BoardResults(Leaderboard(rs)) && x in OffBoard(rs) ==> x.totalMarks <= b.totalMarks
  {
    var sorted := SortBy(rs, HighestFirst);
    var k := BoardSize(|rs|);
    assert BoardResults(Leaderboard(rs)) == sorted[..k] by {
      assert Leaderboard(rs) == TopThree(sorted);
      TopThreeIsFront(sorted);
    }
    assert multiset(sorted[..k]) + multiset(sorted[k..]) == multiset(rs) by {
      assert sorted == sorted[..k] + sorted[k..];
    }
    FrontOutscoresRest(sorted, k);
  }

  // ---------------------------------------------------------------------
  // Lookup by roll

  function RollIs(roll: string): StudentResult -> bool
  {
    (r: StudentResult) => r.studentRoll == roll
  }

  /** `getStudentResult(roll)`: the first result with that roll. */
  function GetStudentResult(rs: seq<StudentResult>, roll: string): (r: Option<StudentResult>)
    ensures r.None? <==> forall x :: x in rs ==> x.studentRoll != roll
    ensures r.Some? ==> exists i :: 0 <= i < |rs| && rs[i] == r.value && r.value.studentRoll == roll
                                    && forall j :: 0 <= j < i ==> rs[j].studentRoll != roll
  {
    Find(rs, RollIs(roll))
  }

  /** `searchRoll ? getStudentResult(searchRoll) : null`: an empty search
      finds nothing even when some result has an empty roll. */
  function SearchedResult(rs: seq<StudentResult>, searchRoll: string): (r: Option<StudentResult>)
    ensures searchRoll == "" ==> r.None?
    ensures searchRoll != "" ==> r == GetStudentResult(rs, searchRoll)
  {
    if searchRoll == "" then None else GetStudentResult(rs, searchRoll)
  }

  /** A newly added result is found by its roll unless an earlier result
      already has that roll. */
  lemma AddedResultIsFound(rs: seq<StudentResult>, r: StudentResult)
    requires r.studentRoll != ""
    ensures SearchedResult(rs + [r], r.studentRoll) ==
              if GetStudentResult(rs, r.studentRoll).Some? then GetStudentResult(rs, r.studentRoll) else Some(r)
  {
    FindAppend(rs, r, RollIs(r.studentRoll));
  }

  /** The screen's state: the stored results, the draft and the roll searched. */
  class Viewer {
    const results: Collection<StudentResult>
    var form: ResultForm
    var searchRoll: string

    ghost predicate Valid()
    {
      results.idOf == ResultId
    }

    constructor (loaded: seq<StudentResult>)
      ensures Valid() && fresh(results)
      ensures results.items == loaded && form == EmptyForm && searchRoll == ""
    {
      results := new Collection(ResultId, loaded);
      form := EmptyForm;
      searchRoll := "";
    }

    /** `handleSubmit`: append exactly one result and reset the draft. */
    method HandleSubmit(freshId: string)
      requires Valid()
      modifies this, results
      ensures Valid() && searchRoll == old(searchRoll)
      ensures results.items == old(results.items) + [NewResult(freshId, old(form))]
      ensures form == EmptyForm
    {
      results.Append(NewResult(freshId, form));
      form := EmptyForm;
    }

    /** The Search button: `setSearchRoll(user?.rollNumber || '')`. */
    method SearchOwnRoll(user: Option<User>)
      modifies this
      ensures searchRoll == RollOf(user).GetOr("") && form == old(form)
    {
      searchRoll := RollOf(user).GetOr("");
    }

    /** `getLeaderboard()` as rendered: `results.sort(...)` reorders the stored
        array in place (a stable permutation by falling total), and the board
        is its first three entries with ranks. */
    method GetLeaderboard() returns (board: seq<RankedResult>)
      requires Valid()
      modifies results
      ensures results.items == SortBy(old(results.items), HighestFirst)
      ensures multiset(results.items) == multiset(old(results.items))
      ensures board == Leaderboard(old(results.items))
    {
      results.SortInPlace(HighestFirst);
      board := TopThree(results.items);
    }
  }
}
