/** The career goal tracker: teachers assign career goals to student rolls;
    a student sees the goal assigned to their roll. */
module CareerGoals {
  import opened Common
  import opened Seqs
  import opened CollectionStore

  datatype CareerGoal = CareerGoal(id: string, studentRoll: string, studentName: string,
                                   assignedGoal: string, description: string, basedOnResults: bool)

  datatype GoalForm = GoalForm(studentRoll: string, studentName: string, assignedGoal: string,
                               description: string, basedOnResults: bool)

  /** The draft after a submission: empty strings, "based on results" ticked. */
  const EmptyForm := GoalForm("", "", "", "", true)

  function GoalId(g: CareerGoal): string { g.id }

  /** The goal a submission stores: always a new id, the draft's fields. */
  function NewGoal(id: string, f: GoalForm): (g: CareerGoal)
    ensures g.id == id && g.studentRoll == f.studentRoll && g.studentName == f.studentName
    ensures g.assignedGoal == f.assignedGoal && g.description == f.description
    ensures g.basedOnResults == f.basedOnResults
  {
    CareerGoal(id, f.studentRoll, f.studentName, f.assignedGoal, f.description, f.basedOnResults)
  }

  /** `goal.studentRoll === rollNumber`. */
  function RollIs(roll: string): CareerGoal -> bool
  {
    (g: CareerGoal) => g.studentRoll == roll
  }

  /** `getStudentGoal(roll)`: the earliest goal assigned to the roll. */
  function GetStudentGoal(goals: seq<CareerGoal>, roll: string): (r: Option<CareerGoal>)
    ensures r.None? <==> forall g :: g in goals ==> g.studentRoll != roll
    ensures r.Some? ==> exists i :: 0 <= i < |goals| && goals[i] == r.value && r.value.studentRoll == roll
                                    && forall j :: 0 <= j < i ==> goals[j].studentRoll != roll
  {
    Find(goals, RollIs(roll))
  }

  /** Assigning never replaces: a later goal for a roll that already has one
      leaves what the student sees unchanged, and a first goal is what the
      student then sees. */
  lemma AssignKeepsFirstGoal(goals: seq<CareerGoal>, g: CareerGoal, roll: string)
    ensures GetStudentGoal(goals, roll).Some? ==>
              GetStudentGoal(goals + [g], roll) == GetStudentGoal(goals, roll)
    ensures GetStudentGoal(goals, roll).None? && g.studentRoll == roll ==>
              GetStudentGoal(goals + [g], roll) == Some(g)
    ensures GetStudentGoal(goals, roll).None? && g.studentRoll != roll ==>
              GetStudentGoal(goals + [g], roll).None?
  {
    FindAppend(goals, g, RollIs(roll));
  }

  /** Several goals for one roll can be stored: two assignments to the same
      roll are both kept, and the student goes on seeing the earliest one. */
  lemma SeveralGoalsPerRoll(goals: seq<CareerGoal>, g1: CareerGoal, g2: CareerGoal)
    requires g1.studentRoll == g2.studentRoll
    ensures var after := goals + [g1] + [g2];
            |after| == |goals| + 2 && after[|goals|] == g1 && after[|goals| + 1] == g2
            && GetStudentGoal(after, g1.studentRoll)
               == if GetStudentGoal(goals, g1.studentRoll).Some? then GetStudentGoal(goals, g1.studentRoll) else Some(g1)
  {
    var after := goals + [g1] + [g2];
    assert after == (goals + [g1]) + [g2];
    AssignKeepsFirstGoal(goals, g1, g1.studentRoll);
    AssignKeepsFirstGoal(goals + [g1], g2, g1.studentRoll);
  }

  /** `studentGoal`: a student with a roll number sees the goal for that roll;
      teachers, and anyone without a roll number, see none. */
  function StudentGoal(user: Option<User>, goals: seq<CareerGoal>): (r: Option<CareerGoal>)
    ensures IsTeacher(user) || !HasRoll(user) ==> r.None?
    ensures !IsTeacher(user) && HasRoll(user) ==> r == GetStudentGoal(goals, RollOf(user).value)
  {
    if !IsTeacher(user) && HasRoll(user) then GetStudentGoal(goals, RollOf(user).value) else None
  }

  predicate IsBasedOnResults(g: CareerGoal) { g.basedOnResults }

  /** The "Based on Results" statistic. */
  function BasedOnResultsCount(goals: seq<CareerGoal>): (n: nat)
    ensures n <= |goals|
    ensures n == |goals| <==> forall g :: g in goals ==> g.basedOnResults
  {
    FilterCountAll(goals, IsBasedOnResults);
    |Filter(goals, IsBasedOnResults)|
  }

  /** A filter keeps every element exactly when the predicate holds everywhere. */
  lemma {:induction false} FilterCountAll<T(!new)>(xs: seq<T>, p: T -> bool)
    ensures |Filter(xs, p)| == |xs| <==> forall x :: x in xs ==> p(x)
  {
    if xs != [] {
      var rest := xs[1..];
      FilterCons(xs[0], rest, p);
      assert xs == [xs[0]] + rest;
      FilterCountAll(rest, p);
      assert (forall x :: x in xs ==> p(x)) <==> p(xs[0]) && forall x :: x in rest ==> p(x) by {
        assert forall x :: x in xs <==> x == xs[0] || x in rest;
      }
      assert |Filter(rest, p)| <= |rest|;
    }
  }

  function GoalName(g: CareerGoal): string { g.assignedGoal }

  /** The "Unique Paths" statistic: the number of distinct assigned goals,
      that is, the size of the set of goal names assigned to some student. */
  function UniquePaths(goals: seq<CareerGoal>): (n: nat)
    ensures n == |set g | g in goals :: g.assignedGoal|
    ensures n <= |goals|
    ensures goals != [] ==> 1 <= n
    ensures goals == [] ==> n == 0
  {
    var names := Image(goals, GoalName);
    assert names == set g | g in goals :: g.assignedGoal by {
      forall u | u in names ensures exists g :: g in goals && g.assignedGoal == u {
        var g :| g in goals && GoalName(g) == u;
      }
      forall g | g in goals ensures g.assignedGoal in names {
        var i :| 0 <= i < |goals| && goals[i] == g;
      }
    }
    |names|
  }

  /** The screen's state: the stored goals and the draft. */
  class Tracker {
    const goals: Collection<CareerGoal>
    var form: GoalForm

    ghost predicate Valid()
    {
      goals.idOf == GoalId
    }

    constructor (loaded: seq<CareerGoal>)
      ensures Valid() && fresh(goals)
      ensures goals.items == loaded && form == EmptyForm
    {
      goals := new Collection(GoalId, loaded);
      form := EmptyForm;
    }

    /** `handleSubmit`: append exactly one goal and reset the draft. */
    method HandleSubmit(freshId: string)
      requires Valid()
      modifies this, goals
      ensures Valid()
      ensures goals.items == old(goals.items) + [NewGoal(freshId, old(form))]
      ensures form == EmptyForm
    {
      goals.Append(NewGoal(freshId, form));
      form := EmptyForm;
    }
  }
}
