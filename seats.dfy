/** The classroom seat planner: named plans that map grid positions "row-col"
    of a 5 × 6 room to student names. */
module SeatPlanner {
  import opened Common
  import opened Text
  import opened CollectionStore

  /** A stored plan; `seats` maps a position key to the student sitting there. */
  datatype SeatPlan = SeatPlan(id: string, className: string, branch: string, seats: map<string, string>)

  /** The draft: class, branch and the (fixed) grid size. */
  datatype PlanForm = PlanForm(className: string, branch: string, rows: int, cols: int)

  const Rows: nat := 5
  const Cols: nat := 6

  const EmptyForm := PlanForm("", "", 5, 6)

  function PlanId(p: SeatPlan): string { p.id }

  // ---------------------------------------------------------------------
  // The grid

  /** `Math.floor(index / cols)`: the row whose span of six indices holds
      `index`. */
  function GridRow(i: nat): (r: nat)
    ensures r * Cols <= i < r * Cols + Cols
  {
    i / Cols
  }

  /** `index % cols`: the offset of `index` within its row. */
  function GridCol(i: nat): (c: nat)
    ensures c < Cols && GridRow(i) * Cols + c == i
  {
    i % Cols
  }

  /** `${row}-${col}`. */
  function PositionKey(row: nat, col: nat): string
  {
    NatToString(row) + "-" + NatToString(col)
  }

  /** The position key of grid cell `index`; inside the grid it is three
      characters: row digit, '-', column digit. */
  function GridPosition(i: nat): (p: string)
    ensures i < Rows * Cols ==> p == [DigitChar(GridRow(i)), '-', DigitChar(GridCol(i))]
  {
    PositionKey(GridRow(i), GridCol(i))
  }

  /** Every index of the grid is a cell (row < 5, col < 6) and is recovered
      from its row and column. */
  lemma GridCellOf(i: nat)
    requires i < Rows * Cols
    ensures GridRow(i) < Rows && GridCol(i) < Cols
    ensures GridRow(i) * Cols + GridCol(i) == i
  {
  }

  /** Every cell (row < 5, col < 6) is the image of exactly the index
      `row * 6 + col`: together with `GridCellOf`, indices and cells are in
      bijection. */
  lemma GridIndexOf(row: nat, col: nat)
    requires row < Rows && col < Cols
    ensures row * Cols + col < Rows * Cols
    ensures GridRow(row * Cols + col) == row && GridCol(row * Cols + col) == col
  {
  }

  /** Distinct grid indices have distinct position keys. */
  lemma PositionKeysDistinct(i: nat, j: nat)
    requires i < Rows * Cols && j < Rows * Cols && i != j
    ensures GridPosition(i) != GridPosition(j)
  {
    GridCellOf(i);
    GridCellOf(j);
    if GridRow(i) != GridRow(j) {
      DigitCharInjective(GridRow(i), GridRow(j));
      assert GridPosition(i)[0] != GridPosition(j)[0];
    } else {
      DigitCharInjective(GridCol(i), GridCol(j));
      assert GridPosition(i)[2] != GridPosition(j)[2];
    }
  }

  /** `seats[position] || ''`: the name shown in a cell. */
  function SeatAt(seats: map<string, string>, position: string): (name: string)
    ensures position in seats ==> name == seats[position]
    ensures position !in seats ==> name == ""
  {
    if position in seats then seats[position] else ""
  }

  /** `plan?.seats || seatAssignments`: a stored plan's seats, or the draft's. */
  function DisplayedSeats(plan: Option<SeatPlan>, assignments: map<string, string>): (m: map<string, string>)
    ensures plan.Some? ==> m == plan.value.seats
    ensures plan.None? ==> m == assignments
  {
    if plan.Some? then plan.value.seats else assignments
  }

  /** The 30 names the grid shows, in index order. */
  function GridNames(seats: map<string, string>): (g: seq<string>)
    ensures |g| == Rows * Cols
    ensures forall i :: 0 <= i < |g| ==> g[i] == SeatAt(seats, GridPosition(i))
  {
    seq(Rows * Cols, i requires 0 <= i < Rows * Cols => SeatAt(seats, GridPosition(i)))
  }

  // ---------------------------------------------------------------------
  // The draft assignments

  /** `handleSeatChange(position, name)`: `{...prev, [position]: name}`. */
  function SeatChanged(m: map<string, string>, position: string, name: string): (r: map<string, string>)
    ensures r.Keys == m.Keys + {position}
    ensures r[position] == name
    ensures forall k :: k in m && k != position ==> r[k] == m[k]
  {
    m[position := name]
  }

  /** Filling grid cell `k` shows the name in that cell and in no other. */
  lemma SeatChangeShowsInGrid(m: map<string, string>, k: nat, name: string)
    requires k < Rows * Cols
    ensures GridNames(SeatChanged(m, GridPosition(k), name))[k] == name
    ensures forall j :: 0 <= j < Rows * Cols && j != k ==>
              GridNames(SeatChanged(m, GridPosition(k), name))[j] == GridNames(m)[j]
  {
    forall j | 0 <= j < Rows * Cols && j != k
      ensures GridNames(SeatChanged(m, GridPosition(k), name))[j] == GridNames(m)[j]
    {
      PositionKeysDistinct(j, k);
    }
  }

  /** The positions holding a non-empty name. */
  function AssignedPositions(m: map<string, string>): (s: set<string>)
    ensures forall k :: k in s <==> k in m && m[k] != ""
  {
    set k | k in m && m[k] != ""
  }

  /** `Object.values(plan.seats).filter(s => s).length`: the number of
      positions holding a non-empty name; together with the positions holding
      "" they make up the whole map. */
  function AssignedCount(m: map<string, string>): (n: nat)
    ensures n + |set k | k in m && m[k] == ""| == |m|
    ensures n <= |m|
  {
    var filled, blank := AssignedPositions(m), set k | k in m && m[k] == "";
    assert m.Keys == filled + blank && filled * blank == {};
    |filled|
  }

  /** The positions assigned after a seat change: the changed one joins them
      when the name is non-empty and leaves them otherwise. */
  lemma SeatChangeAssigned(m: map<string, string>, position: string, name: string)
    ensures position in SeatChanged(m, position, name)
    ensures AssignedPositions(SeatChanged(m, position, name))
            == if name != "" then AssignedPositions(m) + {position} else AssignedPositions(m) - {position}
  {
    var r := SeatChanged(m, position, name);
    var want := if name != "" then AssignedPositions(m) + {position} else AssignedPositions(m) - {position};
    forall k ensures k in AssignedPositions(r) <==> k in want {
      if k != position {
        assert k in r <==> k in m;
      }
    }
  }

  /** Naming a seat adds it to the count unless it was already named; clearing
      one keeps the key but drops it from the count. */
  lemma SeatChangeCount(m: map<string, string>, position: string, name: string)
    ensures name == "" ==> AssignedCount(SeatChanged(m, position, name))
                           == AssignedCount(m) - (if position in AssignedPositions(m) then 1 else 0)
    ensures name != "" ==> AssignedCount(SeatChanged(m, position, name))
                           == AssignedCount(m) + (if position in AssignedPositions(m) then 0 else 1)
  {
    SeatChangeAssigned(m, position, name);
    var a := AssignedPositions(m);
    if name != "" && position in a {
      assert a + {position} == a;
    }
  }

  // ---------------------------------------------------------------------
  // Plans

  /** The plan a submission stores: the draft's class and branch and the
      current assignments. */
  function NewPlan(id: string, f: PlanForm, assignments: map<string, string>): (p: SeatPlan)
    ensures p.id == id && p.className == f.className && p.branch == f.branch && p.seats == assignments
  {
    SeatPlan(id, f.className, f.branch, assignments)
  }

  /** `handleEdit`'s prefill; the grid size is reset to 5 × 6. */
  function Prefill(p: SeatPlan): (f: PlanForm)
    ensures f.className == p.className && f.branch == p.branch && f.rows == Rows && f.cols == Cols
  {
    PlanForm(p.className, p.branch, 5, 6)
  }

  /** The plan list after a submission. */
  function Submitted(xs: seq<SeatPlan>, editing: Option<SeatPlan>, f: PlanForm,
                     assignments: map<string, string>, freshId: string): (r: seq<SeatPlan>)
    ensures editing.None? ==> |r| == |xs| + 1 && r[..|xs|] == xs
    ensures editing.Some? ==> |r| == |xs|
  {
    Upserted(xs, PlanId, TargetOf(editing, PlanId), NewPlan(SubmittedId(TargetOf(editing, PlanId), freshId), f, assignments))
  }

  /** Creating appends a plan holding the current assignments; editing replaces
      the plans with the edited id where they stand. */
  lemma SubmitShape(xs: seq<SeatPlan>, editing: Option<SeatPlan>, f: PlanForm,
                    assignments: map<string, string>, freshId: string)
    ensures var r := Submitted(xs, editing, f, assignments, freshId);
            (editing.None? ==> r == xs + [NewPlan(freshId, f, assignments)])
            && (editing.Some? ==>
                  |r| == |xs|
                  && forall i :: 0 <= i < |xs| ==>
                       if xs[i].id == editing.value.id
                       then r[i].seats == assignments && (editing.value.id != "" ==> r[i].id == xs[i].id)
                       else r[i] == xs[i])
  {
  }

  /** Editing a plan and saving it without touching a seat stores its seats
      unchanged. */
  lemma EditSaveKeepsSeats(xs: seq<SeatPlan>, k: nat, freshId: string)
    requires k < |xs| && xs[k].id != ""
    requires forall i :: 0 <= i < |xs| && xs[i].id == xs[k].id ==> xs[i] == xs[k]
    ensures Submitted(xs, Some(xs[k]), Prefill(xs[k]), xs[k].seats, freshId) == xs
  {
    var r := Submitted(xs, Some(xs[k]), Prefill(xs[k]), xs[k].seats, freshId);
    assert forall i :: 0 <= i < |xs| ==> r[i] == xs[i];
  }

  function AfterDelete(xs: seq<SeatPlan>, id: string, confirmed: bool): (r: seq<SeatPlan>)
    ensures !confirmed ==> r == xs
    ensures confirmed ==> forall p :: p in r <==> p in xs && p.id != id
  {
    if confirmed then Removed(xs, PlanId, id) else xs
  }

  /** The screen's state: stored plans, the draft, the edit target and the
      draft seat assignments. */
  class Planner {
    const plans: Collection<SeatPlan>
    var form: PlanForm
    var editing: Option<SeatPlan>
    var assignments: map<string, string>

    ghost predicate Valid()
    {
      plans.idOf == PlanId
    }

    constructor (loaded: seq<SeatPlan>)
      ensures Valid() && fresh(plans)
      ensures plans.items == loaded && form == EmptyForm && editing == None && assignments == map[]
    {
      plans := new Collection(PlanId, loaded);
      form := EmptyForm;
      editing := None;
      assignments := map[];
    }

    /** `handleSubmit`: store the plan, then reset the draft, its seats and the
        edit target. */
    method HandleSubmit(freshId: string)
      requires Valid()
      modifies this, plans
      ensures Valid()
      ensures plans.items == Submitted(old(plans.items), old(editing), old(form), old(assignments), freshId)
      ensures form == EmptyForm && editing == None && assignments == map[]
    {
      var target := TargetOf(editing, PlanId);
      plans.Submit(target, NewPlan(SubmittedId(target, freshId), form, assignments));
      form := EmptyForm;
      assignments := map[];
      editing := None;
    }

    /** `handleEdit`: the draft takes the plan's fields and seats. */
    method HandleEdit(p: SeatPlan)
      modifies this
      ensures editing == Some(p) && form == Prefill(p) && assignments == p.seats
    {
      editing := Some(p);
      form := Prefill(p);
      assignments := p.seats;
    }

    method HandleDelete(id: string, confirmed: bool)
      requires Valid()
      modifies plans
      ensures plans.items == AfterDelete(old(plans.items), id, confirmed)
    {
      if confirmed {
        plans.DeleteById(id);
      }
    }

    /** `handleSeatChange`: one key of the draft map changes. */
    method HandleSeatChange(position: string, name: string)
      modifies this
      ensures assignments == SeatChanged(old(assignments), position, name)
      ensures form == old(form) && editing == old(editing)
    {
      assignments := assignments[position := name];
    }

    /** The form's Cancel button. */
    method HandleCancel()
      modifies this
      ensures editing == None && form == EmptyForm && assignments == map[]
    {
      editing := None;
      form := EmptyForm;
      assignments := map[];
    }
  }
}
