/** The student bio database: teachers add, edit and delete directory records
    (name, roll number, section, class). */
module StudentBio {
  import opened Common
  import opened Seqs
  import opened CollectionStore

  /** A directory record. The optional `contactInfo` of the record type is never
      written by this screen and is not modelled. */
  datatype Student = StudentRecord(id: string, name: string, rollNumber: string, section: string, className: string)

  /** The draft the add/edit form holds. */
  datatype StudentForm = StudentForm(name: string, rollNumber: string, section: string, className: string)

  const EmptyForm := StudentForm("", "", "", "")

  function StudentId(s: Student): string { s.id }

  /** `{ id, ...formData }`: the record a submission stores, holding exactly the
      draft's fields. */
  function FromForm(id: string, f: StudentForm): (s: Student)
    ensures s.id == id
    ensures s.name == f.name && s.rollNumber == f.rollNumber
    ensures s.section == f.section && s.className == f.className
  {
    StudentRecord(id, f.name, f.rollNumber, f.section, f.className)
  }

  /** `handleEdit`'s prefill: the draft shows the record's own fields. */
  function Prefill(s: Student): (f: StudentForm)
    ensures FromForm(s.id, f) == s
  {
    StudentForm(s.name, s.rollNumber, s.section, s.className)
  }

  /** The directory after a submission of draft `f`. */
  function Submitted(xs: seq<Student>, editing: Option<Student>, f: StudentForm, freshId: string): (r: seq<Student>)
    ensures editing.None? ==> |r| == |xs| + 1 && r[..|xs|] == xs
    ensures editing.Some? ==> |r| == |xs|
  {
    Upserted(xs, StudentId, TargetOf(editing, StudentId), FromForm(SubmittedId(TargetOf(editing, StudentId), freshId), f))
  }

  /** Adding appends one record holding the draft, under the fresh id. */
  lemma AddAppends(xs: seq<Student>, f: StudentForm, freshId: string)
    ensures Submitted(xs, None, f, freshId) == xs + [FromForm(freshId, f)]
    ensures |Submitted(xs, None, f, freshId)| == |xs| + 1
  {
  }

  /** Editing replaces, in place, every record bearing the edited id with the
      new record, which keeps that id; other records and the length stay. */
  lemma EditReplaces(xs: seq<Student>, e: Student, f: StudentForm, freshId: string)
    requires e.id != ""
    ensures |Submitted(xs, Some(e), f, freshId)| == |xs|
    ensures forall i :: 0 <= i < |xs| && xs[i].id == e.id ==>
              Submitted(xs, Some(e), f, freshId)[i] == FromForm(e.id, f)
    ensures forall i :: 0 <= i < |xs| && xs[i].id != e.id ==>
              Submitted(xs, Some(e), f, freshId)[i] == xs[i]
    ensures forall i :: 0 <= i < |xs| ==> Submitted(xs, Some(e), f, freshId)[i].id == xs[i].id
  {
  }

  /** Editing a record and submitting the prefilled draft unchanged leaves the
      directory as it was. */
  lemma EditUnchangedIsNoOp(xs: seq<Student>, k: nat, freshId: string)
    requires k < |xs| && xs[k].id != ""
    requires forall i :: 0 <= i < |xs| && xs[i].id == xs[k].id ==> xs[i] == xs[k]
    ensures Submitted(xs, Some(xs[k]), Prefill(xs[k]), freshId) == xs
  {
    var ys := Submitted(xs, Some(xs[k]), Prefill(xs[k]), freshId);
    assert forall i :: 0 <= i < |xs| ==> ys[i] == xs[i];
  }

  /** The directory after `handleDelete(id)`: unchanged unless confirmed. */
  function AfterDelete(xs: seq<Student>, id: string, confirmed: bool): (ys: seq<Student>)
    ensures !confirmed ==> ys == xs
    ensures confirmed ==> forall s :: s in ys <==> s in xs && s.id != id
  {
    if confirmed then Removed(xs, StudentId, id) else xs
  }

  /** A confirmed delete keeps the other records in order; a delete of an
      unknown id changes nothing. */
  lemma DeleteShape(xs: seq<Student>, id: string, confirmed: bool)
    ensures IsSubsequence(AfterDelete(xs, id, confirmed), xs)
    ensures (forall s :: s in xs ==> s.id != id) ==> AfterDelete(xs, id, confirmed) == xs
  {
    if confirmed {
      RemovedShape(xs, StudentId, id);
      if forall s :: s in xs ==> s.id != id {
        RemovedUnknownId(xs, StudentId, id);
      }
    } else {
      SubsequenceReflexive(xs);
    }
  }

  /** The screen's state: the persisted directory, the draft and the edit target. */
  class BioDatabase {
    const students: Collection<Student>
    var form: StudentForm
    var editing: Option<Student>

    ghost predicate Valid()
    {
      students.idOf == StudentId
    }

    constructor (loaded: seq<Student>)
      ensures Valid() && fresh(students)
      ensures students.items == loaded && form == EmptyForm && editing == None
    {
      students := new Collection(StudentId, loaded);
      form := EmptyForm;
      editing := None;
    }

    /** `handleSubmit`: add or replace, then reset the draft and clear the edit target. */
    method HandleSubmit(freshId: string)
      requires Valid()
      modifies this, students
      ensures Valid()
      ensures students.items == Submitted(old(students.items), old(editing), old(form), freshId)
      ensures form == EmptyForm && editing == None
    {
      var target := TargetOf(editing, StudentId);
      students.Submit(target, FromForm(SubmittedId(target, freshId), form));
      form := EmptyForm;
      editing := None;
    }

    /** `handleEdit`: remember the target and prefill the draft with its fields. */
    method HandleEdit(s: Student)
      modifies this
      ensures editing == Some(s) && form == Prefill(s)
    {
      editing := Some(s);
      form := Prefill(s);
    }

    /** The form's Cancel button. */
    method HandleCancel()
      modifies this
      ensures editing == None && form == EmptyForm
    {
      editing := None;
      form := EmptyForm;
    }

    /** `handleDelete(id)` once `confirm` has answered `confirmed`. */
    method HandleDelete(id: string, confirmed: bool)
      requires Valid()
      modifies students
      ensures students.items == AfterDelete(old(students.items), id, confirmed)
    {
      if confirmed {
        students.DeleteById(id);
      }
    }
  }
}
