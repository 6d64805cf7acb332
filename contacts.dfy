/** The student/teacher contact directory: contacts with role-dependent fields,
    split into a teachers list and a students list, with WhatsApp and mail
    links. */
module ContactList {
  import opened Common
  import opened Seqs
  import opened Text
  import opened CollectionStore

  /** A stored contact. Roll number and the parent's details belong to students
      only; absent fields are `None`. */
  datatype Contact = Contact(id: string, name: string, role: Role, rollNumber: Option<string>,
                             whatsapp: Option<string>, gmail: Option<string>,
                             parentWhatsapp: Option<string>, parentGmail: Option<string>,
                             addedBy: string)

  /** The draft: every field is a string; `role` starts as student. */
  datatype ContactForm = ContactForm(name: string, role: Role, rollNumber: string, whatsapp: string,
                                     gmail: string, parentWhatsapp: string, parentGmail: string)

  const EmptyForm := ContactForm("", Student, "", "", "", "", "")

  function ContactId(c: Contact): string { c.id }

  /** `formData.role === 'student' ? v : undefined`. */
  function StudentOnly(role: Role, v: string): (r: Option<string>)
    ensures role == Teacher ==> r.None?
    ensures role == Student ==> r == Some(v)
  {
    if role == Student then Some(v) else None
  }

  /** The contact a submission stores. */
  function NewContact(id: string, f: ContactForm, user: Option<User>): (c: Contact)
    ensures c.id == id && c.name == f.name && c.role == f.role
    ensures c.whatsapp == Some(f.whatsapp) && c.gmail == Some(f.gmail)
    ensures f.role == Teacher ==> c.rollNumber.None? && c.parentWhatsapp.None? && c.parentGmail.None?
    ensures f.role == Student ==>
              c.rollNumber == Some(f.rollNumber) && c.parentWhatsapp == Some(f.parentWhatsapp)
              && c.parentGmail == Some(f.parentGmail)
    ensures c.addedBy == ContributorName(user)
  {
    Contact(id, f.name, f.role, StudentOnly(f.role, f.rollNumber), Some(f.whatsapp), Some(f.gmail),
            StudentOnly(f.role, f.parentWhatsapp), StudentOnly(f.role, f.parentGmail), ContributorName(user))
  }

  /** `handleEdit`'s prefill: missing fields become "". */
  function Prefill(c: Contact): (f: ContactForm)
    ensures f.name == c.name && f.role == c.role
    ensures f.rollNumber == c.rollNumber.GetOr("") && f.whatsapp == c.whatsapp.GetOr("")
    ensures f.gmail == c.gmail.GetOr("")
    ensures f.parentWhatsapp == c.parentWhatsapp.GetOr("") && f.parentGmail == c.parentGmail.GetOr("")
  {
    ContactForm(c.name, c.role, c.rollNumber.GetOr(""), c.whatsapp.GetOr(""), c.gmail.GetOr(""),
                c.parentWhatsapp.GetOr(""), c.parentGmail.GetOr(""))
  }

  /** Editing any contact and resubmitting the prefilled draft unchanged keeps
      its id, name and role, and every field that held a value; the student-only
      fields are kept for students. */
  lemma ResubmitPreservesFields(c: Contact, user: Option<User>, freshId: string)
    requires c.id != ""
    ensures var r := NewContact(SubmittedId(Some(c.id), freshId), Prefill(c), user);
            r.id == c.id && r.name == c.name && r.role == c.role
            && (c.whatsapp.Some? ==> r.whatsapp == c.whatsapp)
            && (c.gmail.Some? ==> r.gmail == c.gmail)
            && (c.role == Student && c.rollNumber.Some? ==> r.rollNumber == c.rollNumber)
            && (c.role == Student && c.parentWhatsapp.Some? ==> r.parentWhatsapp == c.parentWhatsapp)
            && (c.role == Student && c.parentGmail.Some? ==> r.parentGmail == c.parentGmail)
  {
  }

  /** A contact stored by this form, edited and resubmitted unchanged by the
      same user, is stored again exactly as it was. */
  lemma ResubmitRoundTrip(id: string, f: ContactForm, user: Option<User>, freshId: string)
    requires id != ""
    ensures var c := NewContact(id, f, user);
            NewContact(SubmittedId(Some(c.id), freshId), Prefill(c), user) == c
  {
  }

  /** The contact list after a submission. */
  function Submitted(cs: seq<Contact>, editing: Option<Contact>, f: ContactForm,
                     user: Option<User>, freshId: string): (r: seq<Contact>)
    ensures editing.None? ==> |r| == |cs| + 1 && r[..|cs|] == cs
    ensures editing.Some? ==> |r| == |cs|
  {
    Upserted(cs, ContactId, TargetOf(editing, ContactId), NewContact(SubmittedId(TargetOf(editing, ContactId), freshId), f, user))
  }

  /** Adding appends one contact; editing replaces the contacts with the edited
      id where they stand and keeps the length. */
  lemma SubmitShape(cs: seq<Contact>, editing: Option<Contact>, f: ContactForm,
                    user: Option<User>, freshId: string)
    ensures var r := Submitted(cs, editing, f, user, freshId);
            (editing.None? ==> r == cs + [NewContact(freshId, f, user)])
            && (editing.Some? ==>
                  |r| == |cs|
                  && forall i :: 0 <= i < |cs| ==>
                       if cs[i].id == editing.value.id
                       then r[i] == NewContact(SubmittedId(Some(editing.value.id), freshId), f, user)
                            && (editing.value.id != "" ==> r[i].id == cs[i].id)
                       else r[i] == cs[i])
  {
  }

  predicate IsTeacherContact(c: Contact) { c.role == Teacher }

  predicate IsStudentContact(c: Contact) { c.role == Student }

  /** `contacts.filter(c => c.role === 'teacher')`. */
  function TeacherContacts(cs: seq<Contact>): (r: seq<Contact>)
    ensures forall c :: c in r <==> c in cs && c.role == Teacher
  {
    Filter(cs, IsTeacherContact)
  }

  /** `contacts.filter(c => c.role === 'student')`. */
  function StudentContacts(cs: seq<Contact>): (r: seq<Contact>)
    ensures forall c :: c in r <==> c in cs && c.role == Student
  {
    Filter(cs, IsStudentContact)
  }

  /** The two lists partition the directory: each contact is in exactly one,
      counts add up, and each list keeps the directory's order. */
  lemma RolePartition(cs: seq<Contact>)
    ensures |TeacherContacts(cs)| + |StudentContacts(cs)| == |cs|
    ensures multiset(TeacherContacts(cs)) + multiset(StudentContacts(cs)) == multiset(cs)
    ensures forall c :: c in cs ==> (c in TeacherContacts(cs) <==> c !in StudentContacts(cs))
    ensures IsSubsequence(TeacherContacts(cs), cs) && IsSubsequence(StudentContacts(cs), cs)
  {
    FilterPartition(cs, IsTeacherContact, IsStudentContact);
    FilterIsSubsequence(cs, IsTeacherContact);
    FilterIsSubsequence(cs, IsStudentContact);
  }

  const WhatsAppPrefix := "https://wa.me/"

  /** The WhatsApp link shown for a phone field: only when the field holds a
      non-empty value, to `https://wa.me/` followed by its digits. */
  function WhatsAppLink(phone: Option<string>): (link: Option<string>)
    ensures link.Some? <==> phone.Some? && phone.value != ""
    ensures link.Some? ==> link.value == WhatsAppPrefix + DigitsOnly(phone.value)
  {
    if phone.Some? && phone.value != "" then Some(WhatsAppPrefix + DigitsOnly(phone.value)) else None
  }

  /** The link number keeps exactly the digits of the stored phone, in order;
      stripping an already stripped number changes nothing. */
  lemma WhatsAppLinkDigits(phone: string)
    requires phone != ""
    ensures var link := WhatsAppLink(Some(phone)).value;
            var number := link[|WhatsAppPrefix|..];
            link[..|WhatsAppPrefix|] == WhatsAppPrefix
            && (forall i :: 0 <= i < |number| ==> IsDigit(number[i]))
            && (forall c :: c in phone && IsDigit(c) ==> c in number)
            && IsSubsequence(number, phone)
            && DigitsOnly(number) == number
  {
    var link := WhatsAppLink(Some(phone)).value;
    assert link[|WhatsAppPrefix|..] == DigitsOnly(phone);
    DigitsOnlyFacts(phone);
  }

  /** The mail link shown for a mail field with a value. */
  function MailLink(mail: Option<string>): (link: Option<string>)
    ensures link.Some? <==> mail.Some? && mail.value != ""
    ensures link.Some? ==> link.value == "mailto:" + mail.value
  {
    if mail.Some? && mail.value != "" then Some("mailto:" + mail.value) else None
  }

  /** The parent-contact block of a student card is shown when either parent
      field holds a value. */
  function ShowsParentBlock(c: Contact): (b: bool)
    ensures b <==> c.parentWhatsapp.GetOr("") != "" || c.parentGmail.GetOr("") != ""
  {
    (c.parentWhatsapp.Some? && c.parentWhatsapp.value != "") || (c.parentGmail.Some? && c.parentGmail.value != "")
  }

  /** A teacher stored by this form never shows a parent block. */
  lemma TeacherHasNoParentBlock(id: string, f: ContactForm, user: Option<User>)
    requires f.role == Teacher
    ensures !ShowsParentBlock(NewContact(id, f, user))
    ensures WhatsAppLink(NewContact(id, f, user).parentWhatsapp).None?
  {
  }

  /** The screen's state. */
  class ContactDirectory {
    const contacts: Collection<Contact>
    var form: ContactForm
    var editing: Option<Contact>

    ghost predicate Valid()
    {
      contacts.idOf == ContactId
    }

    constructor (loaded: seq<Contact>)
      ensures Valid() && fresh(contacts)
      ensures contacts.items == loaded && form == EmptyForm && editing == None
    {
      contacts := new Collection(ContactId, loaded);
      form := EmptyForm;
      editing := None;
    }

    /** `handleSubmit`: store the contact, reset the draft, clear the target. */
    method HandleSubmit(user: Option<User>, freshId: string)
      requires Valid()
      modifies this, contacts
      ensures Valid()
      ensures contacts.items == Submitted(old(contacts.items), old(editing), old(form), user, freshId)
      ensures form == EmptyForm && editing == None
    {
      var target := TargetOf(editing, ContactId);
      contacts.Submit(target, NewContact(SubmittedId(target, freshId), form, user));
      form := EmptyForm;
      editing := None;
    }

    /** `handleEdit`. */
    method HandleEdit(c: Contact)
      modifies this
      ensures editing == Some(c) && form == Prefill(c)
    {
      editing := Some(c);
      form := Prefill(c);
    }

    /** The form's Cancel button. */
    method HandleCancel()
      modifies this
      ensures editing == None && form == EmptyForm
    {
      editing := None;
      form := EmptyForm;
    }
  }
}
