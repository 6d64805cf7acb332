/** The mini dictionary: English words with Bangla translations, normalised on
    entry, searchable in both languages. */
module Dictionary {
  import opened Common
  import opened Seqs
  import opened Text
  import opened CollectionStore

  /** A stored word. `timestamp` is the submission time in milliseconds. */
  datatype DictionaryEntry = DictionaryEntry(id: string, english: string, bangla: string, addedBy: string, timestamp: int)

  datatype WordForm = WordForm(english: string, bangla: string)

  const EmptyForm := WordForm("", "")

  function EntryId(e: DictionaryEntry): string { e.id }

  /** `english.toLowerCase().trim()`: the stored English word is lower-case,
      has no white space at either end, and is a slice of the typed word. */
  function NormaliseEnglish(s: string): (t: string)
    ensures IsLowered(t)
    ensures t != [] ==> !IsWhitespace(t[0]) && !IsWhitespace(t[|t| - 1])
    ensures exists i, j :: 0 <= i <= j <= |s| && t == ToLower(s[i..j])
  {
    LoweredTrimShape(s);
    Trim(ToLower(s))
  }

  /** `bangla.trim()`: a slice of the typed word with no white space at
      either end, and white space only outside it. */
  function NormaliseBangla(s: string): (t: string)
    ensures t != [] ==> !IsWhitespace(t[0]) && !IsWhitespace(t[|t| - 1])
    ensures exists i, j :: 0 <= i <= j <= |s| && t == s[i..j]
                           && (forall k :: 0 <= k < i ==> IsWhitespace(s[k]))
                           && (forall k :: j <= k < |s| ==> IsWhitespace(s[k]))
  {
    TrimmedSlice(s);
    Trim(s)
  }

  /** `TrimSlice` with its slice bounds left existential. */
  lemma TrimmedSlice(s: string)
    ensures exists i, j :: 0 <= i <= j <= |s| && Trim(s) == s[i..j]
                           && (forall k :: 0 <= k < i ==> IsWhitespace(s[k]))
                           && (forall k :: j <= k < |s| ==> IsWhitespace(s[k]))
  {
    var i, j := TrimSlice(s);
  }

  /** The entry a submission stores: normalised words, the current user (or
      "Unknown") and the current time. */
  function NewEntry(id: string, f: WordForm, user: Option<User>, now: int): (e: DictionaryEntry)
    ensures e.id == id && e.timestamp == now
    ensures e.english == NormaliseEnglish(f.english) && e.bangla == NormaliseBangla(f.bangla)
    ensures e.addedBy == ContributorName(user)
  {
    DictionaryEntry(id, NormaliseEnglish(f.english), NormaliseBangla(f.bangla), ContributorName(user), now)
  }

  /** Lower-casing then trimming gives a lowered slice of the lower-cased
      input, which is the lower-cased slice of the input. */
  lemma LoweredTrimShape(s: string)
    ensures IsLowered(Trim(ToLower(s)))
    ensures exists i, j :: 0 <= i <= j <= |s| && Trim(ToLower(s)) == ToLower(s[i..j])
  {
    var l := ToLower(s);
    var i, j := TrimSlice(l);
    ToLowerFacts(s);
    LoweredSlice(l, i, j);
    ToLowerSlice(s, i, j);
  }

  /** Normalising a normalised word changes nothing. */
  lemma NormaliseIdempotent(s: string)
    ensures NormaliseEnglish(NormaliseEnglish(s)) == NormaliseEnglish(s)
    ensures NormaliseBangla(NormaliseBangla(s)) == NormaliseBangla(s)
  {
    var t := NormaliseEnglish(s);
    ToLowerFacts(t);
    assert ToLower(t) == t;
    TrimOfTrimmed(t);
    assert Trim(t) == t;
    assert NormaliseEnglish(t) == Trim(ToLower(t));
    TrimIdempotent(s);
  }

  /** Editing an entry stored from the typed words `f` and resubmitting the
      prefilled words unchanged keeps its id and both words, and stamps the
      entry with the current user and time. */
  lemma ResubmitKeepsWords(e: DictionaryEntry, f: WordForm, user: Option<User>, now: int, freshId: string)
    requires e.id != ""
    requires e.english == NormaliseEnglish(f.english) && e.bangla == NormaliseBangla(f.bangla)
    ensures var r := NewEntry(SubmittedId(Some(e.id), freshId), Prefill(e), user, now);
            r.id == e.id && r.english == e.english && r.bangla == e.bangla
            && r.addedBy == ContributorName(user) && r.timestamp == now
  {
    NormaliseIdempotent(f.english);
    NormaliseIdempotent(f.bangla);
  }

  /** `handleEdit`'s prefill. */
  function Prefill(e: DictionaryEntry): (f: WordForm)
    ensures f.english == e.english && f.bangla == e.bangla
  {
    WordForm(e.english, e.bangla)
  }

  /** The dictionary after a submission of draft `f`. */
  function Submitted(d: seq<DictionaryEntry>, editing: Option<DictionaryEntry>, f: WordForm,
                     user: Option<User>, now: int, freshId: string): (r: seq<DictionaryEntry>)
    ensures editing.None? ==> |r| == |d| + 1 && r[..|d|] == d
    ensures editing.Some? ==> |r| == |d|
  {
    Upserted(d, EntryId, TargetOf(editing, EntryId), NewEntry(SubmittedId(TargetOf(editing, EntryId), freshId), f, user, now))
  }

  /** Adding appends one entry; editing replaces the entries with the edited id
      where they stand, stamping them with the current user and time. */
  lemma SubmitShape(d: seq<DictionaryEntry>, editing: Option<DictionaryEntry>, f: WordForm,
                    user: Option<User>, now: int, freshId: string)
    ensures var r := Submitted(d, editing, f, user, now, freshId);
            (editing.None? ==> r == d + [NewEntry(freshId, f, user, now)])
            && (editing.Some? ==>
                  |r| == |d|
                  && forall i :: 0 <= i < |d| ==>
                       if d[i].id == editing.value.id
                       then r[i].english == NormaliseEnglish(f.english) && r[i].bangla == NormaliseBangla(f.bangla)
                            && r[i].addedBy == ContributorName(user) && r[i].timestamp == now
                            && (editing.value.id != "" ==> r[i].id == d[i].id)
                       else r[i] == d[i])
  {
  }

  /** The dictionary after `handleDelete(id)`: unchanged unless confirmed. */
  function AfterDelete(d: seq<DictionaryEntry>, id: string, confirmed: bool): (r: seq<DictionaryEntry>)
    ensures !confirmed ==> r == d
    ensures confirmed ==> forall e :: e in r <==> e in d && e.id != id
  {
    if confirmed then Removed(d, EntryId, id) else d
  }

  /** The search rule: the lower-cased English word contains the lower-cased
      term, or the Bangla word contains the term as typed (`Includes` is
      characterised by `Text.IncludesMeansOccurs`). */
  function MatchesSearch(e: DictionaryEntry, term: string): (b: bool)
    ensures b <==> (exists i :: OccursAt(ToLower(e.english), ToLower(term), i))
                   || (exists i :: OccursAt(e.bangla, term, i))
  {
    var english, search := ToLower(e.english), ToLower(term);
    IncludesMeansOccurs(english, search);
    IncludesMeansOccurs(e.bangla, term);
    assert Includes(english, search) <==> exists i :: OccursAt(ToLower(e.english), ToLower(term), i);
    Includes(english, search) || Includes(e.bangla, term)
  }

  function SearchFor(term: string): DictionaryEntry -> bool
  {
    e => MatchesSearch(e, term)
  }

  /** `filteredEntries`. */
  function FilteredEntries(d: seq<DictionaryEntry>, term: string): (r: seq<DictionaryEntry>)
    ensures forall e :: e in r <==> e in d && MatchesSearch(e, term)
  {
    Filter(d, SearchFor(term))
  }

  /** The English match ignores case in the term: terms that lower-case alike
      select the same entries. */
  lemma SearchIgnoresCase(d: seq<DictionaryEntry>, t1: string, t2: string)
    requires ToLower(t1) == ToLower(t2)
    requires forall e :: e in d ==> Includes(e.bangla, t1) == Includes(e.bangla, t2)
    ensures FilteredEntries(d, t1) == FilteredEntries(d, t2)
  {
    FilterSamePredicate(d, SearchFor(t1), SearchFor(t2));
  }

  lemma {:induction false} FilterSamePredicate<T(!new)>(xs: seq<T>, p: T -> bool, q: T -> bool)
    requires forall x :: x in xs ==> p(x) == q(x)
    ensures Filter(xs, p) == Filter(xs, q)
  {
    if xs != [] {
      FilterSamePredicate(xs[1..], p, q);
    }
  }

  /** The empty search shows every entry; any search shows a subsequence. */
  lemma FilteredFacts(d: seq<DictionaryEntry>, term: string)
    ensures FilteredEntries(d, "") == d
    ensures IsSubsequence(FilteredEntries(d, term), d)
  {
    forall e | e in d ensures MatchesSearch(e, "") {
      EmptyIncluded(ToLower(e.english));
    }
    FilterAll(d, SearchFor(""));
    FilterIsSubsequence(d, SearchFor(term));
  }

  /** Searching for a stored entry's own English word finds it. */
  lemma SearchFindsOwnWord(d: seq<DictionaryEntry>, k: nat)
    requires k < |d|
    ensures d[k] in FilteredEntries(d, d[k].english)
  {
    assert ToLower(d[k].english) <= ToLower(d[k].english);
  }

  /** The contributors statistic: the number of distinct `addedBy` names,
      that is, the size of the set of names that added some entry. */
  function ContributorCount(d: seq<DictionaryEntry>): (n: nat)
    ensures n == |set e | e in d :: e.addedBy|
    ensures n <= |d|
    ensures d != [] ==> n >= 1
  {
    var names := Image(d, (e: DictionaryEntry) => e.addedBy);
    assert names == set e | e in d :: e.addedBy by {
      forall u | u in names ensures exists e :: e in d && e.addedBy == u {
        var e :| e in d && e.addedBy == u;
      }
      forall e | e in d ensures e.addedBy in names {
        var i :| 0 <= i < |d| && d[i] == e;
      }
    }
    |names|
  }

  /** The screen's state. */
  class MiniDictionary {
    const dictionary: Collection<DictionaryEntry>
    var form: WordForm
    var editing: Option<DictionaryEntry>

    ghost predicate Valid()
    {
      dictionary.idOf == EntryId
    }

    constructor (loaded: seq<DictionaryEntry>)
      ensures Valid() && fresh(dictionary)
      ensures dictionary.items == loaded && form == EmptyForm && editing == None
    {
      dictionary := new Collection(EntryId, loaded);
      form := EmptyForm;
      editing := None;
    }

    /** `handleSubmit` at time `now` for the session user. */
    method HandleSubmit(user: Option<User>, now: int, freshId: string)
      requires Valid()
      modifies this, dictionary
      ensures Valid()
      ensures dictionary.items == Submitted(old(dictionary.items), old(editing), old(form), user, now, freshId)
      ensures form == EmptyForm && editing == None
    {
      var target := TargetOf(editing, EntryId);
      dictionary.Submit(target, NewEntry(SubmittedId(target, freshId), form, user, now));
      form := EmptyForm;
      editing := None;
    }

    method HandleEdit(e: DictionaryEntry)
      modifies this
      ensures editing == Some(e) && form == Prefill(e)
    {
      editing := Some(e);
      form := Prefill(e);
    }

    method HandleCancel()
      modifies this
      ensures editing == None && form == EmptyForm
    {
      editing := None;
      form := EmptyForm;
    }

    method HandleDelete(id: string, confirmed: bool)
      requires Valid()
      modifies dictionary
      ensures dictionary.items == AfterDelete(old(dictionary.items), id, confirmed)
    {
      if confirmed {
        dictionary.DeleteById(id);
      }
    }
  }
}
