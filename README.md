# Student–teacher portal: a verified model of its bookkeeping

The portal is a browser dashboard. A person logs in as a teacher or as a
student (with a roll number). They then use ten module screens: a student bio
database, a mini English–Bangla dictionary, a classroom seat planner, a
contact directory, a career goal tracker, a book lending history, an exam
reminder clock, a student budget tracker, a result viewer and a class vote.
Each screen keeps one or two persisted arrays of records. Its event handlers
append, replace by id, delete by id or update records, and the screen shows
views derived from those arrays: filters, totals, counts, sorted lists.

This project models that bookkeeping in Dafny and proves what the screens
promise about it.

* `common.dfy` (`Common`): optional values, results, the two roles, the user,
  and `user?.name || 'Unknown'`.
* `seqs.dfy` (`Seqs`): `filter`, `find`, `reduce` as a sum, distinct values
  (`new Set(...).size`), and the stable sort of JavaScript arrays, written as
  a stable insertion sort.
* `text.dfy` (`Text`): `toLowerCase`, `trim`, `includes` and the digit strip
  `replace(/[^0-9]/g, '')`.
* `collection.dfy` (`CollectionStore`): one generic class, `Collection`. It
  holds the record list of a screen (`items: seq<R>`). Its methods are the
  setter calls the screens make: append, replace by id, update by id,
  delete by id, form submission (append or replace) and the in-place
  `sort`. Each is proved against a pure function (`Upserted`, `Removed`, …).
* One module per screen: `students.dfy`, `dictionary.dfy`, `seats.dfy`,
  `contacts.dfy`, `careers.dfy`, `lending.dfy`, `reminders.dfy`,
  `budget.dfy`, `results.dfy` and `voting.dfy`. Each holds the record
  datatypes, the form drafts, the pure rules, and a class for the screen's
  state. The class keeps its store as a `Collection`, plus the draft and the
  edit target as fields.
* `auth.dfy` (`Auth`): the session provider. It holds a user and a storage
  map with the key "currentUser". It provides login, logout, restore on mount
  and the `useAuth` guard.
* `login.dfy` (`Login`): the login form's guard, and the arguments it hands
  to `login`.

Several inputs are parameters of the model rather than calls:
* the fresh id `Date.now().toString()` is `freshId`;
* the clock reading `new Date()` is `now` (milliseconds) or `today` (the
  date input's string);
* `new Date(s)` is `parseDate`;
* the `YYYY-MM` month of a date is `monthOf`;
* the answer of `confirm(...)` is `confirmed`.

## Model

| member | source | states |
|---|---|---|
| Common.Option.GetOr | src/components/modules/StudentTeacherContactList.tsx:73-78 | `x \|\| d` gives the value when present and `d` when absent |
| Common.RollOf | src/components/modules/CareerGoalTracker.tsx:47 | `user?.rollNumber` is absent without a user, else the user's roll |
| Common.IsTeacher | src/components/modules/VotingSystem.tsx:18 | nobody logged in is not a teacher; a logged-in user is one exactly when the role is teacher |
| Common.HasRoll | src/components/modules/VotingSystem.tsx:35 | `user?.rollNumber` is truthy exactly when a user is logged in with a roll number other than "" |
| Common.ContributorName | src/components/modules/StudentTeacherContactList.tsx:45 | the stamped name is the user's non-empty name, else "Unknown"; never empty |
| Seqs.Filter | src/components/modules/MiniDictionary.tsx:56-59 | `filter` keeps exactly the elements satisfying the predicate, never grows the list, and keeps a sub-multiset |
| Seqs.FilterIsSubsequence | src/components/modules/StudentBudgetTracker.tsx:46-49 | `filter` keeps the survivors in their original order |
| Seqs.FilterPartition | src/components/modules/BookLendingHistory.tsx:52-53 | filtering by a predicate and by its negation splits the list: the lengths add up, the multisets add up, and each element lands in exactly one half |
| Seqs.FilterIdempotent | src/components/modules/MiniDictionary.tsx:56-59 | filtering twice by the same predicate is filtering once |
| Seqs.Find | src/components/modules/CareerGoalTracker.tsx:44 | `find` returns the first element that matches, or nothing when none does |
| Seqs.SortBy | src/components/modules/SubjectReminderClock.tsx:39 | the sort is a permutation of its input, ordered by the key |
| Seqs.SortStable | src/components/modules/SubjectReminderClock.tsx:39 | the sort is stable: elements with equal keys keep their input order |
| Seqs.SumConcat | src/components/modules/StudentBudgetTracker.tsx:58-60 | the `reduce` sum of a concatenation is the sum of the sums |
| Seqs.Image | src/components/modules/MiniDictionary.tsx:216 | the set of mapped values holds exactly the images of the list's elements, has no more elements than the list, and is non-empty for a non-empty list |
| Text.ToLower | src/components/modules/MiniDictionary.tsx:22 | lower-casing keeps the length and lowers each character |
| Text.ToLowerFacts | src/components/modules/MiniDictionary.tsx:57 | lower-casing leaves no upper-case letter, and leaves a lower-case string unchanged |
| Text.WhitespaceClass | src/components/modules/MiniDictionary.tsx:22-23 | space, tab and the line breaks are stripped by `trim`, and no letter or digit is |
| Text.Trim | src/components/modules/MiniDictionary.tsx:22-23 | the trimmed string is no longer than the input and neither starts nor ends with white space |
| Text.TrimSlice | src/components/modules/MiniDictionary.tsx:22-23 | the trimmed string is one slice of the input, and only white space lies outside it |
| Text.TrimIdempotent | src/components/modules/MiniDictionary.tsx:22-23 | trimming a trimmed string changes nothing |
| Text.IncludesMeansOccurs | src/components/modules/MiniDictionary.tsx:57-58 | `includes` holds exactly when the needle occurs at some offset of the haystack |
| Text.Includes | src/components/modules/MiniDictionary.tsx:57-58 | a prefix of the haystack, the empty needle among them, is included, and no needle longer than the haystack is |
| Text.DigitsOnly | src/components/modules/StudentTeacherContactList.tsx:268 | the strip keeps only digits and keeps every digit, and is no longer than its input |
| Text.DigitsOnlyFacts | src/components/modules/StudentTeacherContactList.tsx:268 | the strip keeps the digits in their order, and stripping again changes nothing |
| Text.NatToString | src/components/modules/ClassroomSeatPlanner.tsx:78 | the rendering of a number is a non-empty run of digits, and a single digit below ten |
| CollectionStore.Updated | src/components/modules/BookLendingHistory.tsx:45-49 | the update by id keeps the length and changes only the records that carry the id |
| CollectionStore.Replaced | src/components/modules/StudentBioDatabase.tsx:27 | the replace by id keeps the length, puts the new record at each position carrying the id, and leaves the other positions alone |
| CollectionStore.Removed | src/components/modules/StudentBioDatabase.tsx:50 | the delete by id keeps exactly the records with another id |
| CollectionStore.SubmittedId | src/components/modules/StudentBioDatabase.tsx:22 | a submission reuses the edit target's non-empty id, else takes the fresh id |
| CollectionStore.TargetOf | src/components/modules/StudentBioDatabase.tsx:22-27 | there is an edit target id exactly when a record is being edited, and it is that record's id |
| CollectionStore.Upserted | src/components/modules/StudentBioDatabase.tsx:26-30 | without an edit target one record is appended at the end; with one, the length is kept and only the target's records are replaced |
| CollectionStore.EditKeepsIds | src/components/modules/StudentBioDatabase.tsx:22-27 | an edit whose record keeps the target id leaves every position's id unchanged |
| CollectionStore.UpdatedUnknownId | src/components/modules/BookLendingHistory.tsx:45-49 | an update of an id nobody carries changes nothing |
| CollectionStore.ReplacedUnknownId | src/components/modules/StudentBioDatabase.tsx:27 | a replace of an id nobody carries changes nothing |
| CollectionStore.RemovedUnknownId | src/components/modules/StudentBioDatabase.tsx:50 | a delete of an id nobody carries changes nothing |
| CollectionStore.RemovedShape | src/components/modules/StudentBioDatabase.tsx:50 | a delete keeps the survivors in order, and the survivors plus the records with the id make up the whole list |
| CollectionStore.RemovedUniqueId | src/components/modules/StudentBioDatabase.tsx:50 | deleting a record whose id is unique shrinks the list by exactly one and removes that record |
| CollectionStore.UniqueIdCount | src/components/modules/StudentBioDatabase.tsx:50 | a record whose id no other record carries is the only record with that id |
| CollectionStore.Collection.constructor | src/components/modules/StudentBioDatabase.tsx:9 | the collection starts from the loaded list |
| CollectionStore.Collection.Set | src/components/modules/StudentBioDatabase.tsx:9 | the setter replaces the whole list |
| CollectionStore.Collection.Append | src/components/modules/StudentBioDatabase.tsx:29 | the new list is the old list plus the record at the end |
| CollectionStore.Collection.UpdateById | src/components/modules/BookLendingHistory.tsx:45-49 | the new list is the update by id of the old list |
| CollectionStore.Collection.ReplaceById | src/components/modules/StudentBioDatabase.tsx:27 | the new list is the replace by id of the old list: same length, the target's positions replaced |
| CollectionStore.Collection.Submit | src/components/modules/StudentBioDatabase.tsx:26-30 | the new list is the old list with the record appended or replaced, as the edit target says |
| CollectionStore.Collection.DeleteById | src/components/modules/StudentBioDatabase.tsx:50 | the new list is the delete by id of the old list, as an ordered subsequence |
| CollectionStore.Collection.SortInPlace | src/components/modules/StudentResultViewer.tsx:61 | the array is reordered in place by the stable sort: a permutation of the old list, ordered by the key |
| StudentBio.FromForm | src/components/modules/StudentBioDatabase.tsx:21-24 | the stored record holds the id and exactly the draft's four fields |
| StudentBio.Submitted | src/components/modules/StudentBioDatabase.tsx:21-29 | a submission without an edit target appends one record after the old list; one with a target keeps the length (the records themselves: AddAppends, EditReplaces) |
| StudentBio.Prefill | src/components/modules/StudentBioDatabase.tsx:37-45 | the prefilled draft, stored under the record's id, rebuilds the record |
| StudentBio.AddAppends | src/components/modules/StudentBioDatabase.tsx:21-29 | adding appends one record that holds the draft under the fresh id |
| StudentBio.EditReplaces | src/components/modules/StudentBioDatabase.tsx:22-27 | editing keeps the length and every id, replaces each record carrying the edited id with the draft's record under that id, and leaves the rest alone |
| StudentBio.EditUnchangedIsNoOp | src/components/modules/StudentBioDatabase.tsx:22-44 | editing a record and submitting the prefilled draft unchanged leaves the directory unchanged |
| StudentBio.AfterDelete | src/components/modules/StudentBioDatabase.tsx:48-52 | an unconfirmed delete changes nothing; a confirmed one keeps exactly the records with another id |
| StudentBio.DeleteShape | src/components/modules/StudentBioDatabase.tsx:49-50 | a delete keeps the survivors in order, and a delete of an unknown id changes nothing |
| StudentBio.BioDatabase.constructor | src/components/modules/StudentBioDatabase.tsx:9-17 | the screen starts from the loaded list, an empty draft and no edit target |
| StudentBio.BioDatabase.HandleSubmit | src/components/modules/StudentBioDatabase.tsx:19-35 | the list becomes the submission's result, then the draft is emptied and the edit target cleared |
| StudentBio.BioDatabase.HandleEdit | src/components/modules/StudentBioDatabase.tsx:37-46 | the edit target becomes the record and the draft its prefill |
| StudentBio.BioDatabase.HandleCancel | src/components/modules/StudentBioDatabase.tsx:126-128 | cancel clears the edit target and empties the draft |
| StudentBio.BioDatabase.HandleDelete | src/components/modules/StudentBioDatabase.tsx:48-52 | the list becomes the confirmed or unconfirmed delete's result |
| Dictionary.NewEntry | src/components/modules/MiniDictionary.tsx:18-31 | the stored entry holds the normalised words, the submission time and the contributor name |
| Dictionary.Submitted | src/components/modules/MiniDictionary.tsx:21-33 | a submission without an edit target appends one entry after the old list; one with a target keeps the length (the entries themselves: SubmitShape) |
| Dictionary.NormaliseEnglish | src/components/modules/MiniDictionary.tsx:22 | the stored English word has no upper-case letter, neither starts nor ends with white space, and is the lower-cased form of a slice of the typed word |
| Dictionary.NormaliseBangla | src/components/modules/MiniDictionary.tsx:23 | the stored Bangla word is a slice of the typed word with white space only outside it, and neither starts nor ends with white space |
| Dictionary.NormaliseIdempotent | src/components/modules/MiniDictionary.tsx:22-23 | normalising a normalised English or Bangla word changes nothing |
| Dictionary.ResubmitKeepsWords | src/components/modules/MiniDictionary.tsx:18-48 | editing an entry and resubmitting the prefilled draft keeps its id and words, and stamps the current user and time |
| Dictionary.Prefill | src/components/modules/MiniDictionary.tsx:41-48 | the prefilled draft shows the entry's two words |
| Dictionary.SubmitShape | src/components/modules/MiniDictionary.tsx:21-33 | adding appends one entry; editing keeps the length and replaces only the entries with the edited id |
| Dictionary.AfterDelete | src/components/modules/MiniDictionary.tsx:50-54 | an unconfirmed delete changes nothing; a confirmed one keeps exactly the entries with another id |
| Dictionary.MatchesSearch | src/components/modules/MiniDictionary.tsx:57-58 | an entry matches exactly when the lower-cased term occurs in the lower-cased English word or the term as typed occurs in the Bangla word |
| Dictionary.FilteredEntries | src/components/modules/MiniDictionary.tsx:56-59 | the search keeps exactly the entries whose lower-cased English word contains the lower-cased term or whose Bangla word contains the term |
| Dictionary.SearchIgnoresCase | src/components/modules/MiniDictionary.tsx:57 | two terms that lower-case alike, and match the Bangla words alike, give the same results |
| Dictionary.FilterSamePredicate | src/components/modules/MiniDictionary.tsx:56-59 | filters by predicates that agree on the list give the same result |
| Dictionary.FilteredFacts | src/components/modules/MiniDictionary.tsx:56-59 | the empty search shows every entry, and every search shows a subsequence of the dictionary |
| Dictionary.SearchFindsOwnWord | src/components/modules/MiniDictionary.tsx:56-59 | searching for a stored entry's own English word finds that entry |
| Dictionary.ContributorCount | src/components/modules/MiniDictionary.tsx:216 | the contributor count is the size of the set of `addedBy` names of the entries, so at most the number of entries and at least one for a non-empty dictionary |
| Dictionary.MiniDictionary.constructor | src/components/modules/MiniDictionary.tsx:9-16 | the screen starts from the loaded list, an empty draft and no edit target |
| Dictionary.MiniDictionary.HandleSubmit | src/components/modules/MiniDictionary.tsx:18-39 | the list becomes the submission's result, then the draft is emptied and the edit target cleared |
| Dictionary.MiniDictionary.HandleEdit | src/components/modules/MiniDictionary.tsx:41-48 | the edit target becomes the entry and the draft its prefill |
| Dictionary.MiniDictionary.HandleCancel | src/components/modules/MiniDictionary.tsx:110-114 | cancel clears the edit target and empties the draft |
| Dictionary.MiniDictionary.HandleDelete | src/components/modules/MiniDictionary.tsx:50-54 | the list becomes the confirmed or unconfirmed delete's result |
| SeatPlanner.GridRow | src/components/modules/ClassroomSeatPlanner.tsx:75 | the row of an index is the one whose run of six indices holds it |
| SeatPlanner.GridCol | src/components/modules/ClassroomSeatPlanner.tsx:76 | the column is below six and row·6+column gives back the index |
| SeatPlanner.GridCellOf | src/components/modules/ClassroomSeatPlanner.tsx:75-77 | each of the 30 grid indices is a cell with row below 5 and column below 6, and the index is recovered from the cell |
| SeatPlanner.GridIndexOf | src/components/modules/ClassroomSeatPlanner.tsx:75-77 | each cell with row below 5 and column below 6 comes from exactly the index row·6+col |
| SeatPlanner.GridPosition | src/components/modules/ClassroomSeatPlanner.tsx:77 | inside the grid a position key is a row digit, a dash and a column digit |
| SeatPlanner.PositionKeysDistinct | src/components/modules/ClassroomSeatPlanner.tsx:78 | distinct grid indices have distinct position keys |
| SeatPlanner.SeatAt | src/components/modules/ClassroomSeatPlanner.tsx:79 | a cell shows the assigned name, or "" when the position has none |
| SeatPlanner.DisplayedSeats | src/components/modules/ClassroomSeatPlanner.tsx:72 | the grid shows a stored plan's seats, or the draft's assignments without a plan |
| SeatPlanner.GridNames | src/components/modules/ClassroomSeatPlanner.tsx:75-79 | the grid shows 30 names, the one at index i being the name at i's position key |
| SeatPlanner.SeatChanged | src/components/modules/ClassroomSeatPlanner.tsx:61-66 | a seat change sets that one key to the name and leaves every other key, and its name, as it was |
| SeatPlanner.SeatChangeShowsInGrid | src/components/modules/ClassroomSeatPlanner.tsx:61-79 | filling grid cell k shows the name in cell k and changes no other cell |
| SeatPlanner.AssignedPositions | src/components/modules/ClassroomSeatPlanner.tsx:200 | the assigned positions are exactly the keys holding a non-empty name |
| SeatPlanner.AssignedCount | src/components/modules/ClassroomSeatPlanner.tsx:200 | the positions with a name and the positions holding "" together account for every key of the seat map, so the count never exceeds the number of keys |
| SeatPlanner.SeatChangeAssigned | src/components/modules/ClassroomSeatPlanner.tsx:61-66 | after a seat change the key is present; it is assigned exactly when the name is non-empty, and the other keys keep their status |
| SeatPlanner.SeatChangeCount | src/components/modules/ClassroomSeatPlanner.tsx:200 | clearing a seat removes it from the count, and naming a seat adds it unless it was already named |
| SeatPlanner.NewPlan | src/components/modules/ClassroomSeatPlanner.tsx:24-29 | the stored plan holds the id, the draft's class and branch, and the current assignments |
| SeatPlanner.Submitted | src/components/modules/ClassroomSeatPlanner.tsx:24-34 | a submission without an edit target appends one plan after the old list; one with a target keeps the length (the plans themselves: SubmitShape) |
| SeatPlanner.Prefill | src/components/modules/ClassroomSeatPlanner.tsx:43-53 | the prefilled draft shows the plan's class and branch with the fixed 5 × 6 grid |
| SeatPlanner.SubmitShape | src/components/modules/ClassroomSeatPlanner.tsx:24-34 | creating appends one plan holding the assignments; editing keeps the length and replaces only the plans with the edited id |
| SeatPlanner.EditSaveKeepsSeats | src/components/modules/ClassroomSeatPlanner.tsx:22-53 | editing a plan and saving it without touching a seat leaves the plan list unchanged |
| SeatPlanner.AfterDelete | src/components/modules/ClassroomSeatPlanner.tsx:55-59 | an unconfirmed delete changes nothing; a confirmed one keeps exactly the plans with another id |
| SeatPlanner.Planner.constructor | src/components/modules/ClassroomSeatPlanner.tsx:9-18 | the screen starts from the loaded list, an empty draft, no edit target and no assignments |
| SeatPlanner.Planner.HandleSubmit | src/components/modules/ClassroomSeatPlanner.tsx:22-41 | the list becomes the submission's result, then the draft, the assignments and the edit target are reset |
| SeatPlanner.Planner.HandleEdit | src/components/modules/ClassroomSeatPlanner.tsx:43-53 | the edit target becomes the plan, the draft its prefill and the assignments its seats |
| SeatPlanner.Planner.HandleDelete | src/components/modules/ClassroomSeatPlanner.tsx:55-59 | the list becomes the confirmed or unconfirmed delete's result |
| SeatPlanner.Planner.HandleSeatChange | src/components/modules/ClassroomSeatPlanner.tsx:61-66 | only the draft assignments change, by that one seat |
| SeatPlanner.Planner.HandleCancel | src/components/modules/ClassroomSeatPlanner.tsx:169-173 | cancel clears the edit target, the draft and the assignments |
| ContactList.StudentOnly | src/components/modules/StudentTeacherContactList.tsx:40-44 | a student-only field is absent for a teacher and holds the typed value for a student |
| ContactList.NewContact | src/components/modules/StudentTeacherContactList.tsx:36-46 | the stored contact holds the draft's name, role, phone and mail; a teacher gets no roll number or parent fields, a student gets the typed ones; the contributor is stamped |
| ContactList.Submitted | src/components/modules/StudentTeacherContactList.tsx:48-54 | a submission without an edit target appends one contact after the old list; one with a target keeps the length (the contacts themselves: SubmitShape) |
| ContactList.Prefill | src/components/modules/StudentTeacherContactList.tsx:69-79 | the prefilled draft shows each optional field, or "" when it is missing |
| ContactList.ResubmitPreservesFields | src/components/modules/StudentTeacherContactList.tsx:34-79 | editing a contact and resubmitting unchanged keeps its id, name, role and every non-empty field its role allows |
| ContactList.ResubmitRoundTrip | src/components/modules/StudentTeacherContactList.tsx:34-79 | a contact stored by this form, edited and resubmitted unchanged by the same user, comes back identical |
| ContactList.SubmitShape | src/components/modules/StudentTeacherContactList.tsx:48-54 | adding appends one contact; editing keeps the length and replaces only the contacts with the edited id |
| ContactList.TeacherContacts | src/components/modules/StudentTeacherContactList.tsx:83 | the teachers list holds exactly the contacts with the teacher role |
| ContactList.StudentContacts | src/components/modules/StudentTeacherContactList.tsx:84 | the students list holds exactly the contacts with the student role |
| ContactList.RolePartition | src/components/modules/StudentTeacherContactList.tsx:83-84 | the two lists partition the directory: lengths and multisets add up, each contact is in exactly one, and each list keeps the directory's order |
| ContactList.WhatsAppLink | src/components/modules/StudentTeacherContactList.tsx:264-268 | a link is shown exactly for a non-empty phone, and its number is the phone's digits |
| ContactList.WhatsAppLinkDigits | src/components/modules/StudentTeacherContactList.tsx:268 | the link number holds only digits, every digit of the phone in order, and stripping it again changes nothing |
| ContactList.MailLink | src/components/modules/StudentTeacherContactList.tsx:281 | a mail link is shown exactly for a non-empty address, as "mailto:" followed by the address |
| ContactList.ShowsParentBlock | src/components/modules/StudentTeacherContactList.tsx:347 | the parent block shows exactly when one of the two parent fields, read as "" when absent, is non-empty |
| ContactList.TeacherHasNoParentBlock | src/components/modules/StudentTeacherContactList.tsx:347-355 | a teacher stored by this form never shows a parent block or a parent link |
| ContactList.ContactDirectory.constructor | src/components/modules/StudentTeacherContactList.tsx:21-32 | the screen starts from the loaded list, the empty student draft and no edit target |
| ContactList.ContactDirectory.HandleSubmit | src/components/modules/StudentTeacherContactList.tsx:34-67 | the list becomes the submission's result, then the draft is reset and the edit target cleared |
| ContactList.ContactDirectory.HandleEdit | src/components/modules/StudentTeacherContactList.tsx:69-81 | the edit target becomes the contact and the draft its prefill |
| ContactList.ContactDirectory.HandleCancel | src/components/modules/StudentTeacherContactList.tsx:190-201 | cancel clears the edit target and resets the draft |
| CareerGoals.NewGoal | src/components/modules/CareerGoalTracker.tsx:23-30 | the stored goal holds the fresh id and exactly the draft's fields |
| CareerGoals.GetStudentGoal | src/components/modules/CareerGoalTracker.tsx:43-45 | the lookup finds nothing exactly when no goal has the roll, and otherwise the first stored goal with that roll |
| CareerGoals.AssignKeepsFirstGoal | src/components/modules/CareerGoalTracker.tsx:32-45 | appending a goal never changes the goal found for a roll that already has one, and a roll's first goal is the one found |
| CareerGoals.SeveralGoalsPerRoll | src/components/modules/CareerGoalTracker.tsx:32 | two assignments to the same roll are both stored, and the lookup still returns the earliest goal |
| CareerGoals.StudentGoal | src/components/modules/CareerGoalTracker.tsx:47 | teachers and students without a roll get no goal; a student with a roll gets the lookup for that roll |
| CareerGoals.BasedOnResultsCount | src/components/modules/CareerGoalTracker.tsx:292 | the count is at most the total, and equals it exactly when every goal is based on results |
| CareerGoals.FilterCountAll | src/components/modules/CareerGoalTracker.tsx:292 | a filter keeps every element exactly when the predicate holds everywhere |
| CareerGoals.UniquePaths | src/components/modules/CareerGoalTracker.tsx:298 | the statistic is the size of the set of assigned goal names, so 0 for no goals, else between 1 and the number of goals |
| CareerGoals.Tracker.constructor | src/components/modules/CareerGoalTracker.tsx:9-17 | the screen starts from the loaded list and the reset draft |
| CareerGoals.Tracker.HandleSubmit | src/components/modules/CareerGoalTracker.tsx:21-41 | exactly one goal is appended, and the draft resets to empty strings with "based on results" ticked |
| BookLending.FreshForm | src/components/modules/BookLendingHistory.tsx:33-40 | the reset draft is empty except for today's date as the borrow date |
| BookLending.NewLending | src/components/modules/BookLendingHistory.tsx:22-30 | the stored loan holds the draft's fields and parsed borrow date; it has a return date exactly when one was typed |
| BookLending.MarkReturned | src/components/modules/BookLendingHistory.tsx:47 | returning sets the return date to now and changes no other field |
| BookLending.Returned | src/components/modules/BookLendingHistory.tsx:44-50 | returning by id keeps the length and order, marks returned the loans with that id, and leaves the others unchanged |
| BookLending.ReturnUnknownId | src/components/modules/BookLendingHistory.tsx:45-49 | returning an id nobody carries changes nothing |
| BookLending.IsReturned | src/components/modules/BookLendingHistory.tsx:53 | a loan counts as returned exactly when a return date is recorded |
| BookLending.IsActive | src/components/modules/BookLendingHistory.tsx:52 | a loan is active exactly when it is not returned, so every loan is one or the other |
| BookLending.ActiveLoans | src/components/modules/BookLendingHistory.tsx:52 | the active loans are exactly the loans without a return date |
| BookLending.ReturnedBooks | src/components/modules/BookLendingHistory.tsx:53 | the returned books are exactly the loans with a return date |
| BookLending.LoansPartition | src/components/modules/BookLendingHistory.tsx:52-53 | active loans and returned books partition the history: lengths and multisets add up, and each loan is in exactly one |
| BookLending.ReturnClosesLoan | src/components/modules/BookLendingHistory.tsx:44-53 | after a return no active loan has that id, and loans with other ids are active exactly as before |
| BookLending.NewLoanIsActive | src/components/modules/BookLendingHistory.tsx:22-53 | recording a loan without a return date adds exactly it to the active loans and nothing to the returned books |
| BookLending.StatusOf | src/components/modules/BookLendingHistory.tsx:286-288 | the status reads "Active" exactly for an active loan |
| BookLending.LendingHistory.constructor | src/components/modules/BookLendingHistory.tsx:9-18 | the screen starts from the loaded list and the reset draft |
| BookLending.LendingHistory.HandleSubmit | src/components/modules/BookLendingHistory.tsx:20-42 | exactly one loan is appended and the draft is reset |
| BookLending.LendingHistory.HandleReturn | src/components/modules/BookLendingHistory.tsx:44-50 | the list becomes the return-by-id of the old list |
| ReminderClock.NewReminder | src/components/modules/SubjectReminderClock.tsx:22-28 | the stored reminder holds the fresh id, the draft's fields and the parsed exam date |
| ReminderClock.UpcomingExams | src/components/modules/SubjectReminderClock.tsx:35-40 | the upcoming exams are exactly the reminders strictly after now, sorted by date, a permutation of the filtered reminders |
| ReminderClock.UpcomingKeepsOrderOfTies | src/components/modules/SubjectReminderClock.tsx:39 | upcoming exams at the same instant keep the order in which they were added |
| ReminderClock.NextExam | src/components/modules/SubjectReminderClock.tsx:49-50 | the next exam is absent exactly when nothing is upcoming, and otherwise is an upcoming reminder no later than any other upcoming one; among upcoming exams at that instant it is the one stored first |
| ReminderClock.FirstAddedOfEarliest | src/components/modules/SubjectReminderClock.tsx:38-50 | the head of the date-sorted upcoming list is stored before every other upcoming reminder with the same date |
| ReminderClock.EarliestFirst | src/components/modules/SubjectReminderClock.tsx:39-50 | the head of a date-sorted list is no later than any of its members |
| ReminderClock.DaysUntilExam | src/components/modules/SubjectReminderClock.tsx:42-47 | the day count is the ceiling: the time left is more than one day less than it and at most it, in days of 86,400,000 ms |
| ReminderClock.DaysLeftPositive | src/components/modules/SubjectReminderClock.tsx:42-47 | an exam strictly in the future is at least one day away |
| ReminderClock.DaysLeftMonotone | src/components/modules/SubjectReminderClock.tsx:42-47 | an earlier exam never has more days left than a later one |
| ReminderClock.UpcomingCountdownPositive | src/components/modules/SubjectReminderClock.tsx:176-177 | every upcoming card shows at least one day left |
| ReminderClock.UrgentWithinThreeDays | src/components/modules/SubjectReminderClock.tsx:177-178 | a card is urgent exactly when its exam is at most 72 hours away |
| ReminderClock.UrgencyBadge | src/components/modules/SubjectReminderClock.tsx:178-196 | the badge is red exactly when urgent (at most 3 days), yellow exactly for 4 to 7, green exactly beyond 7 |
| ReminderClock.LaterIsNoMoreUrgent | src/components/modules/SubjectReminderClock.tsx:42-47 | a later exam is never more urgent than an earlier one |
| ReminderClock.TableBadge | src/components/modules/SubjectReminderClock.tsx:263-268 | the table badge is grey exactly for an exam that is over, else the urgency band |
| ReminderClock.CardLabel | src/components/modules/SubjectReminderClock.tsx:197-199 | the card label, as written, is "Today" exactly for 0 days, "Tomorrow" exactly for 1, else the day count |
| ReminderClock.TableStatus | src/components/modules/SubjectReminderClock.tsx:269-272 | the table status, as written, is "Completed" for an exam that is over, else the card's label |
| ReminderClock.TodayNeverShown | src/components/modules/SubjectReminderClock.tsx:42-47 | as written, "Today" is shown only for an exam that is not upcoming, so the table never shows it |
| ReminderClock.ExamLaterTodaySaysTomorrow | src/components/modules/SubjectReminderClock.tsx:42-47 | as written, an exam two hours away is labelled "Tomorrow" |
| ReminderClock.CorrectedLabel | src/components/modules/SubjectReminderClock.tsx:197-199 | the corrected label says "Today" exactly under one day, "Tomorrow" exactly from one to two days, and otherwise the number of whole days left, which is at least two |
| ReminderClock.CorrectedTableStatus | src/components/modules/SubjectReminderClock.tsx:269-272 | the corrected status is "Completed" exactly for an exam that is over |
| ReminderClock.RowOf | src/components/modules/SubjectReminderClock.tsx:262-272 | a table row shows its reminder, the badge, and the status as written: "Completed" exactly for an exam that is over, else the card's label from the rounded-up day count, so never "Today" |
| ReminderClock.CorrectedRowOf | src/components/modules/SubjectReminderClock.tsx:262-272 | the row with the corrected status keeps the reminder, the badge and "Completed"; it equals the row as written exactly when the exam is over or a whole number of days away |
| ReminderClock.TableRows | src/components/modules/SubjectReminderClock.tsx:239-272 | the table has one row as written per reminder, in the given order |
| ReminderClock.Clock.constructor | src/components/modules/SubjectReminderClock.tsx:9-16 | the screen starts from the loaded list and an empty draft |
| ReminderClock.Clock.HandleSubmit | src/components/modules/SubjectReminderClock.tsx:20-33 | exactly one reminder is appended and the draft is emptied |
| ReminderClock.Clock.AllExamsTable | src/components/modules/SubjectReminderClock.tsx:239-272 | the stored array is stably sorted in place by date, as a permutation, and the table is one row as written per reminder in that order |
| BudgetTracker.ResetForm | src/components/modules/StudentBudgetTracker.tsx:12-41 | the reset draft carries the user's roll (or ""), the transport category, no description, amount 0 and today's date |
| BudgetTracker.NewEntry | src/components/modules/StudentBudgetTracker.tsx:24-32 | the stored entry holds the draft's fields, the parsed date and the contributor name |
| BudgetTracker.InMonthFor | src/components/modules/StudentBudgetTracker.tsx:48 | an entry passes only in its month; an absent or empty roll does not restrict it, any other roll must match |
| BudgetTracker.MonthlyExpenses | src/components/modules/StudentBudgetTracker.tsx:45-50 | the monthly list holds exactly the entries of that month and, when a roll is given, of that roll |
| BudgetTracker.MonthlyExpensesInOrder | src/components/modules/StudentBudgetTracker.tsx:46-49 | the monthly list keeps the entries' order |
| BudgetTracker.ViewerRoll | src/components/modules/StudentBudgetTracker.tsx:62-65 | a teacher filters by no roll; anyone else by their own roll |
| BudgetTracker.CurrentMonthEntries | src/components/modules/StudentBudgetTracker.tsx:62-65 | a teacher, and anyone without a non-empty roll, sees every entry of the month; a student with a roll sees exactly the month's entries with that roll; the order is kept |
| BudgetTracker.TotalExpenses | src/components/modules/StudentBudgetTracker.tsx:58-60 | the total of no entries is 0, and the total is never negative when no amount is |
| BudgetTracker.CategoryTotal | src/components/modules/StudentBudgetTracker.tsx:52-56 | a category's total is 0 when no entry has it, the whole total when every entry has it, and never negative when no amount is |
| BudgetTracker.TotalFacts | src/components/modules/StudentBudgetTracker.tsx:58-60 | the total of no entries is 0, the total is additive over concatenation, and appending an entry adds its amount |
| BudgetTracker.CategoryTotalCons | src/components/modules/StudentBudgetTracker.tsx:52-56 | an entry adds its amount to its own category's total and nothing to the others |
| BudgetTracker.CategoryTotalsSum | src/components/modules/StudentBudgetTracker.tsx:52-60 | the five category totals add up to the overall total |
| BudgetTracker.AvailableCategories | src/components/modules/StudentBudgetTracker.tsx:67-75 | a teacher may pick all five categories; anyone else exactly transport, food and personal, in that order |
| BudgetTracker.FilterInner | src/components/modules/StudentBudgetTracker.tsx:75 | a filter that drops the first and last elements and keeps the middle ones returns the middle |
| BudgetTracker.CardShown | src/components/modules/StudentBudgetTracker.tsx:200-203 | a card is hidden exactly when nothing was spent in its category this month and the user is not a teacher while the category is teacher-only |
| BudgetTracker.CardVisibility | src/components/modules/StudentBudgetTracker.tsx:199-203 | a card is always shown to a teacher and for open categories; a teacher-only card is hidden from a student exactly when its month total is 0 |
| BudgetTracker.InvoiceRows | src/components/modules/StudentBudgetTracker.tsx:247 | the invoice rows are a permutation of the month's entries, newest first |
| BudgetTracker.RoundDiv | src/components/modules/StudentBudgetTracker.tsx:321 | the rounded quotient is within half a unit of the real quotient, halves rounding up |
| BudgetTracker.MonthCount | src/components/modules/StudentBudgetTracker.tsx:321 | the number of months is the size of the set of months of the entries, so at most the number of entries, and at least one when there are entries |
| BudgetTracker.AvgMonthly | src/components/modules/StudentBudgetTracker.tsx:321 | the average is the total divided by the month count (at least 1), rounded; it is 0 with no entries |
| BudgetTracker.Tracker.constructor | src/components/modules/StudentBudgetTracker.tsx:9-18 | the screen starts from the loaded list and the reset draft |
| BudgetTracker.Tracker.HandleSubmit | src/components/modules/StudentBudgetTracker.tsx:22-43 | exactly one entry is appended and the draft is reset |
| ResultViewer.TotalMarks | src/components/modules/StudentResultViewer.tsx:37 | for marks in 0..100 the total lies in 0..500, is at least each mark, and reaches 500 only with full marks |
| ResultViewer.Percentage | src/components/modules/StudentResultViewer.tsx:38-39 | the percentage is total/500·100, and lies in 0..100 for totals in range |
| ResultViewer.CalculateGrade | src/components/modules/StudentResultViewer.tsx:26-33 | each grade holds exactly on its band: A+ from 90, A from 80, B from 70, C from 60, D from 50, F below |
| ResultViewer.GradeMonotone | src/components/modules/StudentResultViewer.tsx:26-33 | a higher percentage never gets a lower grade |
| ResultViewer.GradeOfTotal | src/components/modules/StudentResultViewer.tsx:39-47 | on totals the grade bands are exactly at 450, 400, 350, 300 and 250 |
| ResultViewer.NewResult | src/components/modules/StudentResultViewer.tsx:35-48 | the stored result holds the draft's fields, the sum of the marks and the grade of its percentage |
| ResultViewer.BoardSize | src/components/modules/StudentResultViewer.tsx:62 | the board holds min(3, n) results |
| ResultViewer.TopThree | src/components/modules/StudentResultViewer.tsx:62-63 | the board takes the first min(3, n) sorted results, ranked 1, 2, 3 in position order |
| ResultViewer.Leaderboard | src/components/modules/StudentResultViewer.tsx:59-64 | the leaderboard has min(3, n) entries, ranked i+1 at position i, drawn from the results, with totals non-increasing |
| ResultViewer.HighestFirstOrder | src/components/modules/StudentResultViewer.tsx:61 | the sorted results are drawn from the input and have non-increasing totals |
| ResultViewer.BoardResults | src/components/modules/StudentResultViewer.tsx:63 | the board's results are its entries without their ranks, in order |
| ResultViewer.TopThreeIsFront | src/components/modules/StudentResultViewer.tsx:62 | the board's results are the front of the sorted list |
| ResultViewer.FrontOutscoresRest | src/components/modules/StudentResultViewer.tsx:61-62 | in the sorted list no result after a cut has a higher total than one before it |
| ResultViewer.LeaderboardIsTop | src/components/modules/StudentResultViewer.tsx:59-64 | the board and the results left off it together are all the results, and none left off has a higher total than any on the board |
| ResultViewer.GetStudentResult | src/components/modules/StudentResultViewer.tsx:66-68 | the lookup finds nothing exactly when no result has the roll, and otherwise the first stored result with that roll |
| ResultViewer.SearchedResult | src/components/modules/StudentResultViewer.tsx:70 | an empty search shows no result; any other search shows the lookup's result |
| ResultViewer.AddedResultIsFound | src/components/modules/StudentResultViewer.tsx:50-70 | after a result is appended, searching for its roll finds the earlier result with that roll if any, else the new one |
| ResultViewer.Viewer.constructor | src/components/modules/StudentResultViewer.tsx:9-23 | the screen starts from the loaded list, a blank draft and an empty search |
| ResultViewer.Viewer.HandleSubmit | src/components/modules/StudentResultViewer.tsx:35-57 | exactly one result is appended, the draft is reset and the search is unchanged |
| ResultViewer.Viewer.SearchOwnRoll | src/components/modules/StudentResultViewer.tsx:180 | the search becomes the user's roll, or "" without one |
| ResultViewer.Viewer.GetLeaderboard | src/components/modules/StudentResultViewer.tsx:59-64 | the stored array is stably sorted in place by descending total, as a permutation, and the board returned is the leaderboard of the old list |
| Voting.NewCandidate | src/components/modules/VotingSystem.tsx:23-28 | the stored candidate holds the fresh id and the draft's name and roll, with 0 votes |
| Voting.HasVoted | src/components/modules/VotingSystem.tsx:19 | a user without a roll number has not voted; one with a roll has voted exactly when some recorded vote carries that roll |
| Voting.MayVote | src/components/modules/VotingSystem.tsx:35 | the vote goes through exactly when the user has a non-empty roll that no recorded vote carries |
| Voting.NameOf | src/components/modules/VotingSystem.tsx:39 | the vote's name is that of the first candidate with the id, or "" when none has the id |
| Voting.NewVote | src/components/modules/VotingSystem.tsx:37-42 | the vote holds the fresh id, the candidate's name, the voter's roll and the time |
| Voting.Tallied | src/components/modules/VotingSystem.tsx:45-47 | the tally keeps the length, adds one to each candidate with the id, and leaves the others unchanged |
| Voting.VoteClosesBallot | src/components/modules/VotingSystem.tsx:19-44 | after an accepted vote the voter has voted and may not vote again |
| Voting.VotePreservesOneVotePerRoll | src/components/modules/VotingSystem.tsx:19-44 | if every roll had voted at most once, it still holds after an accepted vote |
| Voting.CountsFor | src/components/modules/VotingSystem.tsx:52 | a vote counts for a candidate only if some candidate with the vote's name has that id, and does count when every candidate with that name has it |
| Voting.GetVoteCount | src/components/modules/VotingSystem.tsx:50-54 | the count is at most the number of votes, and 0 exactly when no vote is credited to the candidate |
| Voting.DuplicateNameGetsNoVotes | src/components/modules/VotingSystem.tsx:50-54 | a candidate whose name repeats an earlier candidate's always gets 0 votes |
| Voting.SumOfSums | src/components/modules/VotingSystem.tsx:50-54 | summing a pointwise sum is adding the two sums |
| Voting.IndicatorSum | src/components/modules/VotingSystem.tsx:50-54 | over candidates with distinct ids, summing an indicator of one id gives 1 if some candidate has it, else 0 |
| Voting.OneVoteTally | src/components/modules/VotingSystem.tsx:50-54 | over candidates with distinct ids, one vote is counted once if its name matches a candidate, else not at all |
| Voting.TallySum | src/components/modules/VotingSystem.tsx:50-54 | over candidates with distinct ids, the counts add up to the number of votes whose name matches some candidate, which is at most the number of votes |
| Voting.SortedCandidates | src/components/modules/VotingSystem.tsx:56 | the ranking is a permutation of a copy of the candidates in non-increasing vote count |
| Voting.VotePercentage | src/components/modules/VotingSystem.tsx:186-188 | the share is 0 with no votes, else count/total·100, and within 0..100 when the count is at most the total |
| Voting.ShareInRange | src/components/modules/VotingSystem.tsx:185-188 | every candidate's displayed share lies in 0..100 |
| Voting.Ballot.constructor | src/components/modules/VotingSystem.tsx:9-16 | the screen starts from the loaded candidates and votes and an empty draft |
| Voting.Ballot.HandleAddCandidate | src/components/modules/VotingSystem.tsx:21-32 | exactly one candidate is appended and the draft is emptied |
| Voting.Ballot.HandleVote | src/components/modules/VotingSystem.tsx:34-48 | a user with a roll who has not voted appends one vote and tallies the candidate; otherwise nothing changes |
| Auth.LoginStep | src/context/AuthContext.tsx:34-43 | login makes the new user current, stores it under "currentUser", and keeps the other stored keys |
| Auth.LogoutStep | src/context/AuthContext.tsx:45-48 | logout leaves no current user and removes only "currentUser" from storage |
| Auth.MountStep | src/context/AuthContext.tsx:25-32 | mounting restores the stored user when "currentUser" is present, and no user otherwise |
| Auth.LoginThenLogout | src/context/AuthContext.tsx:34-48 | login then logout leaves no user and no stored session |
| Auth.LoginThenRemount | src/context/AuthContext.tsx:27-43 | a reload after login restores exactly the user who logged in |
| Auth.LoginOverwrites | src/context/AuthContext.tsx:41-42 | a second login replaces the first without a trace, so there is at most one session |
| Auth.LogoutIdempotent | src/context/AuthContext.tsx:45-48 | logging out twice is logging out once |
| Auth.AuthProvider.constructor | src/context/AuthContext.tsx:25 | the provider starts with no user over the browser's storage |
| Auth.AuthProvider.RestoreOnMount | src/context/AuthContext.tsx:27-32 | the mount effect moves the state to the mount step's result |
| Auth.AuthProvider.Login | src/context/AuthContext.tsx:34-43 | the state becomes the login step's result |
| Auth.AuthProvider.Logout | src/context/AuthContext.tsx:45-48 | the state becomes the logout step's result |
| Auth.UseAuth | src/context/AuthContext.tsx:12-18 | outside a provider the hook fails with its error message; inside one it returns the provider |
| Login.LoginArgs | src/components/Login.tsx:13-14 | login is called exactly when the name is non-empty and the role is teacher or the roll is non-empty; a teacher passes no roll, a student the typed one |
| Login.StudentLoginHasRoll | src/components/Login.tsx:13-14 | a student who passes the guard always carries a non-empty roll number |
| Login.HandleLogin | src/components/Login.tsx:11-16 | the session changes exactly when the guard passes, to a login with the selected arguments; otherwise nothing happens |

## Left out

- The JSX, the forms' show/hide flags, modals, icons, colours and layout are not modelled. The Dashboard, App, DarkMode and ThemeContext are not part of this model.
- `useLocalStorage` and JSON serialisation are not part of this model. A setter call is modelled as replacing the stored list wholesale.
- Ids from `Date.now().toString()`, clock readings, `new Date(s)`, the `YYYY-MM` month of a date and the answer of `confirm` are parameters. Calendar arithmetic, time zones and invalid dates (`NaN`) are not modelled.
- Each screen reads the clock once per render. The reminder views take one `now` for every card and row, where the source calls `new Date()` per call.
- Locale-dependent output (`toLocaleDateString`, `toLocaleTimeString`, `toLocaleString`, `toFixed(2)`) is not modelled.
- The dictionary's display order (`localeCompare`, MiniDictionary.tsx:148) is not modelled, because locale collation is outside the model. The search result is modelled in stored order.
- Amounts and marks are integers, and percentages are exact reals, so JavaScript's floating-point rounding is not modelled.
- Text.ToLower: only lower-cases the ASCII letters A–Z, because Unicode case mapping is out of scope. Text.Trim strips exactly the ECMAScript WhiteSpace and LineTerminator code points of current Unicode (every Zs space separator, TAB, VT, FF, U+FEFF, LF, CR, U+2028 and U+2029).
- HTML form validation (`required`, number inputs, `min`/`max` on marks) is not modelled. Any string or integer is accepted, as the handlers do.
- Text suffixes of labels ("days left", "students assigned") are not modelled; the labels are datatypes.
- Student.contactInfo, an optional field of the record type that no screen sets, is not modelled.
- The seat planner's rows and cols draft fields are modelled but stay fixed at 5 × 6, as in the source.
- The result viewer's search box typing (`setSearchRoll(e.target.value)`) is not modelled beyond the search string field.
- The vote screen's winner badge and the vote history table are not modelled.

## Findings

| source | as written | input that shows it | evidently intended | confidence | as-written member | corrected member |
|---|---|---|---|---|---|---|
| src/components/modules/SubjectReminderClock.tsx:42-47 | the day count rounds up, so an upcoming exam is at least 1 day away; the labels test for 0 as "Today" and 1 as "Tomorrow" | an exam 2 hours after now: the count is 1 and the label reads "Tomorrow"; no upcoming exam ever reads "Today" | "Today" for an exam less than a day away, "Tomorrow" for one between one and two days away, otherwise the number of whole days left | medium, not executed | ReminderClock.ExamLaterTodaySaysTomorrow | ReminderClock.CorrectedLabel |
