# Pet health tracker — a Dafny model of its record rules

The pet health tracker keeps four flat collections: pets, vaccinations,
medications and vet appointments. The last three point at their pet through
`petId`. Around these collections sit a few pure rules, and this project
models them:

- **Classifiers.** A record plus "now" is tagged active, upcoming,
  completed, overdue or due-soon.
- **Display sorters and filters.** There are three display sorters, a
  per-pet filter and an "upcoming items" filter.
- **Cascade delete and restore.** A pet is deleted together with every
  record it owns, and the snapshot can be restored.
- **Lookups.** Statuses map to badges and labels, together with small
  string helpers.
- **Dashboard handlers.** The dashboard's selection rule and its add,
  update and delete handlers.
- **Overview.** The overview's summary counts and its "upcoming" lists.
- **Forms.** The two pet forms' validation and record construction.
- **Search.** The pet list's case-insensitive name search.

Dates are integer instants in milliseconds, with the local time-zone offset
already folded in. `Dates.DayOf(t) = t / DAY` is the calendar day. The
date-fns predicates become:

- `isPast` is `t < now`;
- `isFuture` is `t > now`;
- `isToday` is "same `DayOf`".

"Now", the fresh id a form would generate, and the numeric parsing of the
weight field are parameters. The pet form's error object is a record with
one optional message for each of the six fields `validateForm` can set, and
`Object.keys(errors).length` is the number of messages present
(`PetForm.ErrorCount`).

Modules follow the source files:

- `Dates`, `Text`, `Seqs`, `Wrappers` and `StableSort` are the support code.
- `Types` covers `lib/types.ts` and the status constants.
- `DateUtils`, `PetUtils` and `UiUtils` cover the three utility files.
- `PetDashboard`, `PetOverview`, `PetForm`, `AddPetForm` and `PetsList`
  cover the components.

**Sorting.** Each comparator is written as in the source. A lemma proves
that the comparator's sign is the sign of a lexicographic two-part key, and
therefore that it is a consistent comparator. `Array.prototype.sort` is
stable, so the sorted result is the stable sort by that key, which
`StableSort.SortByKey` computes.

**Boundaries the code draws:**

- **The seven-day "due soon" window is strict at the millisecond.** The code
  tests `isPast(addDays(dueDate, -7))`. A vaccination due exactly `7 * DAY`
  after now is therefore "upcoming", and one due a millisecond earlier is
  "due soon" (`DateUtils.VaccinationWindowBoundary`). With due dates at
  midnight, a vaccination due on the seventh day after today is "due soon"
  once today's midnight has passed
  (`DateUtils.VaccinationDueSevenDaysOutIsDueSoon`).
- **Appointments earlier today.** `sortAppointments` groups by `isFuture`. An
  appointment earlier today therefore sorts among the past ones, although
  `getAppointmentStatus` calls it upcoming
  (`DateUtils.EarlierTodayIsUpcomingButSortedAsPast`).

## Model

| member | source | states |
|---|---|---|
| Types.ParseStatusText | lib/constants.ts:42-48 | the five status strings are distinct: each reads back as the status it came from |
| Dates.PastNotTodayIsEarlierDay | lib/utils/date-utils.ts:36 | "past and not today" is exactly "on an earlier calendar day" |
| Dates.AddDays | lib/utils/date-utils.ts:38 | adding n days moves the calendar day by exactly n and keeps the time of day |
| DateUtils.VaccinationStatus | lib/utils/date-utils.ts:31-43 | administered gives completed; otherwise overdue iff due on an earlier day; due-soon iff due today or later and either today or less than 7×DAY after now; every other unadministered one is upcoming; never active |
| DateUtils.VaccinationWindowBoundary | lib/utils/date-utils.ts:38 | due exactly 7×DAY after now is upcoming, 1 ms earlier is due-soon, on the eighth day after today is upcoming |
| DateUtils.VaccinationDueSevenDaysOutIsDueSoon | lib/utils/date-utils.ts:38 | a midnight due date on the seventh day after today is due-soon once today's midnight has passed |
| DateUtils.MedicationStatus | lib/utils/date-utils.ts:48-59 | completed iff the end day is before today; upcoming iff not ended and the start day is after today; active iff the start day is before or on today and the end day is not before it |
| DateUtils.MedicationDayBoundaries | lib/utils/date-utils.ts:52-58 | start = end = today is active; ended yesterday is completed; starting tomorrow is upcoming |
| DateUtils.AppointmentStatus | lib/utils/date-utils.ts:64-72 | upcoming iff the appointment's day is today or later, completed iff it is earlier |
| DateUtils.VaccinationComparatorAgreesWithKey | lib/utils/date-utils.ts:78-85 | the comparator's sign is that of the key (administered?, dueDate) |
| DateUtils.VaccinationComparatorIsConsistent | lib/utils/date-utils.ts:78-85 | the comparator is irreflexive, antisymmetric and transitive, and its ties are transitive |
| DateUtils.MedicationComparatorAgreesWithKey | lib/utils/date-utils.ts:92-104 | the four status tests amount to comparing ranks active < upcoming < completed, then start dates |
| DateUtils.MedicationComparatorIsConsistent | lib/utils/date-utils.ts:92-104 | the medication comparator is a consistent comparator |
| DateUtils.AppointmentComparatorAgreesWithKey | lib/utils/date-utils.ts:111-125 | the comparator's sign is that of the key (not future, ±date) |
| DateUtils.AppointmentComparatorIsConsistent | lib/utils/date-utils.ts:111-125 | the appointment comparator is a consistent comparator |
| DateUtils.SortVaccinations | lib/utils/date-utils.ts:77-86 | a permutation; unadministered before administered; ascending due date within each group |
| DateUtils.SortMedications | lib/utils/date-utils.ts:91-105 | a permutation; ordered by status rank; ascending start date within a status |
| DateUtils.SortAppointments | lib/utils/date-utils.ts:110-126 | a permutation; strictly future ones first in ascending order; the rest in descending order |
| DateUtils.SortVaccinationsIsStable | lib/utils/date-utils.ts:78 | records with equal keys keep their input order |
| DateUtils.SortMedicationsIsStable | lib/utils/date-utils.ts:92 | records with equal keys keep their input order |
| DateUtils.SortAppointmentsIsStable | lib/utils/date-utils.ts:111 | records with equal keys keep their input order |
| DateUtils.EarlierTodayIsUpcomingButSortedAsPast | lib/utils/date-utils.ts:116 | an appointment earlier today has status upcoming but sorts in the past group |
| DateUtils.FilterByPet | lib/utils/date-utils.ts:131-134 | nothing for a null or empty id; otherwise an order-preserving subsequence in which each record occurs as often as in the input if that pet owns it, and not at all otherwise |
| DateUtils.GetUpcomingItems | lib/utils/date-utils.ts:139-146 | an order-preserving prefix of the pending records, of length min(limit, number pending); when shorter than `limit`, each pending record occurs as often as in the input and nothing else occurs |
| StableSort.SortByKey | lib/utils/date-utils.ts:78 | the result is sorted by key and is a permutation of the input |
| StableSort.SortIsStable | lib/utils/date-utils.ts:78 | within every key class the sorted output keeps the input order |
| StableSort.AgreeingComparatorIsConsistent | lib/utils/date-utils.ts:92-104 | a comparator whose sign follows a key is consistent |
| PetUtils.DeletePet | lib/utils/pet-utils.ts:11-52 | fails iff no pet has the id, with the message "Pet with ID <id> not found"; the snapshot pet is the first with the id; the kept pets are a subsequence holding exactly the pets without the id; each record collection is split by owner into kept and snapshot parts: both are subsequences, both are exact by membership, and together they are the original as a multiset |
| PetUtils.Cascade | lib/utils/pet-utils.ts:29-51 | the snapshot holds the given pet; the kept pets are a subsequence in which every other pet occurs as often as before and none with the id occurs; each record collection is split by owner into kept and snapshot parts |
| PetUtils.RestorePet | lib/utils/pet-utils.ts:68-71 | the current collections are prefixes of the result, and what follows each is exactly the snapshot's pet or the snapshot's records, in order |
| PetUtils.DeleteLeavesOtherPetsUntouched | lib/utils/pet-utils.ts:40-43 | every other pet's pets and records are exactly as before, in the same order |
| PetUtils.RestoreUndoesDelete | lib/utils/pet-utils.ts:24-71 | with unique ids, restoring the snapshot onto the updated collections gives the originals as multisets |
| PetUtils.DuplicateIdsBreakRoundTrip | lib/utils/pet-utils.ts:24-40 | with two pets sharing the id, the restored pet list is shorter than the original |
| PetUtils.RestoreTwiceDuplicates | lib/utils/pet-utils.ts:68-71 | restoring twice appends the pet twice and the snapshot's records twice, in order, after the current collections |
| PetUtils.SoleOwnerRoundTripIsExact | lib/utils/pet-utils.ts:24-71 | for a sole pet owning every record, delete empties everything and restore rebuilds it exactly |
| UiUtils.GetBadgeVariant | lib/utils/ui-utils.ts:15-30 | each variant exactly for its status string; outline for "completed" and for every other string |
| UiUtils.GetStatusLabel | lib/utils/ui-utils.ts:35-50 | for an unknown string, its first character upper-cased and the rest unchanged; "" maps to "" |
| UiUtils.StatusLabelsCapitalize | lib/utils/ui-utils.ts:36-46 | the five labels are the capitalised status strings, except "Due Soon" |
| UiUtils.StatusLabelsDistinct | lib/utils/ui-utils.ts:36-46 | different statuses get different labels |
| UiUtils.GetPetTypeLabel | lib/utils/ui-utils.ts:55-57 | same length; the character at the first index of "_" becomes a space; every other character is lower-cased |
| UiUtils.PetTypeLabelsMatchDisplayNames | lib/utils/ui-utils.ts:55-57 | every pet-type code labels as its display name in lower case ("small mammal") |
| UiUtils.PetTypeLabelReplacesOnlyFirstUnderscore | lib/utils/ui-utils.ts:56 | "A_B_C" labels as "a b_c" |
| UiUtils.GetAvatarFallback | lib/utils/ui-utils.ts:62-64 | length min(2, \|name\|), each character the upper-cased name character |
| UiUtils.AvatarFallbackIsFixedPoint | lib/utils/ui-utils.ts:62-64 | a fallback is its own fallback |
| Text.TrimEmptyIffBlank | components/pet-form.tsx:58 | a string trims to "" exactly when it is all JavaScript white space |
| Text.ContainsPrefix | components/pets-list.tsx:21 | a string that includes a query includes every prefix of that query |
| Text.LowerOfUpper | components/pets-list.tsx:21 | lower-casing erases an earlier upper-casing |
| PetDashboard.SelectDefault | components/pet-dashboard.tsx:53-58 | no pets clears the selection; no selection picks the first pet; otherwise the selection is unchanged |
| PetDashboard.SelectDefaultSettles | components/pet-dashboard.tsx:53-58 | running the effect again changes nothing |
| PetDashboard.SelectedPet | components/pet-dashboard.tsx:60 | the first pet with the selected id; none exactly when the id is null, empty or unknown |
| PetDashboard.StaleSelectionSelectsNothing | components/pet-dashboard.tsx:55-60 | a selection naming no pet survives the effect and selects nothing |
| PetDashboard.AddPet | components/pet-dashboard.tsx:71-75 | the pet is appended and its id selected; the records are unchanged |
| PetDashboard.AddedPetIsSelected | components/pet-dashboard.tsx:71-75 | a pet with a fresh non-empty id becomes the selected pet |
| PetDashboard.UpdatePet | components/pet-dashboard.tsx:77-80 | same length and ids; pets with the id are replaced; the others and the records are unchanged |
| PetDashboard.UpdatePetIdempotent | components/pet-dashboard.tsx:77-80 | updating twice is updating once |
| PetDashboard.ReplacedPetIsSelected | components/pet-dashboard.tsx:77-80 | selecting by the id of a replacing pet finds the replacing pet |
| PetDashboard.UpdatedSelectedPetIsShown | components/pet-dashboard.tsx:77-80 | after editing the selected pet, the selected pet is the edited one |
| PetDashboard.DeleteSelectedPet | components/pet-dashboard.tsx:82-95 | a no-op without a selection; otherwise the kept pets are a subsequence in which every pet without the selected id occurs as often as before and none with it occurs, the records are split by owner, and the first remaining pet or none is selected |
| PetDashboard.DeleteSelectedAgreesWithCascade | components/pet-dashboard.tsx:86-89 | the inline delete leaves the same collections as `deletePet` of the utilities |
| PetDashboard.AddVaccination | components/pet-dashboard.tsx:97-99 | appends the record; nothing else changes |
| PetDashboard.AddMedication | components/pet-dashboard.tsx:101-103 | appends the record; nothing else changes |
| PetDashboard.AddAppointment | components/pet-dashboard.tsx:105-107 | appends the record; nothing else changes |
| PetDashboard.DeleteVaccination | components/pet-dashboard.tsx:109-111 | removes exactly the records with the id, in order: every other record occurs as often as before; nothing else changes |
| PetDashboard.DeleteMedication | components/pet-dashboard.tsx:113-115 | removes exactly the records with the id, in order: every other record occurs as often as before; nothing else changes |
| PetDashboard.DeleteAppointment | components/pet-dashboard.tsx:117-119 | removes exactly the records with the id, in order: every other record occurs as often as before; nothing else changes |
| PetDashboard.RemoveAfterAppendRestores | components/pet-dashboard.tsx:97-119 | removing a just-appended record with a fresh id gives back the collection |
| PetDashboard.DeleteUndoesAdd | components/pet-dashboard.tsx:97-119 | deleting a just-added record with a fresh id undoes the add, for all three kinds |
| PetOverview.ContainsOverdueIffOverdue | components/pet-overview.tsx:92 | only the text "overdue" includes "overdue" |
| PetOverview.UpToDateCharacterisation | components/pet-overview.tsx:91-93 | "up to date" means due in the past and either administered or due earlier today |
| PetOverview.UpToDateExcludesOverdue | components/pet-overview.tsx:91-100 | no vaccination is both up to date and overdue |
| PetOverview.MedicationStatusIsOneOfThree | components/pet-overview.tsx:119-125 | a medication that is not completed is active or upcoming |
| PetOverview.HistoryAgreesWithAppointmentStatus | components/pet-overview.tsx:144-150 | the history's "Upcoming" test is exactly status upcoming, and "Past" is its negation |
| PetOverview.Summarize | components/pet-overview.tsx:91-155 | the totals are the lengths; overdue counts the unadministered vaccinations due on an earlier day; up to date counts those due in the past and administered or due earlier today; active counts the medications whose start and end days enclose today, completed those that ended on an earlier day, and the rest are the upcoming ones; upcoming + past = total; upcoming counts status-upcoming appointments |
| PetOverview.VaccinationCountsBounded | components/pet-overview.tsx:91-100 | up to date + overdue never exceeds the number of vaccinations |
| PetOverview.MedicationCountsBounded | components/pet-overview.tsx:119-125 | active + completed + upcoming is the number of medications |
| PetOverview.AppointmentCountsPartition | components/pet-overview.tsx:144-150 | the two history counts partition the appointments, and "Upcoming" selects exactly the status-upcoming ones |
| PetOverview.ListUpcoming | components/pet-overview.tsx:19-25 | each list is the first three (or fewer) records, in input order, of: unadministered vaccinations due today or later; medications not ended before today; appointments on a later day than today |
| PetOverview.VaccinationCountsByDays | components/pet-overview.tsx:88-100 | the two vaccination counts filter by calendar days: overdue is unadministered and due on an earlier day; up to date is due in the past and administered or due today |
| PetOverview.MedicationCountsByDays | components/pet-overview.tsx:119-125 | the active and completed counts filter by calendar days: start day to end day enclosing today, end day before today |
| PetOverview.UpcomingVaccinations | components/pet-overview.tsx:19 | the first three unadministered vaccinations due today or later, in input order |
| PetOverview.UpcomingMedications | components/pet-overview.tsx:20 | the first three medications whose end day is not before today, in input order |
| PetOverview.UpcomingAppointments | components/pet-overview.tsx:21-25 | the first three appointments on a later day than today, in input order |
| Seqs.FilterCounts | lib/utils/date-utils.ts:133 | filtering keeps every occurrence of a record that passes and none of one that fails |
| PetOverview.TodaysAppointmentIsCountedButNotListed | components/pet-overview.tsx:21-25 | an appointment today is counted upcoming and has status upcoming, yet is left out of the list |
| PetOverview.SexLabel | components/pet-overview.tsx:48 | the first character kept and the rest lower-cased |
| PetOverview.SexLabelsReadAsWords | components/pet-overview.tsx:48 | "MALE", "FEMALE" and "UNKNOWN" read "Male", "Female", "Unknown" |
| PetForm.ValidateForm | components/pet-form.tsx:55-86 | one error per failing field, with its message: a blank name, no type, no sex, no or a future birth date, a non-numeric non-empty weight, a picture not starting with "http" or "/" |
| PetForm.ErrorCount | components/pet-form.tsx:85 | at most six, and zero exactly when no field carries a message |
| PetForm.ErrorCountIsKeyCount | components/pet-form.tsx:85 | the count is the number of fields present in the error object, the multiplicity of `true` among the six presence flags |
| PetForm.NameMissingIffBlank | components/pet-form.tsx:58 | `!name.trim()` holds exactly for all-white-space names |
| PetForm.ValidIffNoErrors | components/pet-form.tsx:55-86 | no field carries a message exactly when every field condition holds |
| PetForm.SubmitPetForm | components/pet-form.tsx:88-107 | nothing iff the form is invalid; else the id and creation time of the edited pet, or fresh ones; breed "Mixed" and the placeholder picture exactly when those inputs are empty, weight 0 when empty, no notes exactly when the notes are empty; the pet meets the form's rules |
| PetForm.FormFromPet | components/pet-form.tsx:42-53 | the inputs are the pet's fields, absent notes shown as "" |
| PetForm.EditWithoutChangesRoundTrips | components/pet-form.tsx:96-107 | opening a conforming pet for editing and submitting unchanged gives back the same pet |
| PetForm.BlankNameIsRejected | components/pet-form.tsx:58-60 | a name of one space is an error and nothing is submitted |
| AddPetForm.SubmitAddPetForm | components/add-pet-form.tsx:34-49 | nothing iff name, type or sex is empty; else a fresh pet with breed "Mixed" and the placeholder picture exactly when those inputs are empty, weight 0 when empty, born now if no date, notes kept as typed |
| AddPetForm.PetFormAcceptanceImpliesAddPetFormAcceptance | components/add-pet-form.tsx:36 | every form the pet form accepts, this form accepts |
| AddPetForm.FormsAgreeExceptOnEmptyNotes | components/add-pet-form.tsx:47 | both forms build the same pet except that empty notes stay "" here |
| AddPetForm.AddPetFormIsMoreLenient | components/add-pet-form.tsx:36 | a blank name, a future birth date and a non-numeric weight pass here but give three errors in the pet form |
| PetsList.FilterPets | components/pets-list.tsx:21 | an order-preserving subsequence in which each pet whose lower-cased name includes the lower-cased query occurs as often as in the input, and no other pet occurs |
| PetsList.EmptyQueryShowsAll | components/pets-list.tsx:21 | the empty query shows every pet in order |
| PetsList.SearchIgnoresCase | components/pets-list.tsx:21 | a query, its upper-cased form and its lower-cased form show the same pets |
| PetsList.LongerQueryNarrows | components/pets-list.tsx:21 | extending a query only removes pets from the list |

## Left out

- Storage. The reads and writes in `restorePet`, and its catch and rethrow, are left out. The current collections are a parameter and the result is returned.
- `useLocalStorage` persistence is left out.
- `calculateAge` is left out. It is a thin wrapper over date-fns differences, and the age shown in the overview is not modelled.
- Date formatting is left out: the overview's date display and its weight text ("… kg" or "Not recorded").
- Time zones, daylight-saving days and the date-fns internals are left out. Instants have the local offset folded in, so every day is `DAY` long.
- `generateSampleData` and the dashboard's `loadSampleData` handler are left out. They load fixed fixture data through `generateSampleData`, which has no rules of its own.
- `generateId` is not part of this model. The fresh id is a parameter.
- React scheduling is left out. The default-selection effect is modelled as one run on the state it sees; `PetDashboard.SelectDefaultSettles` shows that a second run changes nothing.
- Dialog flags, toasts, the form's success flag and its two-second reset are left out.
- `cn` is left out.
- The duplicated pet construction and search in the app pages are left out.
- PetForm.SubmitPetForm: `Number(weight)`'s NaN test and `parseFloat` are parameters (`isNumeric`, `parseWeight`), because floating-point parsing is out of scope. The same holds for the weight shown by `FormFromPet`.
- AddPetForm.SubmitAddPetForm: `parseFloat` is the parameter `parseWeight`, for the same reason.
- Text.Lower: maps only ASCII letters. JavaScript's `toLowerCase` also maps non-ASCII letters, some of them by context (a final capital sigma becomes "ς", not "σ"). On such names the model can differ in either direction, usually hiding pets that JavaScript shows. This affects `UiUtils.GetPetTypeLabel`, `PetOverview.SexLabel` and `PetsList.FilterPets`.
- Text.Upper: maps only ASCII letters, unlike `toUpperCase`. This affects `UiUtils.GetAvatarFallback` and `UiUtils.GetStatusLabel` on non-ASCII input.
- UiUtils.GetAvatarFallback: `substring(0, 2)` is taken over UTF-16 code units in JavaScript. The model counts characters.
- DateUtils.GetUpcomingItems: `limit` is a natural number. A negative `limit` is never passed, and JavaScript's `slice` would count it from the end.
- PetForm.FormState: a picked type or sex is a value of the closed type. The form's `as PetType` casts on other strings are not modelled.
- Type and sex codes are the datatypes `Types.PetType` and `Types.Sex`. Their strings are given by `Types.PetTypeCode` and `Types.SexCode`.
