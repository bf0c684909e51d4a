/** The status classifiers and display sorters of `lib/utils/date-utils.ts`,
    with "now" passed in. Each classifier is stated by the calendar-day rule
    it implements; each sorter by the order and permutation it produces. */
module DateUtils {
  import opened Wrappers
  import opened Seqs
  import opened Dates
  import opened Types
  import opened StableSort

  /** Days before its due date from which an unadministered vaccination is "due soon". */
  const DUE_SOON_DAYS: int := 7

  /** The default `limit` of `getUpcomingItems`. */
  const DEFAULT_UPCOMING_LIMIT: nat := 3

  /** `getVaccinationStatus`. */
  function VaccinationStatus(v: Vaccination, now: Instant): (st: Status)
    ensures v.administeredDate.Some? ==> st == Completed
    ensures v.administeredDate.None? ==> (st == Overdue <==> DayOf(v.dueDate) < DayOf(now))
    ensures v.administeredDate.None? ==>
              (st == DueSoon <==> DayOf(v.dueDate) >= DayOf(now) &&
                                  (DayOf(v.dueDate) == DayOf(now) || v.dueDate - DUE_SOON_DAYS * DAY < now))
    ensures v.administeredDate.None? && st != Overdue && st != DueSoon ==> st == Upcoming
    ensures st != Active
  {
    PastNotTodayIsEarlierDay(v.dueDate, now);
    if v.administeredDate.Some? then Completed
    else if IsPast(v.dueDate, now) && !IsToday(v.dueDate, now) then Overdue
    else if IsToday(v.dueDate, now) || IsPast(AddDays(v.dueDate, -DUE_SOON_DAYS), now) then DueSoon
    else Upcoming
  }

  /** `getMedicationStatus`: completed once the end day is over, upcoming
      before the start day, active from the start day to the end day. */
  function MedicationStatus(m: Medication, now: Instant): (st: Status)
    ensures st == Completed <==> DayOf(m.endDate) < DayOf(now)
    ensures st == Upcoming <==> DayOf(m.endDate) >= DayOf(now) && DayOf(m.startDate) > DayOf(now)
    ensures st == Active <==> DayOf(m.endDate) >= DayOf(now) && DayOf(m.startDate) <= DayOf(now)
  {
    PastNotTodayIsEarlierDay(m.endDate, now);
    NotPastNotTodayIsLaterDay(m.startDate, now);
    if IsPast(m.endDate, now) && !IsToday(m.endDate, now) then Completed
    else if !IsPast(m.startDate, now) && !IsToday(m.startDate, now) then Upcoming
    else Active
  }

  /** `getAppointmentStatus`: upcoming from today's calendar day on. */
  function AppointmentStatus(a: Appointment, now: Instant): (st: Status)
    ensures st == Upcoming <==> DayOf(a.date) >= DayOf(now)
    ensures st == Completed <==> DayOf(a.date) < DayOf(now)
  {
    FutureOrTodayIsNotEarlierDay(a.date, now);
    if IsFuture(a.date, now) || IsToday(a.date, now) then Upcoming else Completed
  }

  /** The 7-day window is measured in instants: a vaccination due exactly
      seven days after now is still "upcoming", one due a millisecond earlier
      is "due soon", and one due on the eighth day after today is "upcoming". */
  lemma VaccinationWindowBoundary(v: Vaccination, now: Instant)
    requires v.administeredDate.None?
    ensures v.dueDate == now + 7 * DAY ==> VaccinationStatus(v, now) == Upcoming
    ensures v.dueDate == now + 7 * DAY - 1 ==> VaccinationStatus(v, now) == DueSoon
    ensures DayOf(v.dueDate) >= DayOf(now) + 8 ==> VaccinationStatus(v, now) == Upcoming
  {
    if v.dueDate == now + 7 * DAY || v.dueDate == now + 7 * DAY - 1 {
      DayOfMonotone(now, v.dueDate);
      assert AddDays(now, 7) == now + 7 * DAY;
    }
    if DayOf(v.dueDate) >= DayOf(now) + 8 {
      var start := AddDays(v.dueDate, -7);
      assert DayOf(start) > DayOf(now);
      NotPastNotTodayIsLaterDay(start, now);
    }
  }

  /** Calendar reading of the window: with due dates at local midnight (as the
      date picker stores them), a vaccination due on the seventh day after
      today is "due soon" at any moment after today's midnight. */
  lemma VaccinationDueSevenDaysOutIsDueSoon(v: Vaccination, now: Instant)
    requires v.administeredDate.None?
    requires v.dueDate == StartOfDay(v.dueDate) && DayOf(v.dueDate) == DayOf(now) + 7
    requires now != StartOfDay(now)
    ensures VaccinationStatus(v, now) == DueSoon
  {
    assert v.dueDate - 7 * DAY == StartOfDay(now);
  }

  /** A medication that starts and ends today is active; one that ended
      yesterday is completed; one that starts tomorrow is upcoming. */
  lemma MedicationDayBoundaries(m: Medication, now: Instant)
    ensures DayOf(m.startDate) == DayOf(now) == DayOf(m.endDate) ==> MedicationStatus(m, now) == Active
    ensures DayOf(m.endDate) == DayOf(now) - 1 ==> MedicationStatus(m, now) == Completed
    ensures DayOf(m.startDate) == DayOf(now) + 1 && DayOf(m.endDate) >= DayOf(now) ==>
              MedicationStatus(m, now) == Upcoming
  {
  }

  // ----- comparators -----

  /** The `sortVaccinations` comparator. */
  function CompareVaccinations(a: Vaccination, b: Vaccination): int {
    if a.administeredDate.Some? && b.administeredDate.None? then 1
    else if a.administeredDate.None? && b.administeredDate.Some? then -1
    else a.dueDate - b.dueDate
  }

  /** Unadministered before administered, then by due date. */
  function VaccinationKey(v: Vaccination): Key {
    Key(if v.administeredDate.Some? then 1 else 0, v.dueDate)
  }

  /** The vaccination comparator orders exactly as its key does. */
  lemma VaccinationComparatorAgreesWithKey()
    ensures AgreesWithKey(CompareVaccinations, VaccinationKey)
  {
  }

  /** The vaccination comparator is a consistent comparator. */
  lemma VaccinationComparatorIsConsistent()
    ensures ConsistentComparator(CompareVaccinations)
  {
    VaccinationComparatorAgreesWithKey();
    AgreeingComparatorIsConsistent(CompareVaccinations, VaccinationKey);
  }

  /** Position of a medication status in the display order. */
  function MedicationRank(st: Status): int {
    match st
    case Active => 0
    case Upcoming => 1
    case _ => 2
  }

  /** The `sortMedications` comparator. */
  function CompareMedications(a: Medication, b: Medication, now: Instant): int {
    var sa := MedicationStatus(a, now);
    var sb := MedicationStatus(b, now);
    if sa == Active && sb != Active then -1
    else if sa != Active && sb == Active then 1
    else if sa == Upcoming && sb == Completed then -1
    else if sa == Completed && sb == Upcoming then 1
    else a.startDate - b.startDate
  }

  function MedicationComparator(now: Instant): (Medication, Medication) -> int {
    (a, b) => CompareMedications(a, b, now)
  }

  /** Active, then upcoming, then completed; then by start date. */
  function MedicationKey(now: Instant): Medication -> Key {
    (m: Medication) => Key(MedicationRank(MedicationStatus(m, now)), m.startDate)
  }

  /** The four status tests of the medication comparator amount to comparing
      ranks, so the comparator orders exactly as its key does. */
  lemma MedicationComparatorAgreesWithKey(now: Instant)
    ensures AgreesWithKey(MedicationComparator(now), MedicationKey(now))
  {
    forall a: Medication, b: Medication
      ensures (MedicationComparator(now)(a, b) < 0 <==> KeyLt(MedicationKey(now)(a), MedicationKey(now)(b)))
      ensures (MedicationComparator(now)(a, b) > 0 <==> KeyLt(MedicationKey(now)(b), MedicationKey(now)(a)))
    {
      var sa, sb := MedicationStatus(a, now), MedicationStatus(b, now);
      assert sa == Active || sa == Upcoming || sa == Completed;
      assert sb == Active || sb == Upcoming || sb == Completed;
    }
  }

  /** The medication comparator is a consistent comparator. */
  lemma MedicationComparatorIsConsistent(now: Instant)
    ensures ConsistentComparator(MedicationComparator(now))
  {
    MedicationComparatorAgreesWithKey(now);
    AgreeingComparatorIsConsistent(MedicationComparator(now), MedicationKey(now));
  }

  /** The `sortAppointments` comparator. */
  function CompareAppointments(a: Appointment, b: Appointment, now: Instant): int {
    var fa := IsFuture(a.date, now);
    var fb := IsFuture(b.date, now);
    if fa && !fb then -1
    else if !fa && fb then 1
    else if fa && fb then a.date - b.date
    else b.date - a.date
  }

  function AppointmentComparator(now: Instant): (Appointment, Appointment) -> int {
    (a, b) => CompareAppointments(a, b, now)
  }

  /** Strictly future appointments first, soonest first; then the others,
      latest first. */
  function AppointmentKey(now: Instant): Appointment -> Key {
    (a: Appointment) => if IsFuture(a.date, now) then Key(0, a.date) else Key(1, -a.date)
  }

  /** The appointment comparator orders exactly as its key does. */
  lemma AppointmentComparatorAgreesWithKey(now: Instant)
    ensures AgreesWithKey(AppointmentComparator(now), AppointmentKey(now))
  {
  }

  /** The appointment comparator is a consistent comparator. */
  lemma AppointmentComparatorIsConsistent(now: Instant)
    ensures ConsistentComparator(AppointmentComparator(now))
  {
    AppointmentComparatorAgreesWithKey(now);
    AgreeingComparatorIsConsistent(AppointmentComparator(now), AppointmentKey(now));
  }

  // ----- sorters -----

  /** `sortVaccinations`: a reordered copy, unadministered records first,
      each group by ascending due date. */
  function SortVaccinations(vs: seq<Vaccination>): (r: seq<Vaccination>)
    ensures multiset(r) == multiset(vs)
    ensures forall i, j :: 0 <= i < j < |r| && r[i].administeredDate.Some? ==> r[j].administeredDate.Some?
    ensures forall i, j :: 0 <= i < j < |r| && r[i].administeredDate.Some? == r[j].administeredDate.Some? ==>
              r[i].dueDate <= r[j].dueDate
  {
    var r := SortByKey(vs, VaccinationKey);
    assert forall i, j :: 0 <= i < j < |r| ==> KeyLe(VaccinationKey(r[i]), VaccinationKey(r[j]));
    r
  }

  /** `sortMedications`: a reordered copy, active before upcoming before
      completed, each group by ascending start date. */
  function SortMedications(ms: seq<Medication>, now: Instant): (r: seq<Medication>)
    ensures multiset(r) == multiset(ms)
    ensures forall i, j :: 0 <= i < j < |r| ==>
              MedicationRank(MedicationStatus(r[i], now)) <= MedicationRank(MedicationStatus(r[j], now))
    ensures forall i, j :: 0 <= i < j < |r| && MedicationStatus(r[i], now) == MedicationStatus(r[j], now) ==>
              r[i].startDate <= r[j].startDate
  {
    var key := MedicationKey(now);
    var r := SortByKey(ms, key);
    assert forall i, j :: 0 <= i < j < |r| ==> KeyLe(key(r[i]), key(r[j]));
    r
  }

  /** `sortAppointments`: a reordered copy, strictly future appointments
      first in ascending date order, then all others (today's earlier ones
      included) in descending date order. */
  function SortAppointments(apps: seq<Appointment>, now: Instant): (r: seq<Appointment>)
    ensures multiset(r) == multiset(apps)
    ensures forall i, j :: 0 <= i < j < |r| && IsFuture(r[j].date, now) ==> IsFuture(r[i].date, now)
    ensures forall i, j :: 0 <= i < j < |r| && IsFuture(r[i].date, now) && IsFuture(r[j].date, now) ==>
              r[i].date <= r[j].date
    ensures forall i, j :: 0 <= i < j < |r| && !IsFuture(r[i].date, now) && !IsFuture(r[j].date, now) ==>
              r[i].date >= r[j].date
  {
    var key := AppointmentKey(now);
    var r := SortByKey(apps, key);
    assert forall i, j :: 0 <= i < j < |r| ==> KeyLe(key(r[i]), key(r[j]));
    r
  }

  /** Records that tie under the vaccination comparator keep their input order. */
  lemma SortVaccinationsIsStable(vs: seq<Vaccination>, k: Key)
    ensures Filter(SortVaccinations(vs), HasKey(VaccinationKey, k)) == Filter(vs, HasKey(VaccinationKey, k))
  {
    SortIsStable(vs, VaccinationKey, k);
  }

  /** Records that tie under the medication comparator keep their input order. */
  lemma SortMedicationsIsStable(ms: seq<Medication>, now: Instant, k: Key)
    ensures Filter(SortMedications(ms, now), HasKey(MedicationKey(now), k)) ==
            Filter(ms, HasKey(MedicationKey(now), k))
  {
    SortIsStable(ms, MedicationKey(now), k);
  }

  /** Records that tie under the appointment comparator keep their input order. */
  lemma SortAppointmentsIsStable(apps: seq<Appointment>, now: Instant, k: Key)
    ensures Filter(SortAppointments(apps, now), HasKey(AppointmentKey(now), k)) ==
            Filter(apps, HasKey(AppointmentKey(now), k))
  {
    SortIsStable(apps, AppointmentKey(now), k);
  }

  /** An appointment earlier today is classified "upcoming" yet sorted among
      the past appointments, after every strictly future one. */
  lemma EarlierTodayIsUpcomingButSortedAsPast(a: Appointment, now: Instant)
    requires a.date < now && IsToday(a.date, now)
    ensures AppointmentStatus(a, now) == Upcoming
    ensures AppointmentKey(now)(a).major == 1
  {
  }

  // ----- filters -----

  /** `filterByPet`: nothing for a null or empty id, otherwise the records
      whose owner is that id, in their original order. */
  function FilterByPet<T(!new)>(items: seq<T>, owner: T -> string, petId: Option<string>): (r: seq<T>)
    ensures !IsSetId(petId) ==> r == []
    ensures IsSubseq(r, items)
    ensures forall i :: 0 <= i < |r| ==> IsSetId(petId) && owner(r[i]) == petId.value
    ensures IsSetId(petId) ==>
              forall i :: 0 <= i < |items| && owner(items[i]) == petId.value ==> items[i] in r
    ensures IsSetId(petId) ==>
              forall x :: multiset(r)[x] == if owner(x) == petId.value then multiset(items)[x] else 0
  {
    if !IsSetId(petId) then []
    else
      FilterIsSubseq(items, BelongsTo(owner, petId.value));
      FilterCounts(items, BelongsTo(owner, petId.value));
      Filter(items, BelongsTo(owner, petId.value))
  }

  /** The statuses `getUpcomingItems` keeps. */
  predicate IsPending(st: Status) {
    st == Upcoming || st == DueSoon || st == Active
  }

  function PendingUnder<T>(status: T -> Status): T -> bool {
    x => IsPending(status(x))
  }

  /** `getUpcomingItems`: the first `limit` items whose status is upcoming,
      due soon or active, in their original order. */
  function GetUpcomingItems<T(!new)>(items: seq<T>, status: T -> Status, limit: nat): (r: seq<T>)
    ensures |r| <= limit
    ensures IsSubseq(r, items)
    ensures forall i :: 0 <= i < |r| ==> IsPending(status(r[i]))
    ensures |r| < limit ==>
              forall i :: 0 <= i < |items| && IsPending(status(items[i])) ==> items[i] in r
    ensures r <= Filter(items, PendingUnder(status))
    ensures |r| == if limit <= |Filter(items, PendingUnder(status))| then limit
                   else |Filter(items, PendingUnder(status))|
    ensures |r| < limit ==>
              forall x :: multiset(r)[x] == if IsPending(status(x)) then multiset(items)[x] else 0
  {
    var pending := Filter(items, PendingUnder(status));
    FilterIsSubseq(items, PendingUnder(status));
    FilterCounts(items, PendingUnder(status));
    PrefixOfSubseq(Take(pending, limit), pending, items);
    Take(pending, limit)
  }
}
