/** The derived numbers and lists of the overview component
    (`components/pet-overview.tsx`): the health-summary counts, the three
    "upcoming" lists, and the sex label of the profile header. */
module PetOverview {
  import opened Seqs
  import opened Text
  import opened Dates
  import opened Types
  import opened DateUtils

  /** The nine counts of the health summary. */
  datatype HealthSummary = HealthSummary(
    vaccinationsUpToDate: nat,
    vaccinationsOverdue: nat,
    vaccinationsTotal: nat,
    medicationsActive: nat,
    medicationsCompleted: nat,
    medicationsTotal: nat,
    appointmentsUpcoming: nat,
    appointmentsPast: nat,
    appointmentsTotal: nat)

  /** `getVaccinationStatus` and `getMedicationStatus` as one-argument
      callbacks, with the clock read fixed at `now`. */
  function VaccinationStatusAt(now: Instant): Vaccination -> Status {
    v => VaccinationStatus(v, now)
  }

  function MedicationStatusAt(now: Instant): Medication -> Status {
    m => MedicationStatus(m, now)
  }

  /** The overview's own appointment rule: today or earlier is "completed",
      anything else "upcoming". */
  function OverviewAppointmentStatus(now: Instant): Appointment -> Status {
    (a: Appointment) => if IsToday(a.date, now) || IsPast(a.date, now) then Completed else Upcoming
  }

  /** The "Up to date" test: the due date has passed and the status text does
      not include "overdue". */
  function UpToDate(now: Instant): Vaccination -> bool {
    (v: Vaccination) => IsPast(v.dueDate, now) && !Contains(StatusText(VaccinationStatus(v, now)), "overdue")
  }

  function VaccinationHasStatus(now: Instant, st: Status): Vaccination -> bool {
    v => VaccinationStatus(v, now) == st
  }

  function MedicationHasStatus(now: Instant, st: Status): Medication -> bool {
    m => MedicationStatus(m, now) == st
  }

  function MedicationLacksStatus(now: Instant, st: Status): Medication -> bool {
    m => MedicationStatus(m, now) != st
  }

  /** The appointment-history tests: "Upcoming" is not past or today,
      "Past" is past and not today. */
  function UpcomingInHistory(now: Instant): Appointment -> bool {
    (a: Appointment) => !IsPast(a.date, now) || IsToday(a.date, now)
  }

  function PastInHistory(now: Instant): Appointment -> bool {
    (a: Appointment) => IsPast(a.date, now) && !IsToday(a.date, now)
  }

  function AppointmentHasStatus(now: Instant, st: Status): Appointment -> bool {
    a => AppointmentStatus(a, now) == st
  }

  /** Only the text of `Overdue` includes "overdue". */
  lemma ContainsOverdueIffOverdue(st: Status)
    ensures Contains(StatusText(st), "overdue") <==> st == Overdue
  {
    var t := StatusText(st);
    if st == Overdue {
      assert OccursAt(t, "overdue", 0);
    } else if st != Active {
      forall i | 0 <= i <= |t| - 7
        ensures !OccursAt(t, "overdue", i)
      {
        assert t[i] != 'o' || t[i + 1] != 'v';
        assert t[i..i + 7][0] == t[i] && t[i..i + 7][1] == t[i + 1];
      }
    }
  }

  /** A vaccination counts as up to date exactly when its due instant has
      passed and it was either administered or is due earlier today. */
  lemma UpToDateCharacterisation(v: Vaccination, now: Instant)
    ensures UpToDate(now)(v) <==>
              v.dueDate < now && (v.administeredDate.Some? || DayOf(v.dueDate) == DayOf(now))
  {
    ContainsOverdueIffOverdue(VaccinationStatus(v, now));
    if v.dueDate < now { DayOfMonotone(v.dueDate, now); }
  }

  /** No vaccination is both up to date and overdue. */
  lemma UpToDateExcludesOverdue(v: Vaccination, now: Instant)
    ensures !(UpToDate(now)(v) && VaccinationHasStatus(now, Overdue)(v))
  {
    ContainsOverdueIffOverdue(VaccinationStatus(v, now));
  }

  /** A medication is completed, active or upcoming, and only one of them. */
  lemma MedicationStatusIsOneOfThree(m: Medication, now: Instant)
    ensures MedicationLacksStatus(now, Completed)(m) ==
              (MedicationHasStatus(now, Active)(m) || MedicationHasStatus(now, Upcoming)(m))
  {
  }

  /** The history tests agree with `getAppointmentStatus`: an appointment is
      in the "Upcoming" count exactly when its status is upcoming. */
  lemma HistoryAgreesWithAppointmentStatus(a: Appointment, now: Instant)
    ensures UpcomingInHistory(now)(a) == AppointmentHasStatus(now, Upcoming)(a)
    ensures PastInHistory(now)(a) == !UpcomingInHistory(now)(a)
  {
    if a.date < now { DayOfMonotone(a.date, now); } else { DayOfMonotone(now, a.date); }
  }

  /** The health summary. The vaccination and medication counts never exceed
      the totals, and the two appointment counts partition the total. */
  function Summarize(vs: seq<Vaccination>, ms: seq<Medication>, aps: seq<Appointment>, now: Instant)
    : (h: HealthSummary)
    ensures h.vaccinationsTotal == |vs| && h.medicationsTotal == |ms| && h.appointmentsTotal == |aps|
    ensures h.vaccinationsUpToDate + h.vaccinationsOverdue <= h.vaccinationsTotal
    ensures h.medicationsActive + h.medicationsCompleted <= h.medicationsTotal
    ensures h.appointmentsUpcoming + h.appointmentsPast == h.appointmentsTotal
    ensures h.appointmentsUpcoming == |Filter(aps, AppointmentHasStatus(now, Upcoming))|
    ensures h.vaccinationsUpToDate == |Filter(vs, DueAndSettled(now))|
    ensures h.vaccinationsOverdue == |Filter(vs, OverdueByDays(now))|
    ensures h.medicationsActive == |Filter(ms, ActiveByDays(now))|
    ensures h.medicationsCompleted == |Filter(ms, EndedByDays(now))|
    ensures h.medicationsTotal - h.medicationsActive - h.medicationsCompleted ==
            |Filter(ms, MedicationHasStatus(now, Upcoming))|
  {
    var upToDate := Filter(vs, UpToDate(now));
    var overdue := Filter(vs, VaccinationHasStatus(now, Overdue));
    var active := Filter(ms, MedicationHasStatus(now, Active));
    var completed := Filter(ms, MedicationHasStatus(now, Completed));
    var upcoming := Filter(aps, UpcomingInHistory(now));
    var past := Filter(aps, PastInHistory(now));
    VaccinationCountsBounded(vs, now);
    MedicationCountsBounded(ms, now);
    AppointmentCountsPartition(aps, now);
    VaccinationCountsByDays(vs, now);
    MedicationCountsByDays(ms, now);
    HealthSummary(|upToDate|, |overdue|, |vs|, |active|, |completed|, |ms|, |upcoming|, |past|, |aps|)
  }

  /** The summary's tests restated by calendar day: up to date is past due
      and either administered or due today; overdue is not administered and
      due on an earlier day; a medication is active from its start day to
      its end day and completed after its end day. */
  function DueAndSettled(now: Instant): Vaccination -> bool {
    (v: Vaccination) => v.dueDate < now && (v.administeredDate.Some? || DayOf(v.dueDate) == DayOf(now))
  }

  function OverdueByDays(now: Instant): Vaccination -> bool {
    (v: Vaccination) => v.administeredDate.None? && DayOf(v.dueDate) < DayOf(now)
  }

  function ActiveByDays(now: Instant): Medication -> bool {
    (m: Medication) => DayOf(m.startDate) <= DayOf(now) <= DayOf(m.endDate)
  }

  function EndedByDays(now: Instant): Medication -> bool {
    (m: Medication) => DayOf(m.endDate) < DayOf(now)
  }

  /** The two vaccination counts are the counts of their calendar-day tests. */
  lemma VaccinationCountsByDays(vs: seq<Vaccination>, now: Instant)
    ensures Filter(vs, UpToDate(now)) == Filter(vs, DueAndSettled(now))
    ensures Filter(vs, VaccinationHasStatus(now, Overdue)) == Filter(vs, OverdueByDays(now))
  {
    forall i | 0 <= i < |vs|
      ensures UpToDate(now)(vs[i]) == DueAndSettled(now)(vs[i])
    {
      UpToDateCharacterisation(vs[i], now);
    }
    FilterCongruent(vs, UpToDate(now), DueAndSettled(now));
    FilterCongruent(vs, VaccinationHasStatus(now, Overdue), OverdueByDays(now));
  }

  /** The two medication counts are the counts of their calendar-day tests. */
  lemma MedicationCountsByDays(ms: seq<Medication>, now: Instant)
    ensures Filter(ms, MedicationHasStatus(now, Active)) == Filter(ms, ActiveByDays(now))
    ensures Filter(ms, MedicationHasStatus(now, Completed)) == Filter(ms, EndedByDays(now))
  {
    FilterCongruent(ms, MedicationHasStatus(now, Active), ActiveByDays(now));
    FilterCongruent(ms, MedicationHasStatus(now, Completed), EndedByDays(now));
  }

  lemma VaccinationCountsBounded(vs: seq<Vaccination>, now: Instant)
    ensures |Filter(vs, UpToDate(now))| + |Filter(vs, VaccinationHasStatus(now, Overdue))| <= |vs|
  {
    var either := (v: Vaccination) => UpToDate(now)(v) || VaccinationHasStatus(now, Overdue)(v);
    forall v: Vaccination
      ensures !(UpToDate(now)(v) && VaccinationHasStatus(now, Overdue)(v))
    {
      UpToDateExcludesOverdue(v, now);
    }
    FilterCountUnion(vs, UpToDate(now), VaccinationHasStatus(now, Overdue), either);
  }

  /** The medications neither active nor completed are exactly the upcoming ones. */
  lemma MedicationCountsBounded(ms: seq<Medication>, now: Instant)
    ensures |Filter(ms, MedicationHasStatus(now, Active))| + |Filter(ms, MedicationHasStatus(now, Completed))| +
            |Filter(ms, MedicationHasStatus(now, Upcoming))| == |ms|
  {
    forall m: Medication
      ensures MedicationLacksStatus(now, Completed)(m) ==
                (MedicationHasStatus(now, Active)(m) || MedicationHasStatus(now, Upcoming)(m))
    {
      MedicationStatusIsOneOfThree(m, now);
    }
    FilterCountUnion(ms, MedicationHasStatus(now, Active), MedicationHasStatus(now, Upcoming),
                     MedicationLacksStatus(now, Completed));
    FilterPartition(ms, MedicationHasStatus(now, Completed), MedicationLacksStatus(now, Completed));
  }

  lemma AppointmentCountsPartition(aps: seq<Appointment>, now: Instant)
    ensures |Filter(aps, UpcomingInHistory(now))| + |Filter(aps, PastInHistory(now))| == |aps|
    ensures Filter(aps, UpcomingInHistory(now)) == Filter(aps, AppointmentHasStatus(now, Upcoming))
  {
    forall a: Appointment
      ensures PastInHistory(now)(a) == !UpcomingInHistory(now)(a)
      ensures UpcomingInHistory(now)(a) == AppointmentHasStatus(now, Upcoming)(a)
    {
      HistoryAgreesWithAppointmentStatus(a, now);
    }
    FilterPartition(aps, UpcomingInHistory(now), PastInHistory(now));
    FilterCongruent(aps, UpcomingInHistory(now), AppointmentHasStatus(now, Upcoming));
  }

  /** The three lists of the health-records grid. */
  datatype UpcomingLists = UpcomingLists(
    vaccinations: seq<Vaccination>,
    medications: seq<Medication>,
    appointments: seq<Appointment>)

  /** The records the lists draw from, by calendar day: vaccinations not
      administered and not due on an earlier day, medications not ended
      before today, appointments on a later day than today. */
  function DueFromToday(now: Instant): Vaccination -> bool {
    (v: Vaccination) => v.administeredDate.None? && DayOf(v.dueDate) >= DayOf(now)
  }

  function NotEndedBeforeToday(now: Instant): Medication -> bool {
    (m: Medication) => DayOf(m.endDate) >= DayOf(now)
  }

  function AfterToday(now: Instant): Appointment -> bool {
    (a: Appointment) => DayOf(a.date) > DayOf(now)
  }

  /** The lists: the first three records of each kind that are still to come,
      in the order given. */
  function ListUpcoming(vs: seq<Vaccination>, ms: seq<Medication>, aps: seq<Appointment>, now: Instant)
    : (r: UpcomingLists)
    ensures |r.vaccinations| <= DEFAULT_UPCOMING_LIMIT && IsSubseq(r.vaccinations, vs)
    ensures |r.medications| <= DEFAULT_UPCOMING_LIMIT && IsSubseq(r.medications, ms)
    ensures |r.appointments| <= DEFAULT_UPCOMING_LIMIT && IsSubseq(r.appointments, aps)
    ensures forall i :: 0 <= i < |r.vaccinations| ==>
              r.vaccinations[i].administeredDate.None? && DayOf(r.vaccinations[i].dueDate) >= DayOf(now)
    ensures forall i :: 0 <= i < |r.medications| ==> DayOf(r.medications[i].endDate) >= DayOf(now)
    ensures forall i :: 0 <= i < |r.appointments| ==> DayOf(r.appointments[i].date) > DayOf(now)
    ensures r.vaccinations == Take(Filter(vs, DueFromToday(now)), DEFAULT_UPCOMING_LIMIT)
    ensures r.medications == Take(Filter(ms, NotEndedBeforeToday(now)), DEFAULT_UPCOMING_LIMIT)
    ensures r.appointments == Take(Filter(aps, AfterToday(now)), DEFAULT_UPCOMING_LIMIT)
  {
    UpcomingLists(UpcomingVaccinations(vs, now), UpcomingMedications(ms, now), UpcomingAppointments(aps, now))
  }

  /** The vaccination list: the first three not administered and not overdue. */
  function UpcomingVaccinations(vs: seq<Vaccination>, now: Instant): (r: seq<Vaccination>)
    ensures |r| <= DEFAULT_UPCOMING_LIMIT && IsSubseq(r, vs)
    ensures forall i :: 0 <= i < |r| ==> r[i].administeredDate.None? && DayOf(r[i].dueDate) >= DayOf(now)
    ensures r == Take(Filter(vs, DueFromToday(now)), DEFAULT_UPCOMING_LIMIT)
  {
    forall i | 0 <= i < |vs|
      ensures PendingUnder(VaccinationStatusAt(now))(vs[i]) == DueFromToday(now)(vs[i])
    {
    }
    FilterCongruent(vs, PendingUnder(VaccinationStatusAt(now)), DueFromToday(now));
    GetUpcomingItems(vs, VaccinationStatusAt(now), DEFAULT_UPCOMING_LIMIT)
  }

  /** The medication list: the first three not yet completed. */
  function UpcomingMedications(ms: seq<Medication>, now: Instant): (r: seq<Medication>)
    ensures |r| <= DEFAULT_UPCOMING_LIMIT && IsSubseq(r, ms)
    ensures forall i :: 0 <= i < |r| ==> DayOf(r[i].endDate) >= DayOf(now)
    ensures r == Take(Filter(ms, NotEndedBeforeToday(now)), DEFAULT_UPCOMING_LIMIT)
  {
    forall i | 0 <= i < |ms|
      ensures PendingUnder(MedicationStatusAt(now))(ms[i]) == NotEndedBeforeToday(now)(ms[i])
    {
    }
    FilterCongruent(ms, PendingUnder(MedicationStatusAt(now)), NotEndedBeforeToday(now));
    GetUpcomingItems(ms, MedicationStatusAt(now), DEFAULT_UPCOMING_LIMIT)
  }

  /** The appointment list: the first three on a later day than today. */
  function UpcomingAppointments(aps: seq<Appointment>, now: Instant): (r: seq<Appointment>)
    ensures |r| <= DEFAULT_UPCOMING_LIMIT && IsSubseq(r, aps)
    ensures forall i :: 0 <= i < |r| ==> DayOf(r[i].date) > DayOf(now)
    ensures r == Take(Filter(aps, AfterToday(now)), DEFAULT_UPCOMING_LIMIT)
  {
    forall i | 0 <= i < |aps|
      ensures PendingUnder(OverviewAppointmentStatus(now))(aps[i]) == AfterToday(now)(aps[i])
    {
      NotPastNotTodayIsLaterDay(aps[i].date, now);
    }
    FilterCongruent(aps, PendingUnder(OverviewAppointmentStatus(now)), AfterToday(now));
    GetUpcomingItems(aps, OverviewAppointmentStatus(now), DEFAULT_UPCOMING_LIMIT)
  }

  /** An appointment today, earlier or later than now, is counted as upcoming in the summary and
      has status upcoming, but the upcoming list leaves it out. */
  lemma TodaysAppointmentIsCountedButNotListed(a: Appointment, now: Instant)
    requires IsToday(a.date, now)
    ensures Summarize([], [], [a], now).appointmentsUpcoming == 1
    ensures AppointmentStatus(a, now) == Upcoming
    ensures ListUpcoming([], [], [a], now).appointments == []
  {
  }

  /** The sex label of the header: the first character, then the rest in lower case. */
  function SexLabel(code: string): (r: string)
    ensures |r| == |code|
    ensures |code| > 0 ==> r[0] == code[0] && r[1..] == Lower(code[1..])
  {
    if |code| == 0 then "" else [code[0]] + Lower(code[1..])
  }

  /** Each stored sex code reads as a capitalised word. */
  lemma SexLabelsReadAsWords(s: Sex)
    ensures SexLabel(SexCode(s)) == match s
                                    case Male => "Male"
                                    case Female => "Female"
                                    case Unknown => "Unknown"
  {
    var code := SexCode(s);
    var want := match s case Male => "Male" case Female => "Female" case Unknown => "Unknown";
    assert SexLabel(code) == want;
  }
}
