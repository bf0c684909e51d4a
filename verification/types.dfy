/** The records the application stores (`Pet`, `Vaccination`, `Medication`,
    `Appointment`), the enumerations they use, and the status tags that the
    classifiers produce, with their wire spellings. */
module Types {
  import opened Wrappers
  import opened Dates

  /** The `PetType` union of string codes. */
  datatype PetType = Dog | Cat | Bird | SmallMammal | Reptile | Fish | Other

  /** The `Sex` union of string codes. */
  datatype Sex = Male | Female | Unknown

  datatype Pet = Pet(
    id: string,
    name: string,
    petType: PetType,
    breed: string,
    sex: Sex,
    birthDate: Instant,
    weight: real,
    profilePicture: string,
    notes: Option<string>,
    createdAt: Instant)

  datatype Vaccination = Vaccination(
    id: string,
    petId: string,
    name: string,
    dueDate: Instant,
    administeredDate: Option<Instant>,
    notes: Option<string>,
    createdAt: Instant)

  datatype Medication = Medication(
    id: string,
    petId: string,
    name: string,
    dosage: string,
    frequency: string,
    startDate: Instant,
    endDate: Instant,
    notes: Option<string>,
    createdAt: Instant)

  datatype Appointment = Appointment(
    id: string,
    petId: string,
    vetName: string,
    vetPhone: Option<string>,
    date: Instant,
    reason: string,
    notes: Option<string>,
    createdAt: Instant)

  /** The `STATUS_TYPES` constants. */
  datatype Status = Active | Upcoming | Completed | Overdue | DueSoon

  /** The string each status constant stands for. */
  function StatusText(s: Status): string {
    match s
    case Active => "active"
    case Upcoming => "upcoming"
    case Completed => "completed"
    case Overdue => "overdue"
    case DueSoon => "due-soon"
  }

  /** Reads a status string back; any other string is not a status. */
  function ParseStatus(t: string): (r: Option<Status>)
    ensures r.Some? ==> StatusText(r.value) == t
  {
    if t == "active" then Some(Active)
    else if t == "upcoming" then Some(Upcoming)
    else if t == "completed" then Some(Completed)
    else if t == "overdue" then Some(Overdue)
    else if t == "due-soon" then Some(DueSoon)
    else None
  }

  /** Every status string reads back as the status it came from. */
  lemma ParseStatusText(s: Status)
    ensures ParseStatus(StatusText(s)) == Some(s)
  {
  }

  /** The stored code of a pet type (`PET_TYPES[i].value`). */
  function PetTypeCode(t: PetType): string {
    match t
    case Dog => "DOG"
    case Cat => "CAT"
    case Bird => "BIRD"
    case SmallMammal => "SMALL_MAMMAL"
    case Reptile => "REPTILE"
    case Fish => "FISH"
    case Other => "OTHER"
  }

  /** The display label of a pet type (`PET_TYPES[i].label`). */
  function PetTypeDisplay(t: PetType): string {
    match t
    case Dog => "Dog"
    case Cat => "Cat"
    case Bird => "Bird"
    case SmallMammal => "Small Mammal"
    case Reptile => "Reptile"
    case Fish => "Fish"
    case Other => "Other"
  }

  /** The stored code of a sex (`SEX_OPTIONS[i].value`). */
  function SexCode(s: Sex): string {
    match s
    case Male => "MALE"
    case Female => "FEMALE"
    case Unknown => "UNKNOWN"
  }

  /** A `string | null` id in a JavaScript condition: `null` and "" are falsy. */
  predicate IsSetId(id: Option<string>) {
    id.Some? && id.value != ""
  }

  /** Owner accessors, so that "belongs to pet p" is one named predicate per kind. */
  function VaccinationOwner(v: Vaccination): string { v.petId }
  function MedicationOwner(m: Medication): string { m.petId }
  function AppointmentOwner(a: Appointment): string { a.petId }

  /** `x => owner(x) === petId`. */
  function BelongsTo<T>(owner: T -> string, petId: string): T -> bool {
    x => owner(x) == petId
  }

  /** `x => owner(x) !== petId`. */
  function NotBelongsTo<T>(owner: T -> string, petId: string): T -> bool {
    x => owner(x) != petId
  }

  /** `pet => pet.id === id`. */
  function PetHasId(id: string): Pet -> bool {
    (p: Pet) => p.id == id
  }

  /** `pet => pet.id !== id`. */
  function PetLacksId(id: string): Pet -> bool {
    (p: Pet) => p.id != id
  }

  /** Id accessors of the record kinds. */
  function VaccinationId(v: Vaccination): string { v.id }
  function MedicationId(m: Medication): string { m.id }
  function AppointmentId(a: Appointment): string { a.id }

  /** `x => idOf(x) !== id`. */
  function IdIsNot<T>(idOf: T -> string, id: string): T -> bool {
    x => idOf(x) != id
  }
}
