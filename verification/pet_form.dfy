/** The validator and record construction of the pet form
    (`components/pet-form.tsx`). The form's eight inputs are one record;
    `Number(weight)`'s NaN test and `parseFloat` are parameters, as is the
    fresh id the form would generate. */
module PetForm {
  import opened Wrappers
  import opened Text
  import opened Dates
  import opened Types

  /** The inputs of the form. An unselected type, sex or date is `None`. */
  datatype FormState = FormState(
    name: string,
    petType: Option<PetType>,
    breed: string,
    sex: Option<Sex>,
    birthDate: Option<Instant>,
    weight: string,
    profilePicture: string,
    notes: string)

  /** The error object: at most one message per field, under the six keys
      `validateForm` can set. */
  datatype FormErrors = FormErrors(
    name: Option<string>,
    petType: Option<string>,
    sex: Option<string>,
    birthDate: Option<string>,
    weight: Option<string>,
    profilePicture: Option<string>)

  /** Which of the six fields carry a message: the keys `Object.keys` lists. */
  function Present(e: FormErrors): (flags: seq<bool>)
    ensures |flags| == 6
  {
    [e.name.Some?, e.petType.Some?, e.sex.Some?, e.birthDate.Some?, e.weight.Some?, e.profilePicture.Some?]
  }

  /** 1 for a set flag, 0 otherwise. */
  function Bit(b: bool): nat {
    if b then 1 else 0
  }

  /** How many of `flags` are set. */
  function CountSet(flags: seq<bool>): nat {
    if |flags| == 0 then 0 else Bit(flags[0]) + CountSet(flags[1..])
  }

  /** The recursive count is the multiplicity of `true`. */
  lemma {:induction false} CountSetIsMultiplicity(flags: seq<bool>)
    ensures CountSet(flags) == multiset(flags)[true]
  {
    if |flags| > 0 {
      CountSetIsMultiplicity(flags[1..]);
      assert flags == [flags[0]] + flags[1..];
    }
  }

  /** The count of six flags, written out. */
  lemma CountSix(f: seq<bool>)
    requires |f| == 6
    ensures CountSet(f) == Bit(f[0]) + Bit(f[1]) + Bit(f[2]) + Bit(f[3]) + Bit(f[4]) + Bit(f[5])
  {
    assert CountSet(f[5..]) == Bit(f[5]) by { assert f[5..][1..] == []; }
    assert CountSet(f[4..]) == Bit(f[4]) + Bit(f[5]) by { assert f[4..][1..] == f[5..]; }
    assert CountSet(f[3..]) == Bit(f[3]) + Bit(f[4]) + Bit(f[5]) by { assert f[3..][1..] == f[4..]; }
    assert CountSet(f[2..]) == Bit(f[2]) + Bit(f[3]) + Bit(f[4]) + Bit(f[5]) by { assert f[2..][1..] == f[3..]; }
    assert CountSet(f[1..]) == Bit(f[1]) + Bit(f[2]) + Bit(f[3]) + Bit(f[4]) + Bit(f[5]) by { assert f[1..][1..] == f[2..]; }
  }

  /** `Object.keys(errors).length`: how many fields carry a message. */
  function ErrorCount(e: FormErrors): (n: nat)
    ensures n <= 6
    ensures n == 0 <==> e == FormErrors(None, None, None, None, None, None)
  {
    (if e.name.Some? then 1 else 0) + (if e.petType.Some? then 1 else 0) + (if e.sex.Some? then 1 else 0) +
    (if e.birthDate.Some? then 1 else 0) + (if e.weight.Some? then 1 else 0) +
    (if e.profilePicture.Some? then 1 else 0)
  }

  /** The error count is the number of keys present in the error object. */
  lemma ErrorCountIsKeyCount(e: FormErrors)
    ensures ErrorCount(e) == multiset(Present(e))[true]
  {
    var f := Present(e);
    CountSix(f);
    assert CountSet(f) == ErrorCount(e) by {
      assert f[0] == e.name.Some? && f[1] == e.petType.Some? && f[2] == e.sex.Some?;
      assert f[3] == e.birthDate.Some? && f[4] == e.weight.Some? && f[5] == e.profilePicture.Some?;
    }
    CountSetIsMultiplicity(f);
  }

  const NAME_REQUIRED := "Pet name is required"
  const TYPE_REQUIRED := "Pet type is required"
  const SEX_REQUIRED := "Sex is required"
  const BIRTH_DATE_REQUIRED := "Birth date is required"
  const BIRTH_DATE_IN_FUTURE := "Birth date cannot be in the future"
  const WEIGHT_NOT_NUMBER := "Weight must be a number"
  const PICTURE_NOT_URL := "Please enter a valid URL"

  /** What an empty breed or picture is replaced with on submission. */
  const DEFAULT_BREED := "Mixed"
  const PLACEHOLDER_PICTURE := "/placeholder.svg?height=100&width=100"

  /** `!name.trim()`: the name is empty once white space is trimmed. */
  predicate NameMissing(name: string) {
    Trim(name) == ""
  }

  /** A name is missing exactly when it is all white space. */
  lemma NameMissingIffBlank(name: string)
    ensures NameMissing(name) <==> IsBlank(name)
  {
    TrimEmptyIffBlank(name);
  }

  /** A picture is acceptable when empty or when it starts with "http" or "/". */
  predicate AcceptablePicture(picture: string) {
    picture == "" || StartsWith(picture, "http") || StartsWith(picture, "/")
  }

  /** `validateForm`: one error message per failing field. */
  function ValidateForm(f: FormState, now: Instant, isNumeric: string -> bool): (errors: FormErrors)
    ensures errors.name.Some? <==> NameMissing(f.name)
    ensures errors.petType.Some? <==> f.petType.None?
    ensures errors.sex.Some? <==> f.sex.None?
    ensures errors.birthDate.Some? <==> !BirthDateAccepted(f.birthDate, now)
    ensures errors.weight.Some? <==> f.weight != "" && !isNumeric(f.weight)
    ensures errors.profilePicture.Some? <==> !AcceptablePicture(f.profilePicture)
    ensures errors.name.Some? ==> errors.name.value == NAME_REQUIRED
    ensures errors.petType.Some? ==> errors.petType.value == TYPE_REQUIRED
    ensures errors.sex.Some? ==> errors.sex.value == SEX_REQUIRED
    ensures errors.birthDate.Some? ==>
              errors.birthDate.value == if f.birthDate.None? then BIRTH_DATE_REQUIRED else BIRTH_DATE_IN_FUTURE
    ensures errors.weight.Some? ==> errors.weight.value == WEIGHT_NOT_NUMBER
    ensures errors.profilePicture.Some? ==> errors.profilePicture.value == PICTURE_NOT_URL
  {
    FormErrors(
      if NameMissing(f.name) then Some(NAME_REQUIRED) else None,
      if f.petType.None? then Some(TYPE_REQUIRED) else None,
      if f.sex.None? then Some(SEX_REQUIRED) else None,
      if f.birthDate.None? then Some(BIRTH_DATE_REQUIRED)
      else if f.birthDate.value > now then Some(BIRTH_DATE_IN_FUTURE)
      else None,
      if f.weight != "" && !isNumeric(f.weight) then Some(WEIGHT_NOT_NUMBER) else None,
      if f.profilePicture != "" && !StartsWith(f.profilePicture, "http") && !StartsWith(f.profilePicture, "/") then
        Some(PICTURE_NOT_URL)
      else None)
  }

  /** A birth date is acceptable when one is picked and it is not after now. */
  predicate BirthDateAccepted(birthDate: Option<Instant>, now: Instant) {
    birthDate.Some? && birthDate.value <= now
  }

  /** All the conditions an acceptable form meets. */
  predicate WellFormed(f: FormState, now: Instant, isNumeric: string -> bool) {
    && !IsBlank(f.name)
    && f.petType.Some?
    && f.sex.Some?
    && BirthDateAccepted(f.birthDate, now)
    && (f.weight == "" || isNumeric(f.weight))
    && AcceptablePicture(f.profilePicture)
  }

  /** The form is valid exactly when no field carries a message, which is exactly
      when every field condition holds. */
  lemma ValidIffNoErrors(f: FormState, now: Instant, isNumeric: string -> bool)
    ensures ErrorCount(ValidateForm(f, now, isNumeric)) == 0 <==> WellFormed(f, now, isNumeric)
  {
    NameMissingIffBlank(f.name);
  }

  /** `handleSubmit`: nothing when the form is invalid; otherwise the pet
      built from the inputs. The id and creation time of the edited pet are
      kept (a pet whose id is "" gets the fresh id); an empty breed, weight,
      picture or notes gets its default. */
  function SubmitPetForm(f: FormState, editing: Option<Pet>, freshId: string, now: Instant,
                         isNumeric: string -> bool, parseWeight: string -> real): (r: Option<Pet>)
    ensures r.None? <==> !WellFormed(f, now, isNumeric)
    ensures r.Some? ==> r.value.id == if editing.Some? && editing.value.id != "" then editing.value.id else freshId
    ensures r.Some? ==> r.value.createdAt == if editing.Some? then editing.value.createdAt else now
    ensures r.Some? ==> r.value.name == f.name && !IsBlank(r.value.name)
    ensures r.Some? ==> Some(r.value.petType) == f.petType && Some(r.value.sex) == f.sex
    ensures r.Some? ==> Some(r.value.birthDate) == f.birthDate && r.value.birthDate <= now
    ensures r.Some? ==> r.value.breed != "" && (f.breed != "" ==> r.value.breed == f.breed)
    ensures r.Some? ==> r.value.breed == if f.breed == "" then DEFAULT_BREED else f.breed
    ensures r.Some? ==> r.value.weight == if f.weight == "" then 0.0 else parseWeight(f.weight)
    ensures r.Some? ==> r.value.profilePicture != "" && AcceptablePicture(r.value.profilePicture) &&
                        (f.profilePicture != "" ==> r.value.profilePicture == f.profilePicture)
    ensures r.Some? ==> r.value.profilePicture == if f.profilePicture == "" then PLACEHOLDER_PICTURE else f.profilePicture
    ensures r.Some? ==> r.value.notes != Some("") && (f.notes != "" ==> r.value.notes == Some(f.notes))
    ensures r.Some? ==> r.value.notes == if f.notes == "" then None else Some(f.notes)
  {
    ValidIffNoErrors(f, now, isNumeric);
    if ErrorCount(ValidateForm(f, now, isNumeric)) != 0 then None
    else
      Some(Pet(
        if editing.Some? && editing.value.id != "" then editing.value.id else freshId,
        f.name,
        f.petType.value,
        if f.breed != "" then f.breed else DEFAULT_BREED,
        f.sex.value,
        if f.birthDate.Some? then f.birthDate.value else now,
        if f.weight != "" then parseWeight(f.weight) else 0.0,
        if f.profilePicture != "" then f.profilePicture else PLACEHOLDER_PICTURE,
        if f.notes != "" then Some(f.notes) else None,
        if editing.Some? then editing.value.createdAt else now))
  }

  /** The edit-mode initialisation effect: the inputs filled from a pet, with
      the weight shown by `showWeight` and absent notes shown as "". */
  function FormFromPet(p: Pet, showWeight: real -> string): (f: FormState)
    ensures f.name == p.name && f.breed == p.breed && f.profilePicture == p.profilePicture
    ensures f.petType == Some(p.petType) && f.sex == Some(p.sex) && f.birthDate == Some(p.birthDate)
    ensures f.weight == showWeight(p.weight)
    ensures f.notes == if p.notes.Some? then p.notes.value else ""
  {
    FormState(p.name, Some(p.petType), p.breed, Some(p.sex), Some(p.birthDate),
              showWeight(p.weight), p.profilePicture, p.notes.GetOr(""))
  }

  /** Round trip: opening a pet in edit mode and submitting without changes
      gives back the same pet, provided the pet already satisfies the form's
      rules and its defaults, and the weight survives being shown and parsed. */
  lemma EditWithoutChangesRoundTrips(p: Pet, freshId: string, now: Instant, showWeight: real -> string,
                                     isNumeric: string -> bool, parseWeight: string -> real)
    requires p.id != "" && !IsBlank(p.name) && p.breed != "" && p.birthDate <= now
    requires showWeight(p.weight) != "" && isNumeric(showWeight(p.weight))
    requires parseWeight(showWeight(p.weight)) == p.weight
    requires p.profilePicture != "" && AcceptablePicture(p.profilePicture)
    requires p.notes != Some("")
    ensures SubmitPetForm(FormFromPet(p, showWeight), Some(p), freshId, now, isNumeric, parseWeight) == Some(p)
  {
  }

  /** A blank but non-empty name is rejected by the form. */
  lemma BlankNameIsRejected(f: FormState, now: Instant, isNumeric: string -> bool)
    requires f.name == " "
    ensures ValidateForm(f, now, isNumeric).name == Some(NAME_REQUIRED)
    ensures SubmitPetForm(f, None, "", now, isNumeric, s => 0.0).None?
  {
  }
}
