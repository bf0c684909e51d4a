/** The submit handler of the simpler add-pet form
    (`components/add-pet-form.tsx`). It shares the input record and the
    defaults of the pet form but has its own, weaker guard. */
module AddPetForm {
  import opened Wrappers
  import opened Text
  import opened Dates
  import opened Types
  import opened PetForm

  /** The guard: name, type and sex must be filled in; nothing else is checked. */
  predicate Submittable(f: FormState) {
    f.name != "" && f.petType.Some? && f.sex.Some?
  }

  /** `handleSubmit`: nothing unless the guard holds; otherwise a new pet with
      the fresh id, created now, born now if no date was picked, with the
      breed, weight and picture defaults, and the notes kept as typed. */
  function SubmitAddPetForm(f: FormState, freshId: string, now: Instant, parseWeight: string -> real)
    : (r: Option<Pet>)
    ensures r.None? <==> !Submittable(f)
    ensures r.Some? ==> r.value.id == freshId && r.value.createdAt == now
    ensures r.Some? ==> r.value.name == f.name && r.value.name != ""
    ensures r.Some? ==> Some(r.value.petType) == f.petType && Some(r.value.sex) == f.sex
    ensures r.Some? ==> r.value.birthDate == if f.birthDate.Some? then f.birthDate.value else now
    ensures r.Some? ==> r.value.breed != "" && (f.breed != "" ==> r.value.breed == f.breed)
    ensures r.Some? ==> r.value.breed == if f.breed == "" then DEFAULT_BREED else f.breed
    ensures r.Some? ==> r.value.weight == if f.weight == "" then 0.0 else parseWeight(f.weight)
    ensures r.Some? ==> r.value.profilePicture != "" &&
                        (f.profilePicture != "" ==> r.value.profilePicture == f.profilePicture)
    ensures r.Some? ==> r.value.profilePicture == if f.profilePicture == "" then PLACEHOLDER_PICTURE else f.profilePicture
    ensures r.Some? ==> r.value.notes == Some(f.notes)
  {
    if !Submittable(f) then None
    else
      Some(Pet(
        freshId,
        f.name,
        f.petType.value,
        if f.breed != "" then f.breed else DEFAULT_BREED,
        f.sex.value,
        if f.birthDate.Some? then f.birthDate.value else now,
        if f.weight != "" then parseWeight(f.weight) else 0.0,
        if f.profilePicture != "" then f.profilePicture else PLACEHOLDER_PICTURE,
        Some(f.notes),
        now))
  }

  /** Every form the pet form accepts, the add-pet form accepts too. */
  lemma PetFormAcceptanceImpliesAddPetFormAcceptance(f: FormState, now: Instant, isNumeric: string -> bool,
                                                      freshId: string, parseWeight: string -> real)
    requires SubmitPetForm(f, None, freshId, now, isNumeric, parseWeight).Some?
    ensures SubmitAddPetForm(f, freshId, now, parseWeight).Some?
  {
    ValidIffNoErrors(f, now, isNumeric);
    assert IsBlank("");
  }

  /** On a form both accept, the two forms build the same pet except that the
      add-pet form keeps empty notes as "" where the pet form drops them. */
  lemma FormsAgreeExceptOnEmptyNotes(f: FormState, now: Instant, isNumeric: string -> bool,
                                     freshId: string, parseWeight: string -> real)
    requires SubmitPetForm(f, None, freshId, now, isNumeric, parseWeight).Some?
    ensures SubmitAddPetForm(f, freshId, now, parseWeight).Some?
    ensures var a := SubmitAddPetForm(f, freshId, now, parseWeight).value;
            var p := SubmitPetForm(f, None, freshId, now, isNumeric, parseWeight).value;
            && a.(notes := p.notes) == p
            && (a.notes == p.notes <==> f.notes != "")
  {
    PetFormAcceptanceImpliesAddPetFormAcceptance(f, now, isNumeric, freshId, parseWeight);
  }

  /** Inputs the pet form rejects but the add-pet form accepts: a name of
      spaces, a birth date after now, and a weight that is not a number. */
  lemma AddPetFormIsMoreLenient(freshId: string, now: Instant, isNumeric: string -> bool,
                                parseWeight: string -> real)
    requires !isNumeric("abc")
    ensures var f := FormState(" ", Some(Dog), "", Some(Male), Some(now + 1), "abc", "", "");
            && SubmitAddPetForm(f, freshId, now, parseWeight).Some?
            && SubmitPetForm(f, None, freshId, now, isNumeric, parseWeight).None?
            && ErrorCount(ValidateForm(f, now, isNumeric)) == 3
  {
    var f := FormState(" ", Some(Dog), "", Some(Male), Some(now + 1), "abc", "", "");
    assert IsWhitespace(f.name[0]);
    NameMissingIffBlank(f.name);
  }
}
