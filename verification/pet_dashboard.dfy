/** The state-update logic of the dashboard component
    (`components/pet-dashboard.tsx`): the default-selection effect, the
    selected-pet lookup, and the handlers that add, update and delete pets
    and records. Each handler maps the current state to the next one. */
module PetDashboard {
  import opened Wrappers
  import opened Seqs
  import opened Types
  import opened PetUtils

  /** The four collections and the selected pet id. */
  datatype Dashboard = Dashboard(data: Collections, selectedPetId: Option<string>)

  /** The default-selection effect: with no pets the selection is cleared;
      with pets and no selection the first pet is selected; otherwise the
      selection stays as it is, even if no pet has that id any more. */
  function SelectDefault(pets: seq<Pet>, selected: Option<string>): (r: Option<string>)
    ensures |pets| == 0 ==> r == None
    ensures |pets| > 0 && selected.None? ==> r == Some(pets[0].id)
    ensures |pets| > 0 && selected.Some? ==> r == selected
  {
    if (|pets| > 0 && selected.None?) || |pets| == 0 then
      (if |pets| > 0 then Some(pets[0].id) else None)
    else selected
  }

  /** Re-running the effect on its own output changes nothing, so the effect
      settles after one run. */
  lemma SelectDefaultSettles(pets: seq<Pet>, selected: Option<string>)
    ensures SelectDefault(pets, SelectDefault(pets, selected)) == SelectDefault(pets, selected)
  {
  }

  /** `selectedPet`: the first pet with the selected id, or none when the id
      is null, empty, or matches no pet. */
  function SelectedPet(pets: seq<Pet>, selected: Option<string>): (r: Option<Pet>)
    ensures r.Some? ==> IsSetId(selected) && IsFirstWithId(pets, selected.value, r.value)
    ensures r.None? <==> !IsSetId(selected) || !HasPet(pets, selected.value)
  {
    if IsSetId(selected) then FindFirst(pets, PetHasId(selected.value)) else None
  }

  /** A stale selection survives the effect and selects nothing. */
  lemma StaleSelectionSelectsNothing(pets: seq<Pet>, id: string)
    requires |pets| > 0 && !HasPet(pets, id)
    ensures SelectDefault(pets, Some(id)) == Some(id)
    ensures SelectedPet(pets, SelectDefault(pets, Some(id))).None?
  {
  }

  /** `addPet`: appends the pet and selects it. */
  function AddPet(d: Dashboard, pet: Pet): (r: Dashboard)
    ensures |r.data.pets| == |d.data.pets| + 1
    ensures d.data.pets <= r.data.pets && r.data.pets[|d.data.pets|] == pet
    ensures r.selectedPetId == Some(pet.id)
    ensures r.data.vaccinations == d.data.vaccinations && r.data.medications == d.data.medications &&
            r.data.appointments == d.data.appointments
  {
    Dashboard(d.data.(pets := d.data.pets + [pet]), Some(pet.id))
  }

  /** A freshly added pet with a new, non-empty id is the selected pet. */
  lemma AddedPetIsSelected(d: Dashboard, pet: Pet)
    requires pet.id != "" && !HasPet(d.data.pets, pet.id)
    ensures SelectedPet(AddPet(d, pet).data.pets, AddPet(d, pet).selectedPetId) == Some(pet)
  {
    var pets := AddPet(d, pet).data.pets;
    var r := SelectedPet(pets, Some(pet.id));
    assert pets[|d.data.pets|].id == pet.id;
    var k :| 0 <= k < |pets| && pets[k] == r.value && r.value.id == pet.id &&
             forall j :: 0 <= j < k ==> pets[j].id != pet.id;
  }

  /** `updatePet`: every pet with the updated pet's id is replaced by it. */
  function UpdatePet(d: Dashboard, updated: Pet): (r: Dashboard)
    ensures |r.data.pets| == |d.data.pets|
    ensures forall i :: 0 <= i < |d.data.pets| ==> r.data.pets[i].id == d.data.pets[i].id
    ensures forall i :: 0 <= i < |d.data.pets| && d.data.pets[i].id != updated.id ==>
              r.data.pets[i] == d.data.pets[i]
    ensures forall i :: 0 <= i < |d.data.pets| && d.data.pets[i].id == updated.id ==>
              r.data.pets[i] == updated
    ensures r.selectedPetId == d.selectedPetId
    ensures r.data.vaccinations == d.data.vaccinations && r.data.medications == d.data.medications &&
            r.data.appointments == d.data.appointments
  {
    Dashboard(d.data.(pets := ReplaceById(d.data.pets, updated)), d.selectedPetId)
  }

  /** Every pet with the id of `updated` replaced by `updated`. */
  function ReplaceById(pets: seq<Pet>, updated: Pet): (r: seq<Pet>)
    ensures |r| == |pets|
    ensures forall i :: 0 <= i < |pets| ==> r[i] == if pets[i].id == updated.id then updated else pets[i]
  {
    seq(|pets|, i requires 0 <= i < |pets| => if pets[i].id == updated.id then updated else pets[i])
  }

  /** Updating twice with the same pet is updating once. */
  lemma UpdatePetIdempotent(d: Dashboard, updated: Pet)
    ensures UpdatePet(UpdatePet(d, updated), updated) == UpdatePet(d, updated)
  {
  }

  /** After editing the selected pet, the selected pet is the edited one. */
  lemma UpdatedSelectedPetIsShown(d: Dashboard, updated: Pet)
    requires d.selectedPetId == Some(updated.id) && updated.id != "" && HasPet(d.data.pets, updated.id)
    ensures SelectedPet(UpdatePet(d, updated).data.pets, d.selectedPetId) == Some(updated)
  {
    ReplacedPetIsSelected(d.data.pets, updated);
  }

  /** Selecting by the id of a replacing pet finds the replacing pet. */
  lemma ReplacedPetIsSelected(pets: seq<Pet>, updated: Pet)
    requires updated.id != "" && HasPet(pets, updated.id)
    ensures SelectedPet(ReplaceById(pets, updated), Some(updated.id)) == Some(updated)
  {
    var after := ReplaceById(pets, updated);
    var i :| 0 <= i < |pets| && pets[i].id == updated.id;
    assert after[i].id == updated.id;
    var r := SelectedPet(after, Some(updated.id));
    var k :| 0 <= k < |after| && after[k] == r.value && r.value.id == updated.id &&
             forall j :: 0 <= j < k ==> after[j].id != updated.id;
    assert pets[k].id == updated.id;
  }

  /** `deletePet` of the dashboard: nothing happens without a selection;
      otherwise the selected pet and everything it owns are removed and the
      first remaining pet, if any, is selected. */
  function DeleteSelectedPet(d: Dashboard): (r: Dashboard)
    ensures !IsSetId(d.selectedPetId) ==> r == d
    ensures IsSetId(d.selectedPetId) ==>
              var id := d.selectedPetId.value;
              && IsSubseq(r.data.pets, d.data.pets)
              && (forall p :: p in r.data.pets <==> p in d.data.pets && p.id != id)
              && KeepsOtherPets(d.data.pets, r.data.pets, id)
              && SplitByOwner(d.data.vaccinations, r.data.vaccinations,
                              Filter(d.data.vaccinations, BelongsTo(VaccinationOwner, id)), VaccinationOwner, id)
              && SplitByOwner(d.data.medications, r.data.medications,
                              Filter(d.data.medications, BelongsTo(MedicationOwner, id)), MedicationOwner, id)
              && SplitByOwner(d.data.appointments, r.data.appointments,
                              Filter(d.data.appointments, BelongsTo(AppointmentOwner, id)), AppointmentOwner, id)
    ensures IsSetId(d.selectedPetId) ==>
              r.selectedPetId == if |r.data.pets| > 0 then Some(r.data.pets[0].id) else None
    ensures IsSetId(d.selectedPetId) && r.selectedPetId.Some? ==> HasPet(r.data.pets, r.selectedPetId.value)
  {
    if !IsSetId(d.selectedPetId) then d
    else
      var id := d.selectedPetId.value;
      var vs := SplitOff(d.data.vaccinations, VaccinationOwner, id);
      var ms := SplitOff(d.data.medications, MedicationOwner, id);
      var aps := SplitOff(d.data.appointments, AppointmentOwner, id);
      var remaining := PetsWithout(d.data.pets, id);
      Dashboard(Collections(remaining, vs.0, ms.0, aps.0),
                if |remaining| > 0 then Some(remaining[0].id) else None)
  }

  /** The dashboard's inline cascade removes exactly what the cascade-delete
      utility removes, whenever the selected pet exists. */
  lemma DeleteSelectedAgreesWithCascade(d: Dashboard)
    requires IsSetId(d.selectedPetId) && HasPet(d.data.pets, d.selectedPetId.value)
    ensures PetUtils.DeletePet(d.selectedPetId.value, d.data).Success?
    ensures DeleteSelectedPet(d).data == PetUtils.DeletePet(d.selectedPetId.value, d.data).value.updated
  {
  }

  /** Removes every record whose id is `id`, keeping the others in order. */
  function RemoveById<T(!new)>(s: seq<T>, idOf: T -> string, id: string): (r: seq<T>)
    ensures IsSubseq(r, s)
    ensures forall i :: 0 <= i < |r| ==> idOf(r[i]) != id
    ensures forall i :: 0 <= i < |s| && idOf(s[i]) != id ==> s[i] in r
    ensures forall x :: multiset(r)[x] == if idOf(x) != id then multiset(s)[x] else 0
  {
    FilterIsSubseq(s, IdIsNot(idOf, id));
    FilterCounts(s, IdIsNot(idOf, id));
    Filter(s, IdIsNot(idOf, id))
  }

  /** `addVaccination`: appends the record. */
  function AddVaccination(d: Dashboard, v: Vaccination): (r: Dashboard)
    ensures d.data.vaccinations <= r.data.vaccinations && r.data.vaccinations[|d.data.vaccinations|..] == [v]
    ensures r == d.(data := d.data.(vaccinations := r.data.vaccinations))
  {
    d.(data := d.data.(vaccinations := d.data.vaccinations + [v]))
  }

  /** `addMedication`: appends the record. */
  function AddMedication(d: Dashboard, m: Medication): (r: Dashboard)
    ensures d.data.medications <= r.data.medications && r.data.medications[|d.data.medications|..] == [m]
    ensures r == d.(data := d.data.(medications := r.data.medications))
  {
    d.(data := d.data.(medications := d.data.medications + [m]))
  }

  /** `addAppointment`: appends the record. */
  function AddAppointment(d: Dashboard, a: Appointment): (r: Dashboard)
    ensures d.data.appointments <= r.data.appointments && r.data.appointments[|d.data.appointments|..] == [a]
    ensures r == d.(data := d.data.(appointments := r.data.appointments))
  {
    d.(data := d.data.(appointments := d.data.appointments + [a]))
  }

  /** `deleteVaccination`: removes exactly the vaccinations with that id. */
  function DeleteVaccination(d: Dashboard, id: string): (r: Dashboard)
    ensures IsSubseq(r.data.vaccinations, d.data.vaccinations)
    ensures forall i :: 0 <= i < |r.data.vaccinations| ==> r.data.vaccinations[i].id != id
    ensures forall i :: 0 <= i < |d.data.vaccinations| && d.data.vaccinations[i].id != id ==>
              d.data.vaccinations[i] in r.data.vaccinations
    ensures forall x: Vaccination :: multiset(r.data.vaccinations)[x] == if x.id != id then multiset(d.data.vaccinations)[x] else 0
    ensures r == d.(data := d.data.(vaccinations := r.data.vaccinations))
  {
    d.(data := d.data.(vaccinations := RemoveById(d.data.vaccinations, VaccinationId, id)))
  }

  /** `deleteMedication`: removes exactly the medications with that id. */
  function DeleteMedication(d: Dashboard, id: string): (r: Dashboard)
    ensures IsSubseq(r.data.medications, d.data.medications)
    ensures forall i :: 0 <= i < |r.data.medications| ==> r.data.medications[i].id != id
    ensures forall i :: 0 <= i < |d.data.medications| && d.data.medications[i].id != id ==>
              d.data.medications[i] in r.data.medications
    ensures forall x: Medication :: multiset(r.data.medications)[x] == if x.id != id then multiset(d.data.medications)[x] else 0
    ensures r == d.(data := d.data.(medications := r.data.medications))
  {
    d.(data := d.data.(medications := RemoveById(d.data.medications, MedicationId, id)))
  }

  /** `deleteAppointment`: removes exactly the appointments with that id. */
  function DeleteAppointment(d: Dashboard, id: string): (r: Dashboard)
    ensures IsSubseq(r.data.appointments, d.data.appointments)
    ensures forall i :: 0 <= i < |r.data.appointments| ==> r.data.appointments[i].id != id
    ensures forall i :: 0 <= i < |d.data.appointments| && d.data.appointments[i].id != id ==>
              d.data.appointments[i] in r.data.appointments
    ensures forall x: Appointment :: multiset(r.data.appointments)[x] == if x.id != id then multiset(d.data.appointments)[x] else 0
    ensures r == d.(data := d.data.(appointments := r.data.appointments))
  {
    d.(data := d.data.(appointments := RemoveById(d.data.appointments, AppointmentId, id)))
  }

  /** Appending a record and then removing by its id, when no record had
      that id before, gives back the original collection. */
  lemma RemoveAfterAppendRestores<T(!new)>(s: seq<T>, x: T, idOf: T -> string)
    requires forall i :: 0 <= i < |s| ==> idOf(s[i]) != idOf(x)
    ensures RemoveById(s + [x], idOf, idOf(x)) == s
  {
    FilterAppend(s, [x], IdIsNot(idOf, idOf(x)));
    FilterAll(s, IdIsNot(idOf, idOf(x)));
    assert s + [] == s;
  }

  /** Deleting a just-added record with a fresh id undoes the addition. */
  lemma DeleteUndoesAdd(d: Dashboard, v: Vaccination, m: Medication, a: Appointment)
    requires forall i :: 0 <= i < |d.data.vaccinations| ==> d.data.vaccinations[i].id != v.id
    requires forall i :: 0 <= i < |d.data.medications| ==> d.data.medications[i].id != m.id
    requires forall i :: 0 <= i < |d.data.appointments| ==> d.data.appointments[i].id != a.id
    ensures DeleteVaccination(AddVaccination(d, v), v.id) == d
    ensures DeleteMedication(AddMedication(d, m), m.id) == d
    ensures DeleteAppointment(AddAppointment(d, a), a.id) == d
  {
    RemoveAfterAppendRestores(d.data.vaccinations, v, VaccinationId);
    RemoveAfterAppendRestores(d.data.medications, m, MedicationId);
    RemoveAfterAppendRestores(d.data.appointments, a, AppointmentId);
  }
}
