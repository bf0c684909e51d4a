/** Cascade delete and restore of a pet (`lib/utils/pet-utils.ts`). The four
    flat collections are passed in and returned; `restorePet` receives the
    collections it would have read from storage as a parameter. */
module PetUtils {
  import opened Wrappers
  import opened Seqs
  import opened Types

  /** The four persisted collections. */
  datatype Collections = Collections(
    pets: seq<Pet>,
    vaccinations: seq<Vaccination>,
    medications: seq<Medication>,
    appointments: seq<Appointment>)

  /** `DeletedPetData`: the snapshot a cascade delete produces. */
  datatype DeletedPetData = DeletedPetData(
    pet: Pet,
    vaccinations: seq<Vaccination>,
    medications: seq<Medication>,
    appointments: seq<Appointment>)

  /** What a successful `deletePet` returns. */
  datatype Deletion = Deletion(updated: Collections, deletedData: DeletedPetData)

  /** The error `deletePet` throws. */
  datatype DeleteError = PetNotFound(petId: string)

  function ErrorMessage(e: DeleteError): string {
    "Pet with ID " + e.petId + " not found"
  }

  predicate HasPet(pets: seq<Pet>, petId: string) {
    exists i :: 0 <= i < |pets| && pets[i].id == petId
  }

  /** `pet` is the first element of `pets` with id `petId`. */
  predicate IsFirstWithId(pets: seq<Pet>, petId: string, pet: Pet) {
    exists k :: 0 <= k < |pets| && pets[k] == pet && pet.id == petId &&
                forall j :: 0 <= j < k ==> pets[j].id != petId
  }

  /** No two pets share an id. */
  predicate UniqueIds(pets: seq<Pet>) {
    forall i, j :: 0 <= i < j < |pets| ==> pets[i].id != pets[j].id
  }

  /** `kept` and `removed` split `orig` by owner: each is an order-preserving
      subsequence, `removed` holds exactly the records owned by `petId`,
      `kept` exactly the others, and together they are `orig` as a multiset. */
  ghost predicate SplitByOwner<T(!new)>(orig: seq<T>, kept: seq<T>, removed: seq<T>,
                                        owner: T -> string, petId: string) {
    && IsSubseq(kept, orig)
    && IsSubseq(removed, orig)
    && (forall x :: x in kept <==> x in orig && owner(x) != petId)
    && (forall x :: x in removed <==> x in orig && owner(x) == petId)
    && |kept| + |removed| == |orig|
    && multiset(kept) + multiset(removed) == multiset(orig)
  }

  /** Filtering by owner and by not-owner splits a collection. */
  lemma FilterSplitsByOwner<T(!new)>(s: seq<T>, owner: T -> string, petId: string)
    ensures SplitByOwner(s, Filter(s, NotBelongsTo(owner, petId)), Filter(s, BelongsTo(owner, petId)),
                         owner, petId)
  {
    FilterIsSubseq(s, NotBelongsTo(owner, petId));
    FilterIsSubseq(s, BelongsTo(owner, petId));
    FilterPartition(s, BelongsTo(owner, petId), NotBelongsTo(owner, petId));
  }

  /** The records not owned by `petId` and those owned by it. */
  function SplitOff<T(!new)>(s: seq<T>, owner: T -> string, petId: string): (r: (seq<T>, seq<T>))
    ensures SplitByOwner(s, r.0, r.1, owner, petId)
  {
    FilterSplitsByOwner(s, owner, petId);
    (Filter(s, NotBelongsTo(owner, petId)), Filter(s, BelongsTo(owner, petId)))
  }

  /** Each pet without id `petId` occurs in `kept` as often as in `pets`,
      and no pet with that id occurs. */
  ghost predicate KeepsOtherPets(pets: seq<Pet>, kept: seq<Pet>, petId: string) {
    forall p :: multiset(kept)[p] == if p.id != petId then multiset(pets)[p] else 0
  }

  /** The pets without id `petId`, in order. */
  function PetsWithout(pets: seq<Pet>, petId: string): (r: seq<Pet>)
    ensures IsSubseq(r, pets)
    ensures forall p :: p in r <==> p in pets && p.id != petId
    ensures KeepsOtherPets(pets, r, petId)
  {
    FilterIsSubseq(pets, PetLacksId(petId));
    FilterCounts(pets, PetLacksId(petId));
    Filter(pets, PetLacksId(petId))
  }

  /** `deletePet`: fails when no pet has the id; otherwise snapshots the first
      such pet with every record it owns, and removes all pets with that id
      and all their records. */
  function DeletePet(petId: string, c: Collections): (r: Result<Deletion, DeleteError>)
    ensures r.Failure? <==> !HasPet(c.pets, petId)
    ensures r.Failure? ==> r.error == PetNotFound(petId)
    ensures r.Failure? ==> ErrorMessage(r.error) == "Pet with ID " + petId + " not found"
    ensures r.Success? ==> IsFirstWithId(c.pets, petId, r.value.deletedData.pet)
    ensures r.Success? ==>
              && IsSubseq(r.value.updated.pets, c.pets)
              && (forall p :: p in r.value.updated.pets <==> p in c.pets && p.id != petId)
    ensures r.Success? ==>
              SplitByOwner(c.vaccinations, r.value.updated.vaccinations, r.value.deletedData.vaccinations,
                           VaccinationOwner, petId)
    ensures r.Success? ==>
              SplitByOwner(c.medications, r.value.updated.medications, r.value.deletedData.medications,
                           MedicationOwner, petId)
    ensures r.Success? ==>
              SplitByOwner(c.appointments, r.value.updated.appointments, r.value.deletedData.appointments,
                           AppointmentOwner, petId)
  {
    var found := FindFirst(c.pets, PetHasId(petId));
    if found.None? then Failure(PetNotFound(petId)) else Success(Cascade(c, petId, found.value))
  }

  /** The successful half of `deletePet`: `pet` is the snapshot of the pet,
      and the pets and records of `petId` move from the collections to it. */
  function Cascade(c: Collections, petId: string, pet: Pet): (r: Deletion)
    ensures r.deletedData.pet == pet
    ensures IsSubseq(r.updated.pets, c.pets) && (forall p :: p in r.updated.pets <==> p in c.pets && p.id != petId)
    ensures KeepsOtherPets(c.pets, r.updated.pets, petId)
    ensures SplitByOwner(c.vaccinations, r.updated.vaccinations, r.deletedData.vaccinations, VaccinationOwner, petId)
    ensures SplitByOwner(c.medications, r.updated.medications, r.deletedData.medications, MedicationOwner, petId)
    ensures SplitByOwner(c.appointments, r.updated.appointments, r.deletedData.appointments, AppointmentOwner, petId)
  {
    var vs := SplitOff(c.vaccinations, VaccinationOwner, petId);
    var ms := SplitOff(c.medications, MedicationOwner, petId);
    var aps := SplitOff(c.appointments, AppointmentOwner, petId);
    Deletion(Collections(PetsWithout(c.pets, petId), vs.0, ms.0, aps.0), DeletedPetData(pet, vs.1, ms.1, aps.1))
  }

  /** `restorePet`: appends the snapshot's pet and records to the current
      collections, without checking for ids already present. */
  function RestorePet(d: DeletedPetData, current: Collections): (r: Collections)
    ensures current.pets <= r.pets && multiset(r.pets) == multiset(current.pets) + multiset{d.pet}
    ensures current.vaccinations <= r.vaccinations &&
            multiset(r.vaccinations) == multiset(current.vaccinations) + multiset(d.vaccinations)
    ensures current.medications <= r.medications &&
            multiset(r.medications) == multiset(current.medications) + multiset(d.medications)
    ensures current.appointments <= r.appointments &&
            multiset(r.appointments) == multiset(current.appointments) + multiset(d.appointments)
    ensures r.pets[|current.pets|..] == [d.pet]
    ensures r.vaccinations[|current.vaccinations|..] == d.vaccinations
    ensures r.medications[|current.medications|..] == d.medications
    ensures r.appointments[|current.appointments|..] == d.appointments
  {
    Collections(
      current.pets + [d.pet],
      current.vaccinations + d.vaccinations,
      current.medications + d.medications,
      current.appointments + d.appointments)
  }

  /** Records of every other pet are exactly as they were, in the same order. */
  lemma DeleteLeavesOtherPetsUntouched(petId: string, c: Collections, other: string)
    requires HasPet(c.pets, petId) && other != petId
    ensures DeletePet(petId, c).Success?
    ensures var u := DeletePet(petId, c).value.updated;
            && Filter(u.pets, PetHasId(other)) == Filter(c.pets, PetHasId(other))
            && Filter(u.vaccinations, BelongsTo(VaccinationOwner, other)) ==
               Filter(c.vaccinations, BelongsTo(VaccinationOwner, other))
            && Filter(u.medications, BelongsTo(MedicationOwner, other)) ==
               Filter(c.medications, BelongsTo(MedicationOwner, other))
            && Filter(u.appointments, BelongsTo(AppointmentOwner, other)) ==
               Filter(c.appointments, BelongsTo(AppointmentOwner, other))
  {
    FilterFilterStronger(c.pets, PetLacksId(petId), PetHasId(other));
    FilterFilterStronger(c.vaccinations, NotBelongsTo(VaccinationOwner, petId), BelongsTo(VaccinationOwner, other));
    FilterFilterStronger(c.medications, NotBelongsTo(MedicationOwner, petId), BelongsTo(MedicationOwner, other));
    FilterFilterStronger(c.appointments, NotBelongsTo(AppointmentOwner, petId), BelongsTo(AppointmentOwner, other));
  }

  /** Round trip: with unique pet ids, restoring the snapshot onto the
      collections that `deletePet` returned gives back the original
      collections, up to order. */
  lemma RestoreUndoesDelete(petId: string, c: Collections)
    requires HasPet(c.pets, petId) && UniqueIds(c.pets)
    ensures DeletePet(petId, c).Success?
    ensures var d := DeletePet(petId, c).value;
            var back := RestorePet(d.deletedData, d.updated);
            && multiset(back.pets) == multiset(c.pets)
            && multiset(back.vaccinations) == multiset(c.vaccinations)
            && multiset(back.medications) == multiset(c.medications)
            && multiset(back.appointments) == multiset(c.appointments)
  {
    var d := DeletePet(petId, c).value;
    var k :| 0 <= k < |c.pets| && c.pets[k] == d.deletedData.pet &&
             d.deletedData.pet.id == petId && forall j :: 0 <= j < k ==> c.pets[j].id != petId;
    RemovedUniquePetIsOne(c.pets, petId, k);
  }

  /** With unique ids, the pets without `petId` plus the one pet with it are
      all the pets. */
  lemma RemovedUniquePetIsOne(pets: seq<Pet>, petId: string, k: nat)
    requires UniqueIds(pets) && k < |pets| && pets[k].id == petId
    ensures multiset(PetsWithout(pets, petId)) + multiset{pets[k]} == multiset(pets)
  {
    FilterSingleMatch(pets, PetHasId(petId), k);
    FilterPartition(pets, PetHasId(petId), PetLacksId(petId));
  }

  /** With two pets sharing the id, every copy is removed but only the first
      is kept in the snapshot, so restoring loses pets. */
  lemma DuplicateIdsBreakRoundTrip(petId: string, c: Collections, i: nat, j: nat)
    requires i < j < |c.pets| && c.pets[i].id == petId && c.pets[j].id == petId
    ensures DeletePet(petId, c).Success?
    ensures var d := DeletePet(petId, c).value;
            |RestorePet(d.deletedData, d.updated).pets| < |c.pets|
  {
    FilterTwoMatches(c.pets, PetHasId(petId), i, j);
    FilterPartition(c.pets, PetHasId(petId), PetLacksId(petId));
  }

  /** Restoring the same snapshot twice adds its pet twice: restore does no
      deduplication. */
  lemma RestoreTwiceDuplicates(d: DeletedPetData, current: Collections)
    ensures var twice := RestorePet(d, RestorePet(d, current));
            && multiset(twice.pets)[d.pet] == multiset(current.pets)[d.pet] + 2
            && twice.pets == current.pets + [d.pet, d.pet]
            && |twice.vaccinations| == |current.vaccinations| + 2 * |d.vaccinations|
            && twice.vaccinations == current.vaccinations + d.vaccinations + d.vaccinations
            && |twice.medications| == |current.medications| + 2 * |d.medications|
            && twice.medications == current.medications + d.medications + d.medications
            && |twice.appointments| == |current.appointments| + 2 * |d.appointments|
            && twice.appointments == current.appointments + d.appointments + d.appointments
  {
  }

  /** A pet that is the only pet and owns every record: deleting it empties
      all four collections, and restoring onto the emptied collections
      rebuilds the originals exactly. */
  lemma SoleOwnerRoundTripIsExact(c: Collections)
    requires |c.pets| == 1
    requires forall i :: 0 <= i < |c.vaccinations| ==> c.vaccinations[i].petId == c.pets[0].id
    requires forall i :: 0 <= i < |c.medications| ==> c.medications[i].petId == c.pets[0].id
    requires forall i :: 0 <= i < |c.appointments| ==> c.appointments[i].petId == c.pets[0].id
    ensures DeletePet(c.pets[0].id, c).Success?
    ensures var d := DeletePet(c.pets[0].id, c).value;
            && d.updated == Collections([], [], [], [])
            && RestorePet(d.deletedData, d.updated) == c
  {
    var id := c.pets[0].id;
    assert HasPet(c.pets, id);
    var d := DeletePet(id, c).value;
    OwnedByAll(c.vaccinations, d.updated.vaccinations, d.deletedData.vaccinations, VaccinationOwner, id);
    OwnedByAll(c.medications, d.updated.medications, d.deletedData.medications, MedicationOwner, id);
    OwnedByAll(c.appointments, d.updated.appointments, d.deletedData.appointments, AppointmentOwner, id);
    OnlyPetRemoved(c.pets);
  }

  /** Removing the id of the only pet leaves no pets. */
  lemma OnlyPetRemoved(pets: seq<Pet>)
    requires |pets| == 1
    ensures PetsWithout(pets, pets[0].id) == [] && [pets[0]] == pets
  {
  }

  /** When `petId` owns every record, a split by owner keeps nothing and
      removes everything. */
  lemma OwnedByAll<T(!new)>(orig: seq<T>, kept: seq<T>, removed: seq<T>, owner: T -> string, petId: string)
    requires SplitByOwner(orig, kept, removed, owner, petId)
    requires forall i :: 0 <= i < |orig| ==> owner(orig[i]) == petId
    ensures kept == [] && removed == orig
  {
    if |kept| > 0 {
      HeadIsMember(kept);
      assert false;
    }
    SubseqLength(removed, orig);
  }
}
