/** The user service and the pet service over their two in-memory stores.
    They call each other (a pet's owner is checked and linked through the
    user service; deleting a user deletes its pets through the pet service),
    so both live in one object here, each with its own id counter. */
module Services {
  import opened Wrappers
  import opened Text
  import opened Lists
  import opened UserModel
  import opened PetModel
  import opened ErrorHandling
  import opened IdManagement
  import opened Ownership

  /** `"User with %d not found".formatted(id)`; a null id prints as "null". */
  function UserNotFoundMessage(id: Option<int>): string {
    "User with " + FormatNullableLong(id) + " not found"
  }

  /** `"Owner with id " + userId + " not found"`. */
  function OwnerNotFoundMessage(id: int): string {
    "Owner with id " + LongToString(id) + " not found"
  }

  /** `"Pet with id " + id + " not found"`. */
  function PetNotFoundMessage(id: int): string {
    "Pet with id " + LongToString(id) + " not found"
  }

  lemma FramedInjective(prefix: string, x: string, y: string, suffix: string)
    requires prefix + x + suffix == prefix + y + suffix
    ensures x == y
  {
    var s := prefix + x + suffix;
    assert x == s[|prefix|..|prefix| + |x|];
  }

  /** Each not-found message names its id unambiguously. */
  lemma NotFoundMessagesNameTheirId(a: int, b: int)
    ensures PetNotFoundMessage(a) == PetNotFoundMessage(b) ==> a == b
    ensures OwnerNotFoundMessage(a) == OwnerNotFoundMessage(b) ==> a == b
    ensures UserNotFoundMessage(Some(a)) == UserNotFoundMessage(Some(b)) ==> a == b
    ensures UserNotFoundMessage(Some(a)) != UserNotFoundMessage(None)
  {
    if PetNotFoundMessage(a) == PetNotFoundMessage(b) {
      FramedInjective("Pet with id ", LongToString(a), LongToString(b), " not found");
      LongToStringInjective(a, b);
    }
    if OwnerNotFoundMessage(a) == OwnerNotFoundMessage(b) {
      FramedInjective("Owner with id ", LongToString(a), LongToString(b), " not found");
      LongToStringInjective(a, b);
    }
    if UserNotFoundMessage(Some(a)) == UserNotFoundMessage(Some(b)) {
      FramedInjective("User with ", LongToString(a), LongToString(b), " not found");
      LongToStringInjective(a, b);
    }
    if UserNotFoundMessage(Some(a)) == UserNotFoundMessage(None) {
      FramedInjective("User with ", LongToString(a), "null", " not found");
    }
  }

  /** Removing the head of the remaining list leaves its tail. */
  lemma UnlinkHead(users: map<int, User>, u: int, s: seq<int>, i: int)
    requires u in users && 0 <= i < |s|
    ensures var before := users[u := users[u].(pets := s[i..])];
            Unlinked(before, u, s[i]) == users[u := users[u].(pets := s[i + 1..])]
  {
    assert s[i..][1..] == s[i + 1..];
  }

  lemma ElemsPrefixStep(s: seq<int>, i: int)
    requires 0 <= i < |s|
    ensures Elems(s[..i + 1]) == Elems(s[..i]) + {s[i]}
  {
    assert s[..i + 1] == s[..i] + [s[i]];
  }

  class Registry {
    /** The user service's store. */
    var users: map<int, User>
    /** The pet service's store. */
    var pets: map<int, Pet>
    /** The user service's id counter. */
    const userIds: IdManager
    /** The pet service's id counter. */
    const petIds: IdManager

    /** Two independent counters, consistent stores, and every stored id
        already issued by its counter. */
    ghost predicate Valid()
      reads this, userIds, petIds
    {
      && userIds != petIds
      && userIds.Valid() && petIds.Valid()
      && Consistent(users, pets)
      && (forall u :: u in users ==> 1 <= u <= userIds.idCounter)
      && (forall p :: p in pets ==> 1 <= p <= petIds.idCounter)
    }

    /** Both stores start empty and neither counter has issued an id. */
    constructor ()
      ensures Valid() && fresh(userIds) && fresh(petIds)
      ensures users == map[] && pets == map[]
      ensures userIds.idCounter == 0 && petIds.idCounter == 0
    {
      users := map[];
      pets := map[];
      userIds := new IdManager();
      petIds := new IdManager();
    }

    // ----- user service -----

    /** `createUser`: stores the user under the next user id with an empty
        pet list. Only the user counter moves. */
    method CreateUser(name: string, email: string, age: int) returns (user: User)
      requires Valid()
      modifies this, userIds
      ensures Valid()
      ensures user == User(old(userIds.idCounter) + 1, name, email, age, [])
      ensures user.id !in old(users)
      ensures users == old(users)[user.id := user] && pets == old(pets)
      ensures userIds.idCounter == old(userIds.idCounter) + 1
      ensures petIds.idCounter == old(petIds.idCounter)
    {
      var id := userIds.GetNextId();
      user := User(id, name, email, age, []);
      AddUserConsistent(users, pets, user);
      users := users[id := user];
    }

    /** `getById`: the stored user, or not found. */
    method GetById(id: int) returns (r: Result<User, Exception>)
      ensures id in users ==> r == Success(users[id])
      ensures id !in users ==> r == Failure(UserNotFound(UserNotFoundMessage(Some(id))))
    {
      if id in users {
        r := Success(users[id]);
      } else {
        r := Failure(UserNotFound(UserNotFoundMessage(Some(id))));
      }
    }

    /** `updateUser`: overwrites name, email and age of a stored user; its id
        and pet list stay. A missing user changes nothing. */
    method UpdateUser(id: int, name: string, email: string, age: int) returns (r: Result<User, Exception>)
      requires Valid()
      modifies this
      ensures Valid()
      ensures pets == old(pets)
      ensures id !in old(users) ==>
                r == Failure(UserNotFound(UserNotFoundMessage(Some(id)))) && users == old(users)
      ensures id in old(users) ==>
                && r == Success(old(users)[id].(name := name, email := email, age := age))
                && r.value.id == id && r.value.pets == old(users)[id].pets
                && users == old(users)[id := r.value]
    {
      var found := GetById(id);
      if found.Failure? {
        return found;
      }
      var updated := found.value.(name := name, email := email, age := age);
      UpdateUserConsistent(users, pets, id, name, email, age);
      users := users[id := updated];
      r := Success(updated);
    }

    /** `deleteUser` as intended: every pet of the user is deleted through
        the pet service, then the user is removed. The pets are visited from a
        copy of the list, since each deletion removes from the list itself
        (see DeleteUserAsWritten for what iterating the live list does). */
    method DeleteUser(id: int) returns (r: Outcome<Exception>)
      requires Valid()
      modifies this
      ensures Valid()
      ensures id !in old(users) ==>
                r == Fail(UserNotFound(UserNotFoundMessage(Some(id)))) && users == old(users) && pets == old(pets)
      ensures id in old(users) ==>
                && r == Pass
                && Elems(old(users)[id].pets) == OwnedBy(old(pets), id)
                && users == old(users) - {id}
                && pets == old(pets) - Elems(old(users)[id].pets)
      ensures OwnedBy(pets, id) == {}
    {
      var found := GetById(id);
      if found.Failure? {
        MissingUserOwnsNothing(users, pets, id);
        return Fail(found.error);
      }
      ListIsOwnedSet(users, pets, id);
      DeleteListedPets(id);
      RemoveUserConsistent(users, pets, id);
      users := users - {id};
      r := Pass;
    }

    /** The cascade of `deleteUser`: `deletePet` for every pet in the user's
        list, which empties the list and removes exactly those pets. */
    method DeleteListedPets(id: int)
      requires Valid() && id in users
      modifies this
      ensures Valid()
      ensures users == old(users)[id := old(users)[id].(pets := [])]
      ensures pets == old(pets) - Elems(old(users)[id].pets)
    {
      var snapshot := users[id].pets;
      ghost var users0, pets0 := users, pets;
      var i := 0;
      while i < |snapshot|
        invariant 0 <= i <= |snapshot|
        invariant Valid()
        invariant users == users0[id := users0[id].(pets := snapshot[i..])]
        invariant pets == pets0 - Elems(snapshot[..i])
      {
        var p := snapshot[i];
        assert p in users[id].pets;
        var deleted := DeletePet(p);
        UnlinkHead(users0, id, snapshot, i);
        ElemsPrefixStep(snapshot, i);
        i := i + 1;
      }
      assert snapshot[..i] == snapshot;
    }

    /** `deleteUser` as written: `ArrayList.forEach` re-checks the list's
        modification count after each action. The first `deletePet` removes
        that pet from this very list, so the iteration stops and throws a
        `ConcurrentModificationException`, which carries no message: the first
        pet is gone, the user and its other pets stay. */
    method DeleteUserAsWritten(id: int) returns (r: Outcome<Exception>)
      requires Valid()
      modifies this
      ensures Valid()
      ensures id !in old(users) ==>
                r == Fail(UserNotFound(UserNotFoundMessage(Some(id)))) && users == old(users) && pets == old(pets)
      ensures id in old(users) && old(users)[id].pets == [] ==>
                r == Pass && users == old(users) - {id} && pets == old(pets)
      ensures id in old(users) && old(users)[id].pets != [] ==>
                && r == Fail(Other(None))
                && id in users
                && users == old(users)[id := old(users)[id].(pets := old(users)[id].pets[1..])]
                && pets == old(pets) - {old(users)[id].pets[0]}
    {
      var found := GetById(id);
      if found.Failure? {
        return Fail(found.error);
      }
      var list := found.value.pets;
      if list != [] {
        assert list[0] in users[id].pets;
        var deleted := DeletePet(list[0]);
        return Fail(Other(None));
      }
      RemoveUserConsistent(users, pets, id);
      users := users - {id};
      r := Pass;
    }

    /** `checkIfUserExists`: whether a user is stored under `id`. */
    method CheckIfUserExists(id: int) returns (b: bool)
      ensures b <==> id in users
    {
      b := id in users;
    }

    /** `addPetToUser`: appends the pet to the user's list and makes the user
        its owner; a missing user fails before any change. The services call
        it only with a pet that has no owner. */
    method AddPetToUser(userId: int, petId: int) returns (r: Outcome<Exception>)
      requires Valid() && petId in pets && pets[petId].owner.None?
      modifies this
      ensures Valid()
      ensures userId !in old(users) ==>
                r == Fail(UserNotFound(UserNotFoundMessage(Some(userId)))) && users == old(users) && pets == old(pets)
      ensures userId in old(users) ==>
                && r == Pass
                && users == Linked(old(users), userId, petId)
                && pets == WithOwner(old(pets), petId, Some(userId))
    {
      var found := GetById(userId);
      if found.Failure? {
        return Fail(found.error);
      }
      AttachConsistent(users, pets, userId, petId);
      users := Linked(users, userId, petId);
      pets := WithOwner(pets, petId, Some(userId));
      r := Pass;
    }

    // ----- pet service -----

    /** `createPet`: fails before an id is consumed when the owner does not
        exist; otherwise stores the pet under the next pet id and links it to
        its owner. Only the pet counter moves. */
    method CreatePet(name: string, userId: int) returns (r: Result<Pet, Exception>)
      requires Valid()
      modifies this, petIds
      ensures Valid()
      ensures userIds.idCounter == old(userIds.idCounter)
      ensures userId !in old(users) ==>
                && r == Failure(UserNotFound(OwnerNotFoundMessage(userId)))
                && users == old(users) && pets == old(pets)
                && petIds.idCounter == old(petIds.idCounter)
      ensures userId in old(users) ==>
                && r == Success(Pet(old(petIds.idCounter) + 1, name, Some(userId)))
                && r.value.id !in old(pets)
                && pets == old(pets)[r.value.id := r.value]
                && users == Linked(old(users), userId, r.value.id)
                && petIds.idCounter == old(petIds.idCounter) + 1
    {
      var ownerExists := CheckIfUserExists(userId);
      if !ownerExists {
        return Failure(UserNotFound(OwnerNotFoundMessage(userId)));
      }
      var id := petIds.GetNextId();
      // The pet is stored first and then linked; the link sets the owner id
      // the payload already carried.
      var pet := Pet(id, name, None);
      AddOrphanConsistent(users, pets, pet);
      pets := pets[id := pet];
      var linked := AddPetToUser(userId, id);
      r := Success(pets[id]);
    }

    /** `getPetById`: the stored pet, or not found. */
    method GetPetById(id: int) returns (r: Result<Pet, Exception>)
      ensures id in pets ==> r == Success(pets[id])
      ensures id !in pets ==> r == Failure(PetNotFound(PetNotFoundMessage(id)))
    {
      if id in pets {
        r := Success(pets[id]);
      } else {
        r := Failure(PetNotFound(PetNotFoundMessage(id)));
      }
    }

    /** `updatePet`: renames the pet, detaches it from its owner, then checks
        the new owner and links the pet to it. The checks come after the
        changes: a pet without owner is renamed and then fails on the lookup of
        its null owner; a missing new owner leaves the pet renamed, without
        owner and in no list. */
    method UpdatePet(petId: int, name: string, userId: int) returns (r: Result<Pet, Exception>)
      requires Valid()
      modifies this
      ensures Valid()
      ensures petId !in old(pets) ==>
                r == Failure(PetNotFound(PetNotFoundMessage(petId))) && users == old(users) && pets == old(pets)
      ensures petId in old(pets) && old(pets)[petId].owner.None? ==>
                && r == Failure(UserNotFound(UserNotFoundMessage(None)))
                && users == old(users)
                && pets == old(pets)[petId := Pet(petId, name, None)]
      ensures petId in old(pets) && old(pets)[petId].owner.Some? && userId !in old(users) ==>
                && old(pets)[petId].owner.value in old(users)
                && r == Failure(UserNotFound(OwnerNotFoundMessage(userId)))
                && users == Unlinked(old(users), old(pets)[petId].owner.value, petId)
                && pets == old(pets)[petId := Pet(petId, name, None)]
                && (forall u :: u in users ==> petId !in users[u].pets)
      ensures petId in old(pets) && old(pets)[petId].owner.Some? && userId in old(users) ==>
                && old(pets)[petId].owner.value in old(users)
                && r == Success(Pet(petId, name, Some(userId)))
                && users == Linked(Unlinked(old(users), old(pets)[petId].owner.value, petId), userId, petId)
                && pets == old(pets)[petId := r.value]
    {
      var found := GetPetById(petId);
      if found.Failure? {
        return found;
      }
      RenamePetConsistent(users, pets, petId, name);
      pets := pets[petId := found.value.(name := name)];
      var removed := RemovePetFromOwner(petId);
      if removed.Fail? {
        return Failure(removed.error);
      }
      var ownerExists := CheckIfUserExists(userId);
      if !ownerExists {
        return Failure(UserNotFound(OwnerNotFoundMessage(userId)));
      }
      var linked := AddPetToUser(userId, petId);
      r := Success(pets[petId]);
    }

    /** `updatePet` with the new owner checked before anything changes: a
        failed update changes nothing and no pet ever loses its owner. A pet
        that already has no owner is simply attached. */
    method UpdatePetOwnerFirst(petId: int, name: string, userId: int) returns (r: Result<Pet, Exception>)
      requires Valid()
      modifies this
      ensures Valid()
      ensures r.Failure? ==> users == old(users) && pets == old(pets)
      ensures petId !in old(pets) ==> r == Failure(PetNotFound(PetNotFoundMessage(petId)))
      ensures petId in old(pets) && userId !in old(users) ==>
                r == Failure(UserNotFound(OwnerNotFoundMessage(userId)))
      ensures petId in old(pets) && userId in old(users) ==>
                && r == Success(Pet(petId, name, Some(userId)))
                && pets == old(pets)[petId := r.value]
                && users == Linked(if old(pets)[petId].owner.Some?
                                   then Unlinked(old(users), old(pets)[petId].owner.value, petId)
                                   else old(users), userId, petId)
      ensures forall p :: p in old(pets) && old(pets)[p].owner.Some? ==> p in pets && pets[p].owner.Some?
    {
      var found := GetPetById(petId);
      if found.Failure? {
        return found;
      }
      var ownerExists := CheckIfUserExists(userId);
      if !ownerExists {
        return Failure(UserNotFound(OwnerNotFoundMessage(userId)));
      }
      RenamePetConsistent(users, pets, petId, name);
      pets := pets[petId := found.value.(name := name)];
      if found.value.owner.Some? {
        var removed := RemovePetFromOwner(petId);
      }
      var linked := AddPetToUser(userId, petId);
      r := Success(pets[petId]);
    }

    /** `deletePet`: detaches the pet from its owner, then removes it. A
        missing pet, or one without owner, fails and changes nothing. */
    method DeletePet(id: int) returns (r: Outcome<Exception>)
      requires Valid()
      modifies this
      ensures Valid()
      ensures id !in old(pets) ==>
                r == Fail(PetNotFound(PetNotFoundMessage(id))) && users == old(users) && pets == old(pets)
      ensures id in old(pets) && old(pets)[id].owner.None? ==>
                r == Fail(UserNotFound(UserNotFoundMessage(None))) && users == old(users) && pets == old(pets)
      ensures id in old(pets) && old(pets)[id].owner.Some? ==>
                && r == Pass
                && old(pets)[id].owner.value in old(users)
                && users == Unlinked(old(users), old(pets)[id].owner.value, id)
                && pets == old(pets) - {id}
    {
      r := RemovePetFromOwner(id);
      if r.Fail? {
        return;
      }
      RemoveOrphanConsistent(users, pets, id);
      pets := pets - {id};
    }

    /** `removePetFromOwner`: removes the pet from its owner's list and clears
        its owner. A missing pet fails; so does a pet without owner, whose
        owner lookup is `getById(null)`. */
    method RemovePetFromOwner(petId: int) returns (r: Outcome<Exception>)
      requires Valid()
      modifies this
      ensures Valid()
      ensures petId !in old(pets) ==>
                r == Fail(PetNotFound(PetNotFoundMessage(petId))) && users == old(users) && pets == old(pets)
      ensures petId in old(pets) && old(pets)[petId].owner.None? ==>
                r == Fail(UserNotFound(UserNotFoundMessage(None))) && users == old(users) && pets == old(pets)
      ensures petId in old(pets) && old(pets)[petId].owner.Some? ==>
                && r == Pass
                && old(pets)[petId].owner.value in old(users)
                && users == Unlinked(old(users), old(pets)[petId].owner.value, petId)
                && pets == WithOwner(old(pets), petId, None)
                && (forall u :: u in users ==> petId !in users[u].pets)
    {
      var found := GetPetById(petId);
      if found.Failure? {
        return Fail(found.error);
      }
      var pet := found.value;
      if pet.owner.None? {
        // No user is stored under a null id.
        return Fail(UserNotFound(UserNotFoundMessage(None)));
      }
      var ownerFound := GetById(pet.owner.value);
      assert ownerFound.Success?;
      DetachConsistent(users, pets, petId);
      users := Unlinked(users, pet.owner.value, petId);
      pets := WithOwner(pets, petId, None);
      r := Pass;
    }
  }

  /** An owner with one pet is deleted. As written, the pet is deleted and
      the request then fails with status 500 while the owner stays stored;
      the intended cascade deletes both. */
  method DeleteOwnerScenario() returns (asWritten: Outcome<Exception>, ownerStays: bool,
                                        intended: Outcome<Exception>, petGone: bool, ownerGone: bool)
    ensures asWritten == Fail(Other(None)) && ownerStays
    ensures Handle(asWritten.error).status == InternalServerError
    ensures intended == Pass && petGone && ownerGone
  {
    var live := new Registry();
    var owner := live.CreateUser("owner", "owner@owner.com", 24);
    var pet := live.CreatePet("petToCreate", owner.id);
    asWritten := live.DeleteUserAsWritten(owner.id);
    ownerStays := live.CheckIfUserExists(owner.id);

    var copy := new Registry();
    owner := copy.CreateUser("owner", "owner@owner.com", 24);
    pet := copy.CreatePet("petToCreate", owner.id);
    intended := copy.DeleteUser(owner.id);
    var found := copy.GetPetById(pet.value.id);
    petGone := found.Failure?;
    var ownerExists := copy.CheckIfUserExists(owner.id);
    ownerGone := !ownerExists;
  }

  /** A pet moved to an owner that does not exist is left renamed and
      without owner; from then on it cannot be deleted, and every further
      update renames it and fails. */
  method OrphanScenario() returns (moved: Result<Pet, Exception>, deleted: Outcome<Exception>,
                                   renamed: Result<Pet, Exception>, stored: Result<Pet, Exception>)
    ensures moved == Failure(UserNotFound(OwnerNotFoundMessage(2)))
    ensures deleted == Fail(UserNotFound(UserNotFoundMessage(None)))
    ensures renamed == Failure(UserNotFound(UserNotFoundMessage(None)))
    ensures stored == Success(Pet(1, "secondName", None))
  {
    var r := new Registry();
    var owner := r.CreateUser("owner", "owner@owner.com", 24);
    var pet := r.CreatePet("petToCreate", owner.id);
    moved := r.UpdatePet(pet.value.id, "firstName", 2);
    deleted := r.DeletePet(pet.value.id);
    renamed := r.UpdatePet(pet.value.id, "secondName", owner.id);
    stored := r.GetPetById(pet.value.id);
  }
}
