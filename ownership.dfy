/** The link between the two stores: a user's pet list and the pets' owner
    ids must describe the same ownership. The functions here are the store
    updates the services make; the lemmas say which of them keep the stores
    consistent. */
module Ownership {
  import opened Wrappers
  import opened Lists
  import opened UserModel
  import opened PetModel

  /** Each record is stored under its own id. */
  ghost predicate KeysMatch(users: map<int, User>, pets: map<int, Pet>) {
    && (forall u :: u in users ==> users[u].id == u)
    && (forall p :: p in pets ==> pets[p].id == p)
  }

  /** Each user's list holds stored pets owned by that user, each once. */
  ghost predicate ListsHoldOwnedPets(users: map<int, User>, pets: map<int, Pet>) {
    && (forall u :: u in users ==> Distinct(users[u].pets))
    && (forall u, p :: u in users && p in users[u].pets ==> p in pets && pets[p].owner == Some(u))
  }

  /** Each owned pet's owner exists and lists it. A pet without owner is in no list. */
  ghost predicate OwnersListTheirPets(users: map<int, User>, pets: map<int, Pet>) {
    forall p :: p in pets && pets[p].owner.Some? ==>
      pets[p].owner.value in users && p in users[pets[p].owner.value].pets
  }

  ghost predicate Consistent(users: map<int, User>, pets: map<int, Pet>) {
    && KeysMatch(users, pets)
    && ListsHoldOwnedPets(users, pets)
    && OwnersListTheirPets(users, pets)
  }

  /** The pets whose owner is `u`, read off the pet store. */
  ghost function OwnedBy(pets: map<int, Pet>, u: int): set<int> {
    set p | p in pets && pets[p].owner == Some(u)
  }

  /** `user.getPets().add(pet)` on the user store. */
  function Linked(users: map<int, User>, u: int, p: int): map<int, User>
    requires u in users
  {
    users[u := users[u].(pets := users[u].pets + [p])]
  }

  /** `owner.getPets().remove(pet)` on the user store. */
  function Unlinked(users: map<int, User>, u: int, p: int): map<int, User>
    requires u in users
  {
    users[u := users[u].(pets := RemoveFirst(users[u].pets, p))]
  }

  /** `pet.setUserId(owner)` on the pet store. */
  function WithOwner(pets: map<int, Pet>, p: int, owner: Option<int>): map<int, Pet>
    requires p in pets
  {
    pets[p := pets[p].(owner := owner)]
  }

  /** In a consistent store a user's list is exactly the set of pets whose
      owner is that user, and it holds each of them once. */
  lemma ListIsOwnedSet(users: map<int, User>, pets: map<int, Pet>, u: int)
    requires Consistent(users, pets) && u in users
    ensures Elems(users[u].pets) == OwnedBy(pets, u)
    ensures |users[u].pets| == |OwnedBy(pets, u)|
  {
    forall p | p in OwnedBy(pets, u) ensures p in Elems(users[u].pets) {
      assert pets[p].owner.Some?;
    }
    DistinctCardinality(users[u].pets);
  }

  /** A user that is not stored owns no pet. */
  lemma MissingUserOwnsNothing(users: map<int, User>, pets: map<int, Pet>, u: int)
    requires Consistent(users, pets) && u !in users
    ensures OwnedBy(pets, u) == {}
  {
    forall p | p in pets && pets[p].owner.Some? ensures pets[p].owner != Some(u) {
      assert pets[p].owner.value in users;
    }
  }

  /** Equality by id coincides with identity among stored users. */
  lemma StoredUsersEqualById(users: map<int, User>, pets: map<int, Pet>, a: int, b: int)
    requires Consistent(users, pets) && a in users && b in users
    ensures SameUser(users[a], users[b]) <==> users[a] == users[b]
  {
  }

  /** Storing a new user with an empty list keeps the stores consistent. */
  lemma AddUserConsistent(users: map<int, User>, pets: map<int, Pet>, user: User)
    requires Consistent(users, pets) && user.id !in users && user.pets == []
    ensures Consistent(users[user.id := user], pets)
  {
  }

  /** Overwriting a user's name, email and age keeps the stores consistent. */
  lemma UpdateUserConsistent(users: map<int, User>, pets: map<int, Pet>, u: int, name: string, email: string, age: int)
    requires Consistent(users, pets) && u in users
    ensures Consistent(users[u := users[u].(name := name, email := email, age := age)], pets)
  {
  }

  /** Removing a user whose list is empty keeps the stores consistent, and no
      pet is left owned by it. */
  lemma RemoveUserConsistent(users: map<int, User>, pets: map<int, Pet>, u: int)
    requires Consistent(users, pets) && u in users && users[u].pets == []
    ensures Consistent(users - {u}, pets)
    ensures OwnedBy(pets, u) == {}
  {
    ListIsOwnedSet(users, pets, u);
  }

  /** Storing a new pet without owner keeps the stores consistent. */
  lemma AddOrphanConsistent(users: map<int, User>, pets: map<int, Pet>, pet: Pet)
    requires Consistent(users, pets) && pet.id !in pets && pet.owner.None?
    ensures Consistent(users, pets[pet.id := pet])
  {
  }

  /** Renaming a pet keeps the stores consistent. */
  lemma RenamePetConsistent(users: map<int, User>, pets: map<int, Pet>, p: int, name: string)
    requires Consistent(users, pets) && p in pets
    ensures Consistent(users, pets[p := pets[p].(name := name)])
  {
  }

  /** Removing a pet that has no owner keeps the stores consistent. */
  lemma RemoveOrphanConsistent(users: map<int, User>, pets: map<int, Pet>, p: int)
    requires Consistent(users, pets) && p in pets && pets[p].owner.None?
    ensures Consistent(users, pets - {p})
  {
  }

  /** Detaching an owned pet (remove it from the owner's list, clear its owner)
      keeps the stores consistent; afterwards it is in no list. */
  lemma DetachConsistent(users: map<int, User>, pets: map<int, Pet>, p: int)
    requires Consistent(users, pets) && p in pets && pets[p].owner.Some?
    ensures pets[p].owner.value in users
    ensures Consistent(Unlinked(users, pets[p].owner.value, p), WithOwner(pets, p, None))
    ensures forall u :: u in users ==> p !in Unlinked(users, pets[p].owner.value, p)[u].pets
  {
    var u := pets[p].owner.value;
    var users', pets' := Unlinked(users, u, p), WithOwner(pets, p, None);
    RemoveFirstDistinct(users[u].pets, p);
    forall v, q | v in users' && q in users'[v].pets
      ensures q in pets' && pets'[q].owner == Some(v)
    {
      assert q in users[v].pets;
    }
    forall q | q in pets' && pets'[q].owner.Some?
      ensures pets'[q].owner.value in users' && q in users'[pets'[q].owner.value].pets
    {
      assert q != p;
    }
  }

  /** Attaching an orphan to an existing user (append to the list, set the
      owner) keeps the stores consistent; the pet is then listed once. */
  lemma AttachConsistent(users: map<int, User>, pets: map<int, Pet>, u: int, p: int)
    requires Consistent(users, pets) && u in users && p in pets && pets[p].owner.None?
    ensures Consistent(Linked(users, u, p), WithOwner(pets, p, Some(u)))
    ensures multiset(Linked(users, u, p)[u].pets)[p] == 1
  {
    var users', pets' := Linked(users, u, p), WithOwner(pets, p, Some(u));
    assert p !in users[u].pets;
    DistinctAppend(users[u].pets, p);
    forall v, q | v in users' && q in users'[v].pets
      ensures q in pets' && pets'[q].owner == Some(v)
    {
      if v != u || q != p {
        assert q in users[v].pets;
      }
    }
  }

  /** Moving a pet to its current owner is legal and leaves it in that
      owner's list exactly once (now at the end). */
  lemma RelinkSameOwnerOnce(users: map<int, User>, pets: map<int, Pet>, p: int)
    requires Consistent(users, pets) && p in pets && pets[p].owner.Some?
    ensures var u := pets[p].owner.value;
            u in users &&
            var users' := Linked(Unlinked(users, u, p), u, p);
            multiset(users'[u].pets)[p] == 1 && users'[u].pets[|users'[u].pets| - 1] == p
  {
    var u := pets[p].owner.value;
    DetachConsistent(users, pets, p);
    AttachConsistent(Unlinked(users, u, p), WithOwner(pets, p, None), u, p);
  }
}
