/** The Pet entity: the request payload with its field constraints, the
    stored record, and equality by id. */
module PetModel {
  import opened Wrappers
  import opened Constraints
  import opened Lists

  /** A pet as a request body carries it; every field may be null. */
  datatype PetPayload = PetPayload(id: Option<int>, name: Option<string>, userId: Option<int>)

  /** A stored pet. `owner` is the owning user's id, or `None` once the pet
      has been detached from its owner. */
  datatype Pet = Pet(id: int, name: string, owner: Option<int>)

  const MinNameLength: nat := 3
  const MaxNameLength: nat := 50

  /** `name`: not null, not blank, 3 to 50 characters. */
  predicate ValidPetName(name: Option<string>) {
    ValidText(name, MinNameLength, MaxNameLength)
  }

  /** The payload passes every constraint: no id, a valid name, an owner id. */
  predicate ValidPet(p: PetPayload) {
    p.id.None? && ValidPetName(p.name) && p.userId.Some?
  }

  /** Every constraint violation of the payload, field by field in declaration
      order. */
  function PetViolations(p: PetPayload): seq<FieldError> {
    CheckNull("id", p.id)
    + CheckText("name", p.name, MinNameLength, MaxNameLength)
    + CheckNotNull("userId", p.userId)
  }

  /** The fields reported are exactly those whose rule fails. */
  lemma PetViolationsFields(p: PetPayload)
    ensures Fields(PetViolations(p))
            == (if p.id.Some? then {"id"} else {})
             + (if ValidPetName(p.name) then {} else {"name"})
             + (if p.userId.None? then {"userId"} else {})
  {
    var id, name, userId := CheckNull("id", p.id), CheckText("name", p.name, MinNameLength, MaxNameLength),
                            CheckNotNull("userId", p.userId);
    assert Fields(id) == (if p.id.Some? then {"id"} else {});
    assert Fields(userId) == (if p.userId.None? then {"userId"} else {});
    FieldsAppend(id, name);
    FieldsAppend(id + name, userId);
  }

  /** Each field is reported exactly when its rule fails, every failing field
      is reported, and the payload is accepted exactly when nothing is. */
  lemma PetViolationsExact(p: PetPayload)
    ensures PetViolations(p) == [] <==> ValidPet(p)
    ensures Fields(PetViolations(p)) <= {"id", "name", "userId"}
    ensures "id" in Fields(PetViolations(p)) <==> p.id.Some?
    ensures "name" in Fields(PetViolations(p)) <==> !ValidPetName(p.name)
    ensures "userId" in Fields(PetViolations(p)) <==> p.userId.None?
  {
    PetViolationsFields(p);
    assert "id" != "name" && "id" != "userId" && "name" != "userId";
    FieldsEmpty(PetViolations(p));
  }

  /** `equals`, generated from the id alone. */
  predicate SamePet(a: Pet, b: Pet) {
    a.id == b.id
  }

  function Ids(s: seq<Pet>): seq<int> {
    seq(|s|, k requires 0 <= k < |s| => s[k].id)
  }

  /** `List<Pet>.remove(pet)`: drops the first entry equal to `pet`. */
  function RemovePet(s: seq<Pet>, x: Pet): seq<Pet> {
    if s == [] then []
    else if SamePet(s[0], x) then s[1..]
    else [s[0]] + RemovePet(s[1..], x)
  }

  /** Since equality is by id, removing a pet from a list of pets removes the
      entry with its id: a list of ids represents the list faithfully. */
  lemma {:induction false} RemovePetById(s: seq<Pet>, x: Pet)
    ensures Ids(RemovePet(s, x)) == RemoveFirst(Ids(s), x.id)
  {
    if s != [] {
      assert Ids(s)[0] == s[0].id;
      assert Ids(s)[1..] == Ids(s[1..]);
      if !SamePet(s[0], x) {
        RemovePetById(s[1..], x);
        assert Ids([s[0]] + RemovePet(s[1..], x)) == [s[0].id] + Ids(RemovePet(s[1..], x));
      }
    }
  }

  /** An all-invalid payload (an id, a blank name, no owner) is reported on
      all three fields. */
  lemma AllInvalidPetReportsEveryField()
    ensures Fields(PetViolations(PetPayload(Some(9223372036854775807), Some("       "), None)))
            == {"id", "name", "userId"}
  {
  }
}
