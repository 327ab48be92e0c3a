/** The User entity: the request payload with its field constraints, the
    stored record, and equality by id. */
module UserModel {
  import opened Wrappers
  import opened Constraints
  import EmptyListValidation
  import opened PetModel
  import opened Text

  /** A user as a request body carries it; every field may be null. */
  datatype UserPayload = UserPayload(
    id: Option<int>,
    name: Option<string>,
    email: Option<string>,
    age: Option<int>,
    pets: Option<seq<PetPayload>>)

  /** A stored user. `pets` lists the ids of the owned pets in the order they
      were linked. */
  datatype User = User(id: int, name: string, email: string, age: int, pets: seq<int>)

  const MinNameLength: nat := 3
  const MaxNameLength: nat := 50
  const MinAge := 0
  const MaxAge := 100

  /** `name`: not null, not blank, 3 to 50 characters. */
  predicate ValidUserName(name: Option<string>) {
    ValidText(name, MinNameLength, MaxNameLength)
  }

  /** `email`: not null and a well-formed address. */
  predicate ValidEmail(email: Option<string>, isEmail: string -> bool) {
    email.Some? && isEmail(email.value)
  }

  /** `age`: not null and within 0..100. */
  predicate ValidAge(age: Option<int>) {
    age.Some? && MinAge <= age.value <= MaxAge
  }

  /** The payload passes every constraint. */
  predicate ValidUser(p: UserPayload, isEmail: string -> bool) {
    && p.id.None?
    && ValidUserName(p.name)
    && ValidEmail(p.email, isEmail)
    && ValidAge(p.age)
    && EmptyListValidation.IsValid(p.pets)
  }

  /** Every constraint violation of the payload, field by field in declaration
      order. */
  function UserViolations(p: UserPayload, isEmail: string -> bool): seq<FieldError> {
    CheckNull("id", p.id)
    + CheckText("name", p.name, MinNameLength, MaxNameLength)
    + EmailErrors(p.email, isEmail)
    + AgeErrors(p.age)
    + PetsErrors(p.pets)
  }

  /** The fields reported are exactly those whose rule fails. */
  lemma UserViolationsFields(p: UserPayload, isEmail: string -> bool)
    ensures Fields(UserViolations(p, isEmail))
            == (if p.id.Some? then {"id"} else {})
             + (if ValidUserName(p.name) then {} else {"name"})
             + (if ValidEmail(p.email, isEmail) then {} else {"email"})
             + (if ValidAge(p.age) then {} else {"age"})
             + (if EmptyListValidation.IsValid(p.pets) then {} else {"pets"})
  {
    var id := CheckNull("id", p.id);
    var name := CheckText("name", p.name, MinNameLength, MaxNameLength);
    var email := EmailErrors(p.email, isEmail);
    var age := AgeErrors(p.age);
    var pets := PetsErrors(p.pets);
    assert Fields(id) == (if p.id.Some? then {"id"} else {});
    FieldsAppend(id, name);
    FieldsAppend(id + name, email);
    FieldsAppend(id + name + email, age);
    FieldsAppend(id + name + email + age, pets);
  }

  /** Each field is reported exactly when its rule fails, every failing field
      is reported (not only the first), and the payload is accepted exactly
      when nothing is. */
  lemma UserViolationsExact(p: UserPayload, isEmail: string -> bool)
    ensures UserViolations(p, isEmail) == [] <==> ValidUser(p, isEmail)
    ensures Fields(UserViolations(p, isEmail)) <= {"id", "name", "email", "age", "pets"}
    ensures "id" in Fields(UserViolations(p, isEmail)) <==> p.id.Some?
    ensures "name" in Fields(UserViolations(p, isEmail)) <==> !ValidUserName(p.name)
    ensures "email" in Fields(UserViolations(p, isEmail)) <==> !ValidEmail(p.email, isEmail)
    ensures "age" in Fields(UserViolations(p, isEmail)) <==> !ValidAge(p.age)
    ensures "pets" in Fields(UserViolations(p, isEmail)) <==> !EmptyListValidation.IsValid(p.pets)
  {
    UserViolationsFields(p, isEmail);
    FieldsEmpty(UserViolations(p, isEmail));
    OneEntryPerRule(Fields(UserViolations(p, isEmail)), p.id.Some?, ValidUserName(p.name),
                    ValidEmail(p.email, isEmail), ValidAge(p.age), EmptyListValidation.IsValid(p.pets));
  }

  /** Membership in a union of one-field sets, one per rule. */
  lemma OneEntryPerRule(fields: set<string>, id: bool, name: bool, email: bool, age: bool, pets: bool)
    requires fields == (if id then {"id"} else {}) + (if name then {} else {"name"})
                     + (if email then {} else {"email"}) + (if age then {} else {"age"})
                     + (if pets then {} else {"pets"})
    ensures fields <= {"id", "name", "email", "age", "pets"}
    ensures fields == {} <==> !id && name && email && age && pets
    ensures ("id" in fields <==> id) && ("name" in fields <==> !name) && ("email" in fields <==> !email)
    ensures ("age" in fields <==> !age) && ("pets" in fields <==> !pets)
  {
    FieldNamesDistinct();
    if !name { assert "name" in fields; }
    if !email { assert "email" in fields; }
    if !age { assert "age" in fields; }
    if !pets { assert "pets" in fields; }
    if id { assert "id" in fields; }
  }

  lemma FieldNamesDistinct()
    ensures "id" != "name" && "id" != "email" && "id" != "age" && "id" != "pets"
    ensures "name" != "email" && "name" != "age" && "name" != "pets"
    ensures "email" != "age" && "email" != "pets" && "age" != "pets"
  {
    assert "name"[0] != "pets"[0];
  }

  /** `@NotNull @Email` on `email`. */
  function EmailErrors(email: Option<string>, isEmail: string -> bool): (errors: seq<FieldError>)
    ensures ReportsOn(errors, "email", ValidEmail(email, isEmail))
  {
    var notNull, wellFormed := CheckNotNull("email", email), CheckEmail("email", email, isEmail);
    FieldsAppend(notNull, wellFormed);
    notNull + wellFormed
  }

  /** `@EmptyList` on `pets`. */
  function PetsErrors(pets: Option<seq<PetPayload>>): (errors: seq<FieldError>)
    ensures ReportsOn(errors, "pets", EmptyListValidation.IsValid(pets))
  {
    if EmptyListValidation.IsValid(pets) then [] else [FieldError("pets", EmptyListValidation.Message)]
  }

  /** `@NotNull @Min(0) @Max(100)` on `age`. */
  function AgeErrors(age: Option<int>): (errors: seq<FieldError>)
    ensures ReportsOn(errors, "age", ValidAge(age))
  {
    var notNull, min, max := CheckNotNull("age", age), CheckMin("age", age, MinAge), CheckMax("age", age, MaxAge);
    FieldsAppend(notNull, min);
    FieldsAppend(notNull + min, max);
    notNull + min + max
  }

  /** `equals`, generated from the id alone. */
  predicate SameUser(a: User, b: User) {
    a.id == b.id
  }

  /** A name of seven spaces breaks only the blank rule; "us" breaks only the
      length rule. */
  lemma NameRulesAreSeparate()
    ensures CheckNotBlank("name", Some("       ")) != [] && CheckSize("name", Some("       "), 3, 50) == []
    ensures CheckNotBlank("name", Some("us")) == [] && CheckSize("name", Some("us"), 3, 50) != []
  {
    assert "us"[0] > ' ';
  }

  /** An age of 121 or -44 is rejected, and only on `age`: a payload valid in
      every other field is reported on `age` alone. */
  lemma AgeBoundsReject(p: UserPayload, isEmail: string -> bool)
    requires p.id.None? && ValidUserName(p.name) && ValidEmail(p.email, isEmail)
    requires EmptyListValidation.IsValid(p.pets)
    ensures !ValidAge(Some(121)) && !ValidAge(Some(-44))
    ensures Fields(UserViolations(p.(age := Some(121)), isEmail)) == {"age"}
    ensures Fields(UserViolations(p.(age := Some(-44)), isEmail)) == {"age"}
  {
    UserViolationsFields(p.(age := Some(121)), isEmail);
    UserViolationsFields(p.(age := Some(-44)), isEmail);
  }

  /** `@Size` measures `length()`, in UTF-16 code units: two characters
      outside the Basic Multilingual Plane make a name of size 4, and 26 of
      them a name of size 52. */
  lemma NameSizeCountsCodeUnits()
    ensures ValidUserName(Some("\U{1F600}\U{1F600}"))
    ensures ValidUserName(Some(seq(25, _ => '\U{1F600}')))
    ensures !ValidUserName(Some(seq(26, _ => '\U{1F600}')))
  {
    assert Supplementary("\U{1F600}\U{1F600}"[0]);
    assert Supplementary("\U{1F600}\U{1F600}"[1]);
    assert !IsBlank("\U{1F600}\U{1F600}");
    var long := seq(25, _ => '\U{1F600}');
    assert long[0] > ' ';
  }

  /** The all-invalid payload (an id, a blank name, a malformed address, age
      121, three pets) is reported on all five fields. */
  lemma AllInvalidUserReportsEveryField(isEmail: string -> bool)
    requires !isEmail("wrong@format@email.com")
    ensures var payload := UserPayload(Some(9223372036854775807), Some("       "),
                                       Some("wrong@format@email.com"), Some(121),
                                       Some([PetPayload(None, None, None), PetPayload(None, None, None),
                                             PetPayload(None, None, None)]));
            Fields(UserViolations(payload, isEmail)) == {"id", "name", "email", "age", "pets"}
  {
    var payload := UserPayload(Some(9223372036854775807), Some("       "),
                               Some("wrong@format@email.com"), Some(121),
                               Some([PetPayload(None, None, None), PetPayload(None, None, None),
                                     PetPayload(None, None, None)]));
    assert IsBlank("       ");
    assert !EmptyListValidation.IsValid(payload.pets);
    UserViolationsFields(payload, isEmail);
  }
}
