# Pet-owner registry: services, constraints and error handling

A Dafny model of a small REST back end that keeps users and their pets in
memory. Two services own one map each. The user service stores users and
links pets to them. The pet service stores pets and detaches a pet from its
owner before it moves or deletes the pet. Each service draws ids from its
own counter, which starts at 0 and is incremented before each use. Request
bodies are checked against field constraints. A global exception handler
turns every failure into a status code and an error body.

The modules follow the program's structure:

- `IdManagement` (id_manager.dfy): the id counter, as a class.
- `PetModel` and `UserModel`: the two entities. Each has a request payload with nullable fields, its constraint violations, a stored record, and equality by id.
- `Constraints`: the field rules the entities use, with their default messages.
- `EmptyListValidation`: the custom "list must be empty" rule.
- `Ownership`: the consistency of the two stores. A user's list and the pets' owner ids must describe the same ownership. Each store update the services perform has a lemma saying whether it keeps that consistency.
- `Services`: both services over their two maps, as the class `Registry`. Its methods change the maps in place and are proved against the `Ownership` functions and lemmas.
- `ErrorHandling`: the exception handler.
- `Text` and `Lists`: the library behaviour the code relies on. `Text` covers decimal formatting of a `Long`, including `null`. `Lists` covers `List.remove(Object)`.

A user's pet list holds pet ids. Pets are equal by id, so removing a pet
object from a list of pets removes the entry with its id
(`PetModel.RemovePetById`). The id list therefore represents the list of
objects faithfully.

The error messages follow the code: "Owner with id N not found",
"Pet with id N not found" and "User with N not found". The repository's pet
tests expect other text in two places: "Owner with N not found" for the owner
message, and "Pet with N not found" for the pet message. A pet whose
owner has been cleared is looked up as `getById(null)`, which fails with
"User with null not found".

## Model

| member | source | states |
|---|---|---|
| IdManagement.IdManager.constructor | src/main/java/dev/vudovenko/springbootmvcpractice/managingID/IDManager.java:7-9 | a new counter has issued nothing and stands at 0 |
| IdManagement.IdManager.GetNextId | src/main/java/dev/vudovenko/springbootmvcpractice/managingID/IDManager.java:11-13 | the counter moves up by one and returns its new value, which is larger than every id issued before |
| Text.NatToDecimal | src/main/java/dev/vudovenko/springbootmvcpractice/users/service/UserService.java:40 | the decimal form of a non-negative number is non-empty, all digits and without leading zero |
| Text.LongToString | src/main/java/dev/vudovenko/springbootmvcpractice/pets/services/PetService.java:46 | the decimal form of a number starts with '-' exactly when the number is negative, and otherwise with a digit |
| Text.FormatNullableLong | src/main/java/dev/vudovenko/springbootmvcpractice/users/service/UserService.java:40 | the text is "null" exactly when the id is null |
| Text.ParseNatToDecimal | src/main/java/dev/vudovenko/springbootmvcpractice/pets/services/PetService.java:46 | reading back the decimal form of a non-negative number gives the number |
| Text.LongToStringRoundTrip | src/main/java/dev/vudovenko/springbootmvcpractice/pets/services/PetService.java:46 | reading back the decimal form of any number gives the number |
| Text.LongToStringInjective | src/main/java/dev/vudovenko/springbootmvcpractice/pets/services/PetService.java:46 | two different numbers never print alike |
| Lists.RemoveFirst | src/main/java/dev/vudovenko/springbootmvcpractice/pets/services/PetService.java:71 | removing an element takes exactly one occurrence of it out of the list's multiset, if it has one |
| Lists.RemoveAbsent | src/main/java/dev/vudovenko/springbootmvcpractice/pets/services/PetService.java:71 | removing an element the list does not hold leaves the list unchanged |
| Lists.RemoveFirstOccurrence | src/main/java/dev/vudovenko/springbootmvcpractice/pets/services/PetService.java:71 | removal takes out only the first occurrence, and the entries before and after it keep their order |
| Lists.RemoveFirstDistinct | src/main/java/dev/vudovenko/springbootmvcpractice/pets/services/PetService.java:71 | on a list without duplicates, removal keeps it duplicate-free and removes exactly that element |
| Text.Utf16Length | src/main/java/dev/vudovenko/springbootmvcpractice/users/model/User.java:23 | a string's `length()` counts UTF-16 code units: between one and two per character, one exactly for characters inside the Basic Multilingual Plane and two for those outside it |
| Text.Utf16LengthAppend | src/main/java/dev/vudovenko/springbootmvcpractice/users/model/User.java:23 | code units add up over concatenation |
| Constraints.CheckText | src/main/java/dev/vudovenko/springbootmvcpractice/users/model/User.java:21-24 | @NotNull @NotBlank @Size(3,50) together report the field exactly when the text is null, blank, or not 3 to 50 UTF-16 code units long |
| EmptyListValidation.IsValid | src/main/java/dev/vudovenko/springbootmvcpractice/exceptionHandling/validator/EmptyListValidator.java:15-17 | a null collection is valid; otherwise the collection is valid exactly when it has no element |
| PetModel.PetViolationsFields | src/main/java/dev/vudovenko/springbootmvcpractice/pets/model/Pet.java:17-26 | the fields reported are id when set, name when invalid, and userId when null, and nothing else |
| PetModel.PetViolationsExact | src/main/java/dev/vudovenko/springbootmvcpractice/pets/model/Pet.java:17-26 | the payload is accepted exactly when nothing is reported; each field is reported exactly when its rule fails |
| PetModel.RemovePetById | src/main/java/dev/vudovenko/springbootmvcpractice/pets/services/PetService.java:71 | with equality by id, removing a pet from a list of pets is removing its id from the list of ids |
| PetModel.AllInvalidPetReportsEveryField | src/main/java/dev/vudovenko/springbootmvcpractice/pets/model/Pet.java:17-26 | a payload with an id, a blank name and no owner is reported on all three fields |
| UserModel.UserViolationsFields | src/main/java/dev/vudovenko/springbootmvcpractice/users/model/User.java:18-36 | the fields reported are exactly those whose rules fail |
| UserModel.UserViolationsExact | src/main/java/dev/vudovenko/springbootmvcpractice/users/model/User.java:18-36 | the payload is accepted exactly when nothing is reported; each of id, name, email, age and pets is reported exactly when its rule fails |
| UserModel.EmailErrors | src/main/java/dev/vudovenko/springbootmvcpractice/users/model/User.java:26-28 | email is reported exactly when it is null or not well formed |
| UserModel.AgeErrors | src/main/java/dev/vudovenko/springbootmvcpractice/users/model/User.java:30-33 | age is reported exactly when it is null or outside 0..100 |
| UserModel.PetsErrors | src/main/java/dev/vudovenko/springbootmvcpractice/users/model/User.java:35-36 | pets is reported exactly when a non-empty list is given |
| UserModel.NameRulesAreSeparate | src/main/java/dev/vudovenko/springbootmvcpractice/users/model/User.java:21-24 | seven spaces break only the blank rule, and "us" breaks only the length rule |
| UserModel.AgeBoundsReject | src/main/java/dev/vudovenko/springbootmvcpractice/users/model/User.java:30-33 | ages 121 and -44 are invalid, and a payload valid in every other field is then reported on `age` alone |
| UserModel.NameSizeCountsCodeUnits | src/main/java/dev/vudovenko/springbootmvcpractice/users/model/User.java:21-24 | a name of two characters outside the Basic Multilingual Plane is valid (size 4); 25 of them are valid and 26 (size 52) are not |
| UserModel.AllInvalidUserReportsEveryField | src/main/java/dev/vudovenko/springbootmvcpractice/users/model/User.java:18-36 | a payload with an id, a blank name, a malformed address, age 121 and three pets is reported on all five fields |
| ErrorHandling.Handle | src/main/java/dev/vudovenko/springbootmvcpractice/exceptionHandling/GlobalExceptionHandler.java:20-73 | not-found failures give 404 with their message, validation failures 400 whose detail is the joined "field: message" list, naming every field, and anything else 500 with the exception's message |
| ErrorHandling.JoinContainsPart | src/main/java/dev/vudovenko/springbootmvcpractice/exceptionHandling/GlobalExceptionHandler.java:58-62 | every part occurs in the joined text at a position the lemma returns |
| ErrorHandling.DetailNamesEveryField | src/main/java/dev/vudovenko/springbootmvcpractice/exceptionHandling/GlobalExceptionHandler.java:58-62 | the validation detail contains "field:" for every field error |
| ErrorHandling.EmptyDetail | src/main/java/dev/vudovenko/springbootmvcpractice/exceptionHandling/GlobalExceptionHandler.java:58-62 | no field errors give an empty detail |
| ErrorHandling.SingleErrorDetail | src/main/java/dev/vudovenko/springbootmvcpractice/exceptionHandling/GlobalExceptionHandler.java:58-62 | one field error gives "field: message" with no separator |
| Ownership.ListIsOwnedSet | src/main/java/dev/vudovenko/springbootmvcpractice/users/service/UserService.java:63-68 | in consistent stores, a user's list is exactly the set of pets owned by the user, each listed once |
| Ownership.MissingUserOwnsNothing | src/main/java/dev/vudovenko/springbootmvcpractice/pets/services/PetService.java:68-73 | in consistent stores, no pet is owned by a user that is not stored |
| Ownership.StoredUsersEqualById | src/main/java/dev/vudovenko/springbootmvcpractice/users/model/User.java:13 | among stored users, equality by id is identity |
| Ownership.AddUserConsistent | src/main/java/dev/vudovenko/springbootmvcpractice/users/service/UserService.java:30-36 | storing a new user with an empty list keeps the stores consistent |
| Ownership.UpdateUserConsistent | src/main/java/dev/vudovenko/springbootmvcpractice/users/service/UserService.java:43-50 | changing a user's name, email and age keeps the stores consistent |
| Ownership.RemoveUserConsistent | src/main/java/dev/vudovenko/springbootmvcpractice/users/service/UserService.java:52-57 | removing a user with an empty list keeps the stores consistent and leaves no pet owned by the user |
| Ownership.AddOrphanConsistent | src/main/java/dev/vudovenko/springbootmvcpractice/pets/services/PetService.java:36-37 | storing a new pet without an owner keeps the stores consistent |
| Ownership.RenamePetConsistent | src/main/java/dev/vudovenko/springbootmvcpractice/pets/services/PetService.java:51 | renaming a pet keeps the stores consistent |
| Ownership.RemoveOrphanConsistent | src/main/java/dev/vudovenko/springbootmvcpractice/pets/services/PetService.java:63-66 | removing a pet without an owner keeps the stores consistent |
| Ownership.DetachConsistent | src/main/java/dev/vudovenko/springbootmvcpractice/pets/services/PetService.java:68-73 | detaching an owned pet keeps the stores consistent, and afterwards the pet is in no list |
| Ownership.AttachConsistent | src/main/java/dev/vudovenko/springbootmvcpractice/users/service/UserService.java:63-68 | attaching a pet without an owner to a stored user keeps the stores consistent and lists the pet once |
| Ownership.RelinkSameOwnerOnce | src/main/java/dev/vudovenko/springbootmvcpractice/pets/services/PetService.java:49-61 | moving a pet to its current owner lists it once, at the end of the list |
| Services.NotFoundMessagesNameTheirId | src/main/java/dev/vudovenko/springbootmvcpractice/pets/services/PetService.java:31-47 | each not-found message determines its id, and a user id's message differs from the null message |
| Services.Registry.constructor | src/main/java/dev/vudovenko/springbootmvcpractice/users/service/UserService.java:25-28 | both stores start empty and both counters start at 0 |
| Services.Registry.CreateUser | src/main/java/dev/vudovenko/springbootmvcpractice/users/service/UserService.java:30-36 | the user is stored under a fresh id (the old counter + 1) with an empty list; pets and the pet counter are unchanged |
| Services.Registry.GetById | src/main/java/dev/vudovenko/springbootmvcpractice/users/service/UserService.java:38-41 | returns the stored user, or fails with "User with N not found" |
| Services.Registry.UpdateUser | src/main/java/dev/vudovenko/springbootmvcpractice/users/service/UserService.java:43-50 | overwrites only name, email and age, keeping id and pet list; a missing user fails and changes nothing |
| Services.Registry.DeleteUser | src/main/java/dev/vudovenko/springbootmvcpractice/users/service/UserService.java:52-57 | the intended cascade: deletes exactly the pets the user owns, removes the user, and leaves no pet owned by it |
| Services.Registry.DeleteListedPets | src/main/java/dev/vudovenko/springbootmvcpractice/users/service/UserService.java:54-55 | deleting every pet in the user's list empties the list and removes exactly those pets |
| Services.Registry.DeleteUserAsWritten | src/main/java/dev/vudovenko/springbootmvcpractice/users/service/UserService.java:52-57 | as written: with a non-empty list, only the first pet is deleted, the user stays, and the call fails without message |
| Services.Registry.CheckIfUserExists | src/main/java/dev/vudovenko/springbootmvcpractice/users/service/UserService.java:59-61 | true exactly when a user is stored under the id |
| Services.Registry.AddPetToUser | src/main/java/dev/vudovenko/springbootmvcpractice/users/service/UserService.java:63-68 | appends the pet to the user's list and sets its owner; a missing user fails with no change |
| Services.Registry.CreatePet | src/main/java/dev/vudovenko/springbootmvcpractice/pets/services/PetService.java:31-42 | a missing owner fails before an id is consumed; otherwise the pet is stored under a fresh id and linked to its owner |
| Services.Registry.GetPetById | src/main/java/dev/vudovenko/springbootmvcpractice/pets/services/PetService.java:44-47 | returns the stored pet, or fails with "Pet with id N not found" |
| Services.Registry.UpdatePet | src/main/java/dev/vudovenko/springbootmvcpractice/pets/services/PetService.java:49-61 | as written: renames, detaches, and then checks the new owner; each failure leaves the state the source leaves |
| Services.Registry.UpdatePetOwnerFirst | src/main/java/dev/vudovenko/springbootmvcpractice/pets/services/PetService.java:49-61 | checks the new owner first, so a failed update changes nothing and no owned pet loses its owner |
| Services.Registry.DeletePet | src/main/java/dev/vudovenko/springbootmvcpractice/pets/services/PetService.java:63-66 | an owned pet is detached and removed; a missing pet, or a pet without an owner, fails and changes nothing |
| Services.Registry.RemovePetFromOwner | src/main/java/dev/vudovenko/springbootmvcpractice/pets/services/PetService.java:68-73 | an owned pet leaves its owner's list and loses its owner; a missing pet fails, and so does a pet without an owner, with "User with null not found" |
| Services.DeleteOwnerScenario | src/main/java/dev/vudovenko/springbootmvcpractice/users/service/UserService.java:52-57 | deleting an owner with one pet gives 500 and leaves the owner stored; the intended cascade removes both |
| Services.OrphanScenario | src/main/java/dev/vudovenko/springbootmvcpractice/pets/services/PetService.java:49-73 | after a move to a missing owner, the pet has no owner, cannot be deleted, and is renamed by every further update, which fails |

## Left out

- Controllers, routing and HTTP status codes of successful calls are not modelled. The service methods take field values that have already passed validation. Validation is modelled as the violation lists of the payloads.
- The service methods repeat validation through @Validated; the ConstraintViolationException this would raise for an invalid argument is not modelled, since the controllers validate every body first.
- Ids are unbounded integers: the 64-bit `Long` counter could wrap after 2^63 - 1 ids, and the model does not capture that.
- @Email's address syntax belongs to the validation library. It is the parameter `isEmail` of the user rules.
- The default constraint messages ("must not be blank", "size must be between 3 and 50", and so on) come from the validation library's message bundle. They are written out as constants.
- The order in which the framework lists field errors is not specified. The model lists them in field declaration order. The proved properties of the detail text do not depend on that order.
- The timestamp in the error body and the logging read the clock and write logs, and are left out.
- The services are not thread-safe (plain hash maps). The model is sequential.
- Pet objects are shared between the pet map and the owners' lists. The model stores the pet once and lists ids; `PetModel.RemovePetById` justifies that for removal by equality.
- Services.Registry.AddPetToUser: requires a pet without an owner. The source does not check this. Every caller passes a pet just created or just detached, and linking an owned pet would list it twice.
- Services.Registry.CreatePet: the pet is stored without an owner and then linked, while the source stores it with the owner already set. No other call runs in between, and the final state is the same.

## Findings

| source | as written | input that shows it | evidently intended | confidence | as-written member | corrected member |
|---|---|---|---|---|---|---|
| src/main/java/dev/vudovenko/springbootmvcpractice/users/service/UserService.java:54-55 | `forEach` runs over the user's own pet list while `deletePet` removes each pet from that list. `ArrayList.forEach` then throws ConcurrentModificationException after the first pet. | create a user, create one pet for the user, delete the user: 500, the pet is gone and the user stays | every pet of the user is deleted and then the user is removed | not executed | Services.Registry.DeleteUserAsWritten, Services.DeleteOwnerScenario | Services.Registry.DeleteUser |
| src/main/java/dev/vudovenko/springbootmvcpractice/pets/services/PetService.java:50-57 | the pet is renamed and detached from its owner before the new owner is checked | move pet 1 (owned by user 1) to a user id that does not exist: 404, the pet is renamed, has no owner, and can no longer be deleted | the new owner is checked first, and a failed move changes nothing | not executed | Services.Registry.UpdatePet, Services.OrphanScenario | Services.Registry.UpdatePetOwnerFirst |
