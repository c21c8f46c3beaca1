# GameStatusAPI user-status core in Dafny

This project models the core of `UserStatusService` in GameStatusAPI. The service mirrors a player's public
RuneMetrics profile into a MongoDB collection and serves queries over it. It has two parts.

- **Profile normaliser** (`normalizer.dfy`, module `ProfileNormalizer`):
  - `GetUserInfo` rejects payloads whose `error` is `PROFILE_PRIVATE` or `NO_PROFILE`.
  - `GetUserSkills` builds one skill object per `skillvalues` entry: `{id, skillName, level, xp / 10, rank}`. The name comes from a fixed 28-entry table. The loop is a `while` loop, and a fault in it is caught: the objects built before the fault are kept.
  - `GetUserActivities` copies the `{date, details, text}` triples. A missing `activities` field makes it fail, and nothing catches that failure.
  - `GetFilteredUserData` assembles the canonical record. It sorts the skills by `id` and the activities by `date`, using LINQ's stable `OrderBy`, and derives `lowercaseName`.
  - The fetched payload is an already-parsed value: `RawProfile`. Each field is `Absent`, `JsonNull` or `Present`, because the code treats a missing field and a JSON null differently.
- **Synchronisation engine and read projections** (`service.dfy`, module `Services`; class `UserStatusService`):
  - `AddUserData` is an upsert: scan for an exact-`name` match, delete the first match if there is one, then insert.
  - `DeleteUserData` is the scan and the conditional delete only.
  - `GetPlayerDataByName` and `GetAllPlayerData` copy the stored documents into a list, in store order.
  - The store is the class `Repository.DocumentDatabase` (`repository.dfy`), which holds named collections of documents:
    - `Get` returns a collection;
    - `DeleteEntry` removes the first document that matches every filter field;
    - `Insert` appends.
- **Supporting modules**:
  - `StableSort` (`stable_sort.dfy`) is the stable sort that `OrderBy` performs, with lemmas that its output is sorted, is a permutation of its input and keeps input order among equal keys.
  - `Text` (`text.dfy`) holds the ordinal string order that Json.NET uses to compare two string tokens, and lower-casing.
  - `Documents` (`documents.dfy`) holds BSON values, documents, filters, delete-first and the name selections.

Each operation that changes state is a method. Its `ensures` ties the new store contents to a pure function: `AddResult` for `AddUserData` and `DeleteResult` for `DeleteUserData`. The lemmas then prove the upsert, frame, uniqueness and idempotence properties about those functions.

Behaviour of the code worth noting:
- A fault in the skills loop keeps the skills built before the faulty entry. The `catch` around the whole loop (`UserStatusService.cs:107-127`) does not discard the objects already added.
- The activities are ordered as Json.NET compares tokens. A null `date` sorts first, and dates that Json.NET keeps as strings (such as date-only values) are compared ordinally.
- An unknown skill id gives a JSON-null `skillName`.
- Reads go through canonical extended JSON. The service tests show that this turns `100` into `{"$numberInt": "100"}`. This rendering is not modelled (see below).
- A JSON-null `name` gives `lowercaseName` `""` (the empty string), because `JValue.ToString()` of null is empty. The output `name` is then null.
- Scanning a document that has no `name` throws, so `AddUserData`/`DeleteUserData` fail with `MissingName`. This happens for a nameless stored document that the scan reaches before any match, or for a nameless new document when the collection is not empty. `Any` never evaluates its predicate on an empty collection, so a nameless document is inserted into an empty collection.
- A match whose `name` is not a string makes `.AsString` throw (`NameNotString`). So re-ingesting a profile whose `name` is null fails.

## Model

| member | source | states |
|---|---|---|
| ProfileNormalizer.SkillName | GameStatusAPI/Services/UserStatusService.cs:73-112 | the table gives a non-empty name exactly for ids 0 to 27, and null for every other id |
| ProfileNormalizer.TruncDiv10 | GameStatusAPI/Services/UserStatusService.cs:118 | C# `int / 10`: the remainder `x - 10q` has the sign of `x` and magnitude below 10, so the quotient is truncated toward zero |
| ProfileNormalizer.SkillEntry | GameStatusAPI/Services/UserStatusService.cs:111-120 | building an entry throws exactly when `id` or `xp` is missing, null or outside Int32; otherwise id, level and rank are copied, skillName is the table entry and xp is the truncated tenth |
| ProfileNormalizer.DefenceEntryExample | GameStatusAPI/Services/UserStatusService.cs:111-120 | `{id 1, level 99, xp 1303443, rank 1}` becomes `{1, "Defence", 99, 130344, 1}` |
| ProfileNormalizer.BuildSkills | GameStatusAPI/Services/UserStatusService.cs:107-127 | the result is exactly the objects of the entries before the first faulty one (all entries if none is faulty) |
| ProfileNormalizer.GetUserSkills | GameStatusAPI/Services/UserStatusService.cs:71-130 | the loop never fails: it returns the objects built before the first fault, and none when `skillvalues` is missing or null |
| ProfileNormalizer.CopyActivity | GameStatusAPI/Services/UserStatusService.cs:137-142 | each of `date`, `details` and `text` is the payload's token when present, and null when missing or JSON null |
| ProfileNormalizer.ActivitiesOf | GameStatusAPI/Services/UserStatusService.cs:132-146 | fails (MalformedPayload) exactly when `activities` is missing; JSON null gives no activities; otherwise one copied triple per entry, in order |
| ProfileNormalizer.GetUserActivities | GameStatusAPI/Services/UserStatusService.cs:132-146 | the loop's result equals the specification `ActivitiesOf`, including its uncaught failure |
| ProfileNormalizer.DateLe | GameStatusAPI/Services/UserStatusService.cs:165 | a null `date` comes before every date, a string never before null, and two strings compare lexicographically |
| ProfileNormalizer.DateLeTotalPreorder | GameStatusAPI/Services/UserStatusService.cs:165 | the date comparison (null first, then ordinal) is total and transitive, so sorting by it is well defined |
| ProfileNormalizer.LowercaseName | GameStatusAPI/Services/UserStatusService.cs:154 | `lowercaseName` is null exactly when `name` is missing, `""` when `name` is JSON null, and the lower case of `name` otherwise, with no capital letter left |
| ProfileNormalizer.GetFilteredUserData | GameStatusAPI/Services/UserStatusService.cs:148-168 | the only failure is a missing `activities` field (MalformedPayload); a skills fault never escapes |
| ProfileNormalizer.GetUserInfo | GameStatusAPI/Services/UserStatusService.cs:53-69 | `PROFILE_PRIVATE` fails with "The profile is private.", `NO_PROFILE` with "The profile does not exist.", each if and only if; no record is produced then; MalformedPayload exactly when there is no error code and `activities` is missing |
| ProfileNormalizer.SkillValuesSortedStable | GameStatusAPI/Services/UserStatusService.cs:164 | `skill_values` is ascending by id, a permutation of the built skills, and keeps their input order among equal ids |
| ProfileNormalizer.ActivitiesSortedStable | GameStatusAPI/Services/UserStatusService.cs:165 | `activities` is ascending by date, a permutation of the copied triples, and keeps their input order among equal dates |
| ProfileNormalizer.SkillValuesFromEntries | GameStatusAPI/Services/UserStatusService.cs:109-121 | every output skill is the object of some well-formed input entry, with its name from the table |
| ProfileNormalizer.NameAndScalarsCopied | GameStatusAPI/Services/UserStatusService.cs:152-163 | `lowercaseName` is null for a missing `name`, `""` for a JSON-null one and the lower case of a string one; name, rank, loggedIn, combatlevel, totalskill, the three quest counts and totalxp are copied, a missing or null token giving null |
| StableSort.SortBy | GameStatusAPI/Services/UserStatusService.cs:164-165 | `OrderBy` returns a permutation of its input (sortedness and stability are the two lemmas below) |
| StableSort.SortBySorted | GameStatusAPI/Services/UserStatusService.cs:164-165 | for a total, transitive comparison the sort's output is ordered by the key |
| StableSort.SortByStable | GameStatusAPI/Services/UserStatusService.cs:164-165 | for every key, the elements with that key appear in the output in their input order |
| Text.StrLe | GameStatusAPI/Services/UserStatusService.cs:165 | the empty string comes first, a prefix precedes its extensions, and otherwise the first differing character decides |
| Text.StrLeIsLexicographic | GameStatusAPI/Services/UserStatusService.cs:165 | the ordinal comparison of date strings is the lexicographic order (prefix, or smaller character at the first difference) |
| Text.StrLeTotal | GameStatusAPI/Services/UserStatusService.cs:165 | any two date strings are comparable |
| Text.StrLeTransitive | GameStatusAPI/Services/UserStatusService.cs:165 | the ordinal order is transitive |
| Text.StrLeAntisymmetric | GameStatusAPI/Services/UserStatusService.cs:165 | two strings ordered both ways are equal, so equal keys are equal dates |
| Text.ToLower | GameStatusAPI/Services/UserStatusService.cs:154 | lower-casing keeps the length and maps every character by the character rule |
| Documents.NameFilter | GameStatusAPI/Services/UserStatusService.cs:29-32 | a document matches `{name: n}` exactly when its `name` is the string `n` |
| Documents.FirstMatch | GameStatusAPI/Database/BaseRepository.cs:26-32 | the index of the first document that matches every filter field, or the length when none does |
| Documents.RemoveFirst | GameStatusAPI/Database/BaseRepository.cs:26-32 | deletes exactly the first matching document and keeps the rest in order; no match leaves the collection unchanged |
| Documents.WithName | GameStatusAPI/Database/UserStatusRepository.cs:20-26 | the selection by exact `name` keeps only documents with that name |
| Documents.WithNameComplete | GameStatusAPI/Database/UserStatusRepository.cs:20-26 | the selection by exact `name` keeps every document with that name |
| Documents.RemoveFirstWithName | GameStatusAPI/Database/BaseRepository.cs:26-32 | deleting by `{name: n}` drops the first document named `n` |
| Documents.RemoveFirstWithoutName | GameStatusAPI/Database/BaseRepository.cs:26-32 | deleting by `{name: n}` keeps all documents with other names, in order |
| Documents.RemoveFirstOtherName | GameStatusAPI/Database/BaseRepository.cs:26-32 | deleting by `{name: n}` leaves the documents of every other name unchanged |
| Documents.RemoveFirstMultiset | GameStatusAPI/Database/BaseRepository.cs:26-32 | deleting by `{name: n}` removes exactly one document, the first named `n` |
| Documents.WithNameAppend | GameStatusAPI/Database/BaseRepository.cs:34-38 | an inserted document joins the end of its own name's documents and no other |
| Repository.DocumentDatabase.Get | GameStatusAPI/Database/BaseRepository.cs:20-24 | returns the collection's documents in store order (empty for an unknown collection) |
| Repository.DocumentDatabase.DeleteEntry | GameStatusAPI/Database/BaseRepository.cs:26-32 | the collection loses its first document matching all filter fields; the other collections are unchanged |
| Repository.DocumentDatabase.Insert | GameStatusAPI/Database/BaseRepository.cs:34-38 | the document is appended to the collection; the other collections are unchanged |
| Repository.DocumentDatabase.GetPlayerDataByName | GameStatusAPI/Database/UserStatusRepository.cs:20-26 | returns the documents whose `name` equals the player name, in store order |
| Services.NameScan | GameStatusAPI/Services/UserStatusService.cs:27 | `Any` finds a match exactly when some document has the same `name`; it throws MissingName only on a non-empty collection with a nameless document or a nameless new document |
| Services.AddResult | GameStatusAPI/Services/UserStatusService.cs:22-36 | on success the new document is the last one in the collection |
| Services.DeleteResult | GameStatusAPI/Services/UserStatusService.cs:38-51 | on success the collection does not grow |
| Services.AddUserDataUpserts | GameStatusAPI/Services/UserStatusService.cs:22-36 | with named documents and a string name the upsert succeeds: the first document with that name is deleted, if any, then the new one is appended |
| Services.AddUserDataKeepsOthers | GameStatusAPI/Services/UserStatusService.cs:22-36 | documents with other names are unchanged and keep their relative order |
| Services.AddUserDataUnique | GameStatusAPI/Services/UserStatusService.cs:22-36 | with at most one document per name beforehand, exactly one document has the new name afterwards, and it is the new document; still at most one per name |
| Services.AddUserDataKeepsAllNamed | GameStatusAPI/Services/UserStatusService.cs:22-36 | an upsert of a named document keeps every stored document named |
| Services.AddUserDataTwice | GameStatusAPI/Services/UserStatusService.cs:22-36 | two ingestions for one name leave exactly one document with it, the second, and the other names untouched |
| Services.DeleteUserDataNoMatch | GameStatusAPI/Services/UserStatusService.cs:38-51 | with no exact-name match the delete is a no-op and throws nothing |
| Services.DeleteUserDataRemovesOne | GameStatusAPI/Services/UserStatusService.cs:38-51 | with a match the result is the collection with its first document named `n` deleted and every other document in its place: one fewer document, the same multiset less that one, the other names untouched; with unique names none named `n` remains |
| Services.DeleteUserDataKeepsUnique | GameStatusAPI/Services/UserStatusService.cs:38-51 | on named documents a delete succeeds and keeps at most one document per name, so the upsert lemmas chain after it |
| Services.CaseVariantsStayDistinct | GameStatusAPI/Services/UserStatusService.cs:27 | "Guilherme" and "guilherme" are different keys, so both documents are kept |
| Services.IngestThenFetch | GameStatusAPI/Services/UserStatusService.cs:22-69 | a normalised, named profile stored by `AddUserData` is afterwards the only document a lookup by its exact name returns |
| Services.ToDocument | GameStatusAPI/Services/UserStatusService.cs:148-168 | the stored document's `name` is the profile's name, or null |
| Services.ToObjects | GameStatusAPI/Services/UserStatusService.cs:174-178 | one output object per stored document, same count and same order |
| Services.UserStatusService.AddUserData | GameStatusAPI/Services/UserStatusService.cs:22-36 | the collection becomes `AddResult` of the old one and the other collections are unchanged; on a fault nothing is written |
| Services.UserStatusService.DeleteUserData | GameStatusAPI/Services/UserStatusService.cs:38-51 | the collection becomes `DeleteResult` of the old one and the other collections are unchanged; on a fault nothing is written |
| Services.UserStatusService.GetPlayerDataByName | GameStatusAPI/Services/UserStatusService.cs:170-180 | one object per stored document with exactly that name, in store order |
| Services.UserStatusService.GetAllPlayerData | GameStatusAPI/Services/UserStatusService.cs:182-192 | one object per stored document, in store order |

## Left out

- Fetching the profile over HTTP and building its URL (`UserStatusService.cs:55-56`), and the HTTP client classes. These are network I/O, so the fetched payload is an input value.
- Parsing JSON and BSON text (`JObject.Parse`, `BsonDocument.Parse`) and serialising documents. These are library calls. Payloads and documents are already-structured values, and `Services.ToDocument` stands for serialising the record and parsing it back.
- The read projection through canonical extended JSON (`UserStatusService.cs:176-177, 188-189`) is modelled as the identity. Its rendering of numbers as wrapper objects such as `{"$numberInt": "100"}` is not modelled.
- Payload values whose JSON type differs from the one the model gives the field are not modelled. One example is a string `id` that `Value<int>()` would convert. Another is a `skillvalues` or `activities` field holding a scalar or an object rather than an array or null.
- Text.ToLower: maps only the ASCII capitals A-Z. The source's `ToLower()` uses the current culture and maps every Unicode letter.
- ProfileNormalizer.ActivitiesSortedStable and ProfileNormalizer.DateLe: cover only `date` values that Json.NET keeps as strings. `JObject.Parse` turns an ISO date-time string such as `"2023-06-09T10:00:00Z"` into a Date token. Such tokens compare chronologically, and comparing one with a string token can throw. The record's text then writes such a date back in Json.NET's own format. Date tokens are not modelled.
- Text.StrLe: compares Unicode scalar values, whereas ordinal comparison uses UTF-16 code units. The two orders differ only for characters outside the Basic Multilingual Plane.
- MongoDB details are not modelled:
  - the order of a collection is taken to be insertion order, whereas MongoDB's natural order is not guaranteed;
  - an equality filter on an array-valued field matches any element of the array;
  - a filter value is converted by `BsonValue.Create`.
- `InsertOne` adds a generated `_id` to a document that has none, and reads render it as `{"$oid": …}`. This generation is not modelled: stored documents are compared without `_id`. So `Services.AddUserDataUnique`, `Services.AddUserDataTwice` and `Services.IngestThenFetch` state equality with the inserted record up to that field.
- The source uses two repository objects over one database. The model gives both roles to one `DocumentDatabase`.
- The logging in the skills `catch` block (`Console.WriteLine`) is I/O.
- The race between scan, delete and insert under concurrent requests is not modelled; only sequential calls are. A store failure between the delete and the insert, which would leave the player without a document, is not modelled either.
- The controller, routing, status-code mapping, dependency injection and configuration are not modelled.
- Dropping a whole collection (`Delete` in `IBaseRepository.cs:18`) is declared by the repository interface but never called by the service, so it is not modelled.
