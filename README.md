# Library catalog store — a Dafny model

The system is a small HTTP/JSON API over a library catalog: an ordered
collection of book records (`book_id`, `title`, `author`, `genre`, `year`,
`copies`) kept in one JSON file. Every request loads the whole collection,
validates its input, searches or changes the sequence in memory and, when it
changes something, writes the whole sequence back. This project models that
catalog store and proves what its five handlers promise.

- `catalog.dfy`, module `Catalog`: the request field values
  (`Absent | VStr | VInt | VOther`, standing for JavaScript's `undefined`, a
  string, an integer and anything else), the `Book` record, the outcomes
  (`Created`, `Ok`, `BadRequest`, `Conflict`, `NotFound`, with their HTTP
  status and the source's error messages), the create validation, the
  field-selective update, the first-match search used by `find`/`findIndex`,
  `splice(i, 1)`, and lemmas about how appending, replacing and removing a
  record affect lookups, id uniqueness and well-formedness.
- `store.dfy`, module `Store`: class `CatalogStore`, whose one field `books`
  stands for the data file. Reading the file is reading `books`; writing it is
  assigning `books`. Each handler is a method whose contract gives its outcome
  and the new collection for every branch. On every error path the
  collection is unchanged, and every mutating handler keeps "no two records
  share a `book_id`" and "every text field is non-empty".
- `scenarios.dfy`, module `Scenarios`: request sequences on fresh stores,
  proved from the handlers' contracts. They cover create-then-get round trip,
  duplicate create, unknown ids, invalid create bodies, `copies: 0` and
  `title: ""` on update, and deleting one of two books.

Modelling decisions:
- A "truthy" text field is a non-empty string (`IsText`). `Number.isInteger`
  is the `VInt` case (`IsInteger`).
- `book_id` is a string compared with `==`. The source uses JavaScript's loose
  `==`, which also equates a number with any string that converts to that
  number (`1` with `"1"`, `"01"`, `" 1"` or `"1e0"`, and `0` with `""`). For
  two strings the two comparisons agree.
- Book records are values. The source mutates the found record object in
  place, but `readBooks` parses fresh objects on every request, so nothing
  else can observe that object. `Update` still assigns the fields one by one,
  in the source's order.
- `book_id` is meant to be unique across the collection, but the code only
  ensures that a create does not add a duplicate. So the model proves
  uniqueness as preserved (`IdsUnique(old(books)) ==> IdsUnique(books)`), not
  as a fact about any loaded file. A file edited by hand can hold duplicates;
  lookups then return the first match.

## Model

| member | source | states |
|---|---|---|
| `Catalog.ValidCreate` | index.js:26 | the create guard: `book_id`, `title`, `author` and `genre` are non-empty strings, `year` and `copies` are integers |
| `Catalog.ValidUpdate` | index.js:63-64 | the update type checks: `year` and `copies` are each absent or an integer |
| `Catalog.Patched` | index.js:66-70 | the field-selective overwrite: a text field takes the new value only when it is a non-empty string, `year` and `copies` whenever given, `book_id` never |
| `Catalog.NewBook` | index.js:25-35 | a create body yields a record exactly when all four text fields are truthy strings and `year` and `copies` are integers; the record carries exactly the six supplied fields (sending it back gives the same body) and is well-formed |
| `Catalog.NewBookOfRequest` | index.js:35 | the inverse direction: a well-formed book sent as a create body is stored unchanged |
| `Catalog.PatchOfReplaces` | index.js:66-70 | a patch that supplies every field turns any record with the same id into the supplied record |
| `Catalog.PatchedIdempotent` | index.js:66-70 | applying the same update body twice gives the same record as applying it once |
| `Catalog.PatchedNothing` | index.js:66-70 | a body whose text fields are absent or empty strings (and, in the model only, non-strings) and that has no `year`/`copies` leaves the record unchanged |
| `Catalog.PatchedKeepsIdentity` | index.js:66-70 | an update never changes `book_id`, and a record with non-empty text fields keeps them non-empty |
| `Catalog.FindIndex` | index.js:79-80 | `findIndex`: when it finds a position, that is the first record with the id; it finds none exactly when no record has the id |
| `Catalog.Find` | index.js:50-51 | `find`: none exactly when no record has the id, otherwise the record at the first matching position |
| `Catalog.FirstMatchUnique` | index.js:58 | two first-match positions for the same id are equal |
| `Catalog.RemoveAt` | index.js:82 | `splice(i, 1)`: one record shorter, records before `i` in place, records after `i` shifted down by one, the multiset loses exactly the removed record |
| `Catalog.AppendNewId` | index.js:31-36 | appending a record whose id is not present keeps ids unique, and the new record becomes the first (only) match for its id |
| `Catalog.AppendKeepsOthers` | index.js:36 | appending a record does not change the lookup of any other id |
| `Catalog.ReplaceSameId` | index.js:66-72 | replacing a record by one with the same id changes no lookup and keeps ids unique |
| `Catalog.RemoveKeepsInvariants` | index.js:82 | removing a record keeps ids unique and every remaining record well-formed |
| `Catalog.RemoveForgetsId` | index.js:79-83 | after deleting an id's record from a collection with unique ids, no record has that id |
| `Catalog.RemoveKeepsOthers` | index.js:79-83 | deleting one id's record leaves the record found for every other id unchanged |
| `Store.CatalogStore.constructor` | index.js:13-16 | the store starts with the collection the file holds |
| `Store.CatalogStore.List` | index.js:42-45 | returns 200 with the whole collection in stored order, writing nothing |
| `Store.CatalogStore.Get` | index.js:48-53 | 404 exactly when no record has the id; otherwise 200 with the first matching record; writes nothing |
| `Store.CatalogStore.Create` | index.js:24-39 | invalid body: 400, collection unchanged (checked before the id); known id: 409, unchanged; otherwise 201 with the new record, appended once at the end with all earlier records in place; keeps ids unique and records well-formed |
| `Store.CatalogStore.Update` | index.js:56-74 | unknown id: 404 even when `year`/`copies` are invalid; non-integer `year` (checked first) or `copies`: 400, collection unchanged; otherwise only the first matching record is replaced by its patched version and returned; keeps ids unique and records well-formed |
| `Store.CatalogStore.Delete` | index.js:77-85 | unknown id: 404, unchanged; otherwise 200 with the deletion message, the collection one shorter, exactly the first matching record removed, the rest in order; keeps ids unique and records well-formed |
| `Scenarios.CreateThenGet` | index.js:24-53 | in any store without the id, create answers 201 and get-by-id then answers 200 with exactly the supplied fields |
| `Scenarios.CreateTwice` | index.js:30-33 | creating `b1` twice answers 201 then 409 and leaves one record |
| `Scenarios.UnknownId` | index.js:48-85 | get, update (even with an invalid `year`) and delete of `zzz` each answer 404 and write nothing |
| `Scenarios.InvalidCreate` | index.js:26-27 | a string `year` or a missing `author` answers 400 and writes nothing |
| `Scenarios.SelectiveUpdate` | index.js:63-70 | `copies: 0` sets the count to zero, `title: ""` keeps the title, a non-integer `copies` answers 400 and writes nothing |
| `Scenarios.DeleteOneOfTwo` | index.js:79-84 | deleting `b1` from `[b1, b2]` leaves exactly `[b2]` |

## Left out

- File I/O and JSON (`readBooks`/`writeBooks`, index.js:13-21): reading and writing the file are reading and assigning `books`. A missing or malformed file and a failed write are storage errors that the model does not include. The 2-space pretty-printing is not modelled.
- Express plumbing: the JSON and static-file middleware, route registration, response formatting and `app.listen` with its log line (index.js:7-8, 87-89).
- Concurrency: the lost update between two interleaved read-modify-write requests. The model is sequential.
- Loose `==` between a numeric `book_id` in the file and the string path parameter (for example `1 == "1"`). Ids are strings compared exactly.
- Records in the file with extra fields or missing fields: a `Book` has exactly the six fields.
- `Catalog.NewBook`: a truthy value that is not a string (a non-zero number, an object) as `book_id`, `title`, `author` or `genre` is accepted by the source and stored as is. The model treats every non-string as invalid and answers 400.
- `Catalog.ValidCreate`: the same deviation; this guard is where a non-string text field is refused.
- `Store.CatalogStore.Create`: answers 400 for a truthy non-string `book_id`, `title`, `author` or `genre`, through `Catalog.ValidCreate`; the source creates the record.
- `Catalog.Patched`: a truthy non-string `title`, `author` or `genre` (`5`, `true`, `{}`) is written over the field by the source; the model keeps the old value, because record text fields are strings.
- `Catalog.PatchedNothing`: holds of the model only when the body has truthy non-string text fields; the source would overwrite those fields.
- `Store.CatalogStore.Update`: a truthy non-string `title`, `author` or `genre` overwrites the field in the source. The model leaves the field unchanged, because record text fields are strings.
