/** The values a catalog handler works on: the fields of a JSON request body,
    the stored book records, the outcomes of a request, and the pure parts of
    the handlers (the create validation, the field-selective update and the
    first-match search over the collection). */
module Catalog {

  datatype Option<+T> = None | Some(value: T)

  /** One field of a parsed JSON request body. `Absent` is a key that is not
      there (`undefined`); `VOther` is every value that is neither a string nor
      an integer (null, booleans, fractions, arrays, objects). */
  datatype Value = Absent | VStr(s: string) | VInt(i: int) | VOther

  /** A text field the handlers accept: a truthy string, i.e. a non-empty one. */
  predicate IsText(v: Value) {
    v.VStr? && v.s != ""
  }

  /** `Number.isInteger(v)`. */
  predicate IsInteger(v: Value) {
    v.VInt?
  }

  /** One record of the persisted collection. */
  datatype Book = Book(bookId: string, title: string, author: string, genre: string, year: int, copies: int)

  /** A book as create leaves it: every text field non-empty. */
  predicate WellFormed(b: Book) {
    b.bookId != "" && b.title != "" && b.author != "" && b.genre != ""
  }

  predicate AllWellFormed(s: seq<Book>) {
    forall k :: 0 <= k < |s| ==> WellFormed(s[k])
  }

  /** The body of a `POST /books` request. */
  datatype CreateBody = CreateBody(bookId: Value, title: Value, author: Value, genre: Value, year: Value, copies: Value)

  /** The body of a `PUT /books/:id` request (its `book_id`, if any, is never read). */
  datatype UpdateBody = UpdateBody(title: Value, author: Value, genre: Value, year: Value, copies: Value)

  /** What a handler answers: the HTTP status and the JSON it sends. */
  datatype Body = One(book: Book) | All(books: seq<Book>) | Message(text: string)

  datatype Outcome =
    | Created(book: Book)
    | Ok(body: Body)
    | BadRequest(error: string)
    | Conflict(error: string)
    | NotFound(error: string)
  {
    function Status(): int {
      match this
      case Created(_) => 201
      case Ok(_) => 200
      case BadRequest(_) => 400
      case Conflict(_) => 409
      case NotFound(_) => 404
    }
  }

  const INVALID_INPUT := "Invalid input. Please provide all required fields with valid types."
  const DUPLICATE_ID := "Book with this ID already exists."
  const BOOK_NOT_FOUND := "Book not found."
  const YEAR_NOT_INTEGER := "Year must be an integer."
  const COPIES_NOT_INTEGER := "Copies must be an integer."
  const BOOK_DELETED := "Book deleted successfully."

  // ---------------------------------------------------------------------------
  // Create: validation and the new record

  /** The guard of the create handler: four truthy text fields, two integers. */
  predicate ValidCreate(body: CreateBody) {
    IsText(body.bookId) && IsText(body.title) && IsText(body.author) && IsText(body.genre)
    && IsInteger(body.year) && IsInteger(body.copies)
  }

  /** The request body that carries exactly the fields of `b`. */
  function RequestOf(b: Book): CreateBody {
    CreateBody(VStr(b.bookId), VStr(b.title), VStr(b.author), VStr(b.genre), VInt(b.year), VInt(b.copies))
  }

  /** The record a create request stores, or None when the request fails
      validation. The record is built from the six supplied fields and nothing
      else: sending it back as a request gives the very same body. */
  function NewBook(body: CreateBody): (r: Option<Book>)
    ensures r.Some? <==> ValidCreate(body)
    ensures r.Some? ==> RequestOf(r.value) == body && WellFormed(r.value)
  {
    if ValidCreate(body) then
      Some(Book(body.bookId.s, body.title.s, body.author.s, body.genre.s, body.year.i, body.copies.i))
    else
      None
  }

  /** The other half of the round trip: a well-formed book sent as a create
      request is stored unchanged. */
  lemma NewBookOfRequest(b: Book)
    requires WellFormed(b)
    ensures NewBook(RequestOf(b)) == Some(b)
  {
  }

  // ---------------------------------------------------------------------------
  // Update: type checks and the field-selective overwrite

  /** `year` and `copies` are each absent or an integer. */
  predicate ValidUpdate(body: UpdateBody) {
    (body.year == Absent || IsInteger(body.year)) && (body.copies == Absent || IsInteger(body.copies))
  }

  /** The record after an update: a text field is overwritten only by a truthy
      string, `year` and `copies` whenever they are given (zero included), and
      `book_id` never. */
  function Patched(b: Book, p: UpdateBody): Book
    requires ValidUpdate(p)
  {
    b.(title := if IsText(p.title) then p.title.s else b.title,
       author := if IsText(p.author) then p.author.s else b.author,
       genre := if IsText(p.genre) then p.genre.s else b.genre,
       year := if p.year.VInt? then p.year.i else b.year,
       copies := if p.copies.VInt? then p.copies.i else b.copies)
  }

  /** A patch that sets every field of `c`, the partner of `Patched`: it turns
      any record with the same id into `c`. */
  function PatchOf(c: Book): UpdateBody {
    UpdateBody(VStr(c.title), VStr(c.author), VStr(c.genre), VInt(c.year), VInt(c.copies))
  }

  lemma PatchOfReplaces(b: Book, c: Book)
    requires WellFormed(c) && b.bookId == c.bookId
    ensures ValidUpdate(PatchOf(c)) && Patched(b, PatchOf(c)) == c
  {
  }

  /** Applying the same patch twice changes nothing more. */
  lemma PatchedIdempotent(b: Book, p: UpdateBody)
    requires ValidUpdate(p)
    ensures Patched(Patched(b, p), p) == Patched(b, p)
  {
  }

  /** A patch with no truthy text and no numbers leaves the record as it was. */
  lemma PatchedNothing(b: Book, p: UpdateBody)
    requires !IsText(p.title) && !IsText(p.author) && !IsText(p.genre)
    requires p.year == Absent && p.copies == Absent
    ensures ValidUpdate(p) && Patched(b, p) == b
  {
  }

  /** The id never changes, and a well-formed record stays well-formed. */
  lemma PatchedKeepsIdentity(b: Book, p: UpdateBody)
    requires ValidUpdate(p)
    ensures Patched(b, p).bookId == b.bookId
    ensures WellFormed(b) ==> WellFormed(Patched(b, p))
  {
  }

  // ---------------------------------------------------------------------------
  // The collection: first-match search, uniqueness, removal

  /** `i` is the first position whose record has id `id`. */
  predicate FirstMatch(s: seq<Book>, id: string, i: int) {
    0 <= i < |s| && s[i].bookId == id && forall j :: 0 <= j < i ==> s[j].bookId != id
  }

  /** No record has id `id`. */
  predicate NoMatch(s: seq<Book>, id: string) {
    forall j :: 0 <= j < |s| ==> s[j].bookId != id
  }

  /** `findIndex(b => b.book_id == id)`, with None for -1. */
  function FindIndex(s: seq<Book>, id: string): (r: Option<nat>)
    ensures r.Some? ==> FirstMatch(s, id, r.value)
    ensures r.None? <==> NoMatch(s, id)
  {
    if s == [] then None
    else if s[0].bookId == id then Some(0)
    else match FindIndex(s[1..], id)
      case None => None
      case Some(k) => Some(k + 1)
  }

  /** `find(b => b.book_id == id)`. */
  function Find(s: seq<Book>, id: string): (r: Option<Book>)
    ensures r.None? <==> NoMatch(s, id)
    ensures r.Some? ==> exists i :: FirstMatch(s, id, i) && r.value == s[i]
  {
    match FindIndex(s, id)
    case None => None
    case Some(i) => Some(s[i])
  }

  /** There is only one first match. */
  lemma FirstMatchUnique(s: seq<Book>, id: string, i: int, j: int)
    requires FirstMatch(s, id, i) && FirstMatch(s, id, j)
    ensures i == j
  {
  }

  /** No two records share a `book_id`. */
  predicate IdsUnique(s: seq<Book>) {
    forall i, j :: 0 <= i < j < |s| ==> s[i].bookId != s[j].bookId
  }

  /** `splice(i, 1)`: the collection without its record at `i`, the others in
      their order. */
  function RemoveAt(s: seq<Book>, i: nat): (r: seq<Book>)
    requires i < |s|
    ensures |r| == |s| - 1
    ensures forall j :: 0 <= j < i ==> r[j] == s[j]
    ensures forall j :: i <= j < |r| ==> r[j] == s[j + 1]
    ensures multiset(r) + multiset{s[i]} == multiset(s)
  {
    assert s == s[..i] + [s[i]] + s[i + 1..];
    s[..i] + s[i + 1..]
  }

  /** Appending a record whose id is new keeps the ids unique, and the new
      record is then the one found for its id. */
  lemma AppendNewId(s: seq<Book>, b: Book)
    requires NoMatch(s, b.bookId)
    ensures IdsUnique(s) ==> IdsUnique(s + [b])
    ensures FindIndex(s + [b], b.bookId) == Some(|s|)
  {
    var t := s + [b];
    assert FirstMatch(t, b.bookId, |s|);
    FirstMatchUnique(t, b.bookId, FindIndex(t, b.bookId).value, |s|);
  }

  /** Appending a record leaves the lookup of every other id as it was. */
  lemma AppendKeepsOthers(s: seq<Book>, b: Book, id: string)
    requires id != b.bookId
    ensures FindIndex(s + [b], id) == FindIndex(s, id)
  {
    var t := s + [b];
    match FindIndex(s, id)
    case None =>
      assert NoMatch(t, id);
    case Some(k) =>
      assert FirstMatch(t, id, k);
      FirstMatchUnique(t, id, FindIndex(t, id).value, k);
  }

  /** Replacing a record by one with the same id keeps every lookup and keeps
      the ids unique. */
  lemma ReplaceSameId(s: seq<Book>, i: nat, b: Book, id: string)
    requires i < |s| && b.bookId == s[i].bookId
    ensures FindIndex(s[i := b], id) == FindIndex(s, id)
    ensures IdsUnique(s) ==> IdsUnique(s[i := b])
  {
    var t := s[i := b];
    assert forall j :: 0 <= j < |s| ==> t[j].bookId == s[j].bookId;
    match FindIndex(s, id)
    case None =>
      assert NoMatch(t, id);
    case Some(k) =>
      assert FirstMatch(t, id, k);
      FirstMatchUnique(t, id, FindIndex(t, id).value, k);
  }

  /** Removing a record keeps the ids unique, and the others well-formed. */
  lemma RemoveKeepsInvariants(s: seq<Book>, i: nat)
    requires i < |s|
    ensures IdsUnique(s) ==> IdsUnique(RemoveAt(s, i))
    ensures AllWellFormed(s) ==> AllWellFormed(RemoveAt(s, i))
  {
  }

  /** Deleting the record of an id from a collection with unique ids leaves that
      id unknown. */
  lemma RemoveForgetsId(s: seq<Book>, id: string, i: nat)
    requires IdsUnique(s) && FirstMatch(s, id, i)
    ensures NoMatch(RemoveAt(s, i), id)
  {
  }

  /** Deleting the record of one id leaves the record found for every other id
      as it was. */
  lemma RemoveKeepsOthers(s: seq<Book>, id: string, i: nat, other: string)
    requires FirstMatch(s, id, i) && other != id
    ensures Find(RemoveAt(s, i), other) == Find(s, other)
  {
    var r := RemoveAt(s, i);
    match FindIndex(s, other)
    case None =>
      forall j | 0 <= j < |r|
        ensures r[j].bookId != other
      {
        if j < i { assert r[j] == s[j]; } else { assert r[j] == s[j + 1]; }
      }
    case Some(k) =>
      assert k != i;
      var m := if k < i then k else k - 1;
      assert r[m] == s[k];
      forall j | 0 <= j < m
        ensures r[j].bookId != other
      {
        if j < i { assert r[j] == s[j]; } else { assert r[j] == s[j + 1]; }
      }
      assert FirstMatch(r, other, m);
      FirstMatchUnique(r, other, FindIndex(r, other).value, m);
  }
}
