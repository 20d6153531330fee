/** The catalog store: the persisted collection and the five request handlers
    that read it, change it in memory and write it back. Reading the file is
    reading `books`; writing it is assigning `books`. */
module Store {
  import opened Catalog

  class CatalogStore {
    /** The collection as the data file holds it, in insertion order. */
    var books: seq<Book>

    constructor (initial: seq<Book>)
      ensures books == initial
    {
      books := initial;
    }

    /** `GET /books`: the whole collection in stored order. */
    method List() returns (o: Outcome)
      ensures o == Ok(All(books))
      ensures o.Status() == 200
    {
      var current := books;
      o := Ok(All(current));
    }

    /** `GET /books/:id`: the first record with that id, or 404. */
    method Get(id: string) returns (o: Outcome)
      ensures NoMatch(books, id) <==> o == NotFound(BOOK_NOT_FOUND)
      ensures !NoMatch(books, id) ==> exists i :: FirstMatch(books, id, i) && o == Ok(One(books[i]))
    {
      var current := books;
      var found := Find(current, id);
      if found.None? {
        return NotFound(BOOK_NOT_FOUND);
      }
      o := Ok(One(found.value));
    }

    /** `POST /books`: validate, refuse a known id, append the new record. */
    method Create(body: CreateBody) returns (o: Outcome)
      modifies this
      ensures !ValidCreate(body) ==> o == BadRequest(INVALID_INPUT) && books == old(books)
      ensures ValidCreate(body) && !NoMatch(old(books), body.bookId.s) ==>
                o == Conflict(DUPLICATE_ID) && books == old(books)
      ensures ValidCreate(body) && NoMatch(old(books), body.bookId.s) ==>
                o == Created(NewBook(body).value) && books == old(books) + [NewBook(body).value]
      ensures o.Created? ==> FirstMatch(books, o.book.bookId, |books| - 1)
      ensures IdsUnique(old(books)) ==> IdsUnique(books)
      ensures AllWellFormed(old(books)) ==> AllWellFormed(books)
    {
      var parsed := NewBook(body);
      if parsed.None? {
        return BadRequest(INVALID_INPUT);
      }
      var current := books;
      if Find(current, body.bookId.s).Some? {
        return Conflict(DUPLICATE_ID);
      }
      var newBook := parsed.value;
      AppendNewId(current, newBook);
      current := current + [newBook];
      books := current;
      o := Created(newBook);
    }

    /** `PUT /books/:id`: 404 for an unknown id before any type check, then 400
        for a non-integer `year` or `copies`, then the selective overwrite of
        the first matching record. */
    method Update(id: string, body: UpdateBody) returns (o: Outcome)
      modifies this
      ensures NoMatch(old(books), id) ==> o == NotFound(BOOK_NOT_FOUND) && books == old(books)
      ensures !NoMatch(old(books), id) && body.year != Absent && !IsInteger(body.year) ==>
                o == BadRequest(YEAR_NOT_INTEGER) && books == old(books)
      ensures !NoMatch(old(books), id) && (body.year == Absent || IsInteger(body.year))
              && body.copies != Absent && !IsInteger(body.copies) ==>
                o == BadRequest(COPIES_NOT_INTEGER) && books == old(books)
      ensures !NoMatch(old(books), id) && ValidUpdate(body) ==>
                exists i :: FirstMatch(old(books), id, i)
                  && o == Ok(One(Patched(old(books)[i], body)))
                  && books == old(books)[i := Patched(old(books)[i], body)]
      ensures IdsUnique(old(books)) ==> IdsUnique(books)
      ensures AllWellFormed(old(books)) ==> AllWellFormed(books)
    {
      var current := books;
      var found := FindIndex(current, id);
      if found.None? {
        return NotFound(BOOK_NOT_FOUND);
      }
      var i := found.value;
      if body.year != Absent && !IsInteger(body.year) {
        return BadRequest(YEAR_NOT_INTEGER);
      }
      if body.copies != Absent && !IsInteger(body.copies) {
        return BadRequest(COPIES_NOT_INTEGER);
      }
      var book := current[i];
      if IsText(body.title) { book := book.(title := body.title.s); }
      if IsText(body.author) { book := book.(author := body.author.s); }
      if IsText(body.genre) { book := book.(genre := body.genre.s); }
      if body.year != Absent { book := book.(year := body.year.i); }
      if body.copies != Absent { book := book.(copies := body.copies.i); }
      assert book == Patched(current[i], body);
      PatchedKeepsIdentity(current[i], body);
      ReplaceSameId(current, i, book, id);
      current := current[i := book];
      books := current;
      o := Ok(One(book));
    }

    /** `DELETE /books/:id`: remove the first matching record, or 404. */
    method Delete(id: string) returns (o: Outcome)
      modifies this
      ensures NoMatch(old(books), id) ==> o == NotFound(BOOK_NOT_FOUND) && books == old(books)
      ensures !NoMatch(old(books), id) ==>
                o == Ok(Message(BOOK_DELETED)) && |books| == |old(books)| - 1
                && exists i :: FirstMatch(old(books), id, i) && books == RemoveAt(old(books), i)
      ensures IdsUnique(old(books)) ==> IdsUnique(books)
      ensures AllWellFormed(old(books)) ==> AllWellFormed(books)
    {
      var current := books;
      var index := FindIndex(current, id);
      if index.None? {
        return NotFound(BOOK_NOT_FOUND);
      }
      RemoveKeepsInvariants(current, index.value);
      current := RemoveAt(current, index.value);
      books := current;
      o := Ok(Message(BOOK_DELETED));
    }
  }
}
