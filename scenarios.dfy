/** Request sequences against a store, each stating what its responses and the
    collection afterwards must be. They use only the handlers' contracts. */
module Scenarios {
  import opened Catalog
  import opened Store

  function B1(): CreateBody {
    CreateBody(VStr("b1"), VStr("T"), VStr("A"), VStr("G"), VInt(2020), VInt(3))
  }

  function B2(): CreateBody {
    CreateBody(VStr("b2"), VStr("U"), VStr("B"), VStr("H"), VInt(1999), VInt(1))
  }

  /** Create then get-by-id returns exactly the supplied fields, in any store
      that does not yet know the id. */
  method CreateThenGet(initial: seq<Book>, body: CreateBody) returns (created: Outcome, fetched: Outcome, book: Book)
    requires ValidCreate(body) && NoMatch(initial, body.bookId.s)
    ensures RequestOf(book) == body
    ensures created == Created(book) && created.Status() == 201
    ensures fetched == Ok(One(book)) && fetched.Status() == 200
  {
    var store := new CatalogStore(initial);
    created := store.Create(body);
    book := created.book;
    fetched := store.Get(body.bookId.s);
    FirstMatchUnique(store.books, body.bookId.s, |store.books| - 1,
                     FindIndex(store.books, body.bookId.s).value);
  }

  /** The same id created twice: 201, then 409, and one record in the store. */
  method CreateTwice() returns (first: Outcome, second: Outcome, all: Outcome)
    ensures first.Status() == 201 && second == Conflict(DUPLICATE_ID) && second.Status() == 409
    ensures all == Ok(All([Book("b1", "T", "A", "G", 2020, 3)]))
  {
    var store := new CatalogStore([]);
    first := store.Create(B1());
    assert store.books == [Book("b1", "T", "A", "G", 2020, 3)];
    assert store.books[0].bookId == "b1";
    second := store.Create(B1());
    all := store.List();
  }

  /** Get, update and delete of an unknown id each answer 404 and write nothing. */
  method UnknownId(initial: seq<Book>) returns (got: Outcome, updated: Outcome, deleted: Outcome, after: seq<Book>)
    requires NoMatch(initial, "zzz")
    ensures got.Status() == 404 && updated.Status() == 404 && deleted.Status() == 404
    ensures after == initial
  {
    var store := new CatalogStore(initial);
    got := store.Get("zzz");
    updated := store.Update("zzz", UpdateBody(Absent, Absent, Absent, VStr("2020"), VOther));
    deleted := store.Delete("zzz");
    after := store.books;
  }

  /** A string year, or a missing author, is refused with 400. */
  method InvalidCreate(initial: seq<Book>) returns (stringYear: Outcome, noAuthor: Outcome, after: seq<Book>)
    ensures stringYear == BadRequest(INVALID_INPUT) && stringYear.Status() == 400
    ensures noAuthor == BadRequest(INVALID_INPUT)
    ensures after == initial
  {
    var store := new CatalogStore(initial);
    stringYear := store.Create(B1().(year := VStr("2020")));
    noAuthor := store.Create(B1().(author := Absent));
    after := store.books;
  }

  /** `copies: 0` sets the count to zero; `title: ""` keeps the title; a
      non-integer `copies` is refused and writes nothing. */
  method SelectiveUpdate() returns (zero: Outcome, emptyTitle: Outcome, badCopies: Outcome, after: seq<Book>)
    ensures zero == Ok(One(Book("b1", "T", "A", "G", 2020, 0)))
    ensures emptyTitle == Ok(One(Book("b1", "T", "A", "G", 2020, 0)))
    ensures badCopies == BadRequest(COPIES_NOT_INTEGER)
    ensures after == [Book("b1", "T", "A", "G", 2020, 0)]
  {
    var store := new CatalogStore([]);
    var _ := store.Create(B1());
    assert store.books == [Book("b1", "T", "A", "G", 2020, 3)];
    assert FirstMatch(store.books, "b1", 0);
    zero := store.Update("b1", UpdateBody(Absent, Absent, Absent, Absent, VInt(0)));
    assert store.books == [Book("b1", "T", "A", "G", 2020, 0)];
    assert FirstMatch(store.books, "b1", 0);
    emptyTitle := store.Update("b1", UpdateBody(VStr(""), Absent, Absent, Absent, Absent));
    assert store.books == [Book("b1", "T", "A", "G", 2020, 0)];
    assert FirstMatch(store.books, "b1", 0);
    badCopies := store.Update("b1", UpdateBody(Absent, Absent, Absent, VInt(2021), VOther));
    after := store.books;
  }

  /** Deleting one of two books leaves exactly the other one. */
  method DeleteOneOfTwo() returns (deleted: Outcome, all: Outcome)
    ensures deleted == Ok(Message(BOOK_DELETED))
    ensures all == Ok(All([Book("b2", "U", "B", "H", 1999, 1)]))
  {
    var store := new CatalogStore([]);
    var _ := store.Create(B1());
    assert store.books == [Book("b1", "T", "A", "G", 2020, 3)];
    var _ := store.Create(B2());
    assert store.books == [Book("b1", "T", "A", "G", 2020, 3), Book("b2", "U", "B", "H", 1999, 1)];
    ghost var before := store.books;
    assert FirstMatch(before, "b1", 0);
    deleted := store.Delete("b1");
    ghost var i :| FirstMatch(before, "b1", i) && store.books == RemoveAt(before, i);
    FirstMatchUnique(before, "b1", i, 0);
    assert store.books == [before[1]];
    all := store.List();
  }
}
