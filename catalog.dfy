/** The book handlers: the paginated listing with its category filter, and
    get, create, update and delete of one book. The collection is a map from
    id to book; the listing works on the books already ordered newest first,
    which is the order the database query sorts them in. */
module Catalog {
  import opened Basics
  import opened BookSchema

  /** A stored book with its id. */
  datatype Entry = Entry(id: BookId, book: Book)

  /** The query string of a listing; absent parameters are None. The search
      parameter is not part of this model. */
  datatype Query = Query(category: Option<string>, page: Option<int>, limit: Option<int>)

  datatype BookPage = BookPage(books: seq<Entry>, currentPage: int, totalPages: int, totalBooks: int)

  datatype CatalogError =
    | NotFound                          // 404
    | MissingField(field: BookField)    // the route's own validation, 400
    | Rejected(fields: set<BookField>)  // the schema refused the document, 500
    | NegativeSkip                      // the database refuses a negative skip, 500
    | UnsupportedLimit                  // a limit below 1, outside this model

  const DefaultPage: int := 1
  const DefaultLimit: int := 10

  /** The entries whose category is spelled exactly `name`, in listing order. */
  function OfCategory(listing: seq<Entry>, name: string): (r: seq<Entry>)
    ensures |r| <= |listing|
    ensures forall k :: 0 <= k < |r| ==> CategoryName(r[k].book.category) == name
    ensures forall e :: e in r <==> e in listing && CategoryName(e.book.category) == name
  {
    if listing == [] then []
    else
      var last := listing[|listing| - 1];
      OfCategory(listing[..|listing| - 1], name)
      + (if CategoryName(last.book.category) == name then [last] else [])
  }

  /** The filter keeps the listing's order: filtering a concatenation is
      concatenating the filtered parts. */
  lemma {:induction false} OfCategoryAppend(a: seq<Entry>, b: seq<Entry>, name: string)
    ensures OfCategory(a + b, name) == OfCategory(a, name) + OfCategory(b, name)
    decreases |b|
  {
    if b == [] {
      assert a + b == a;
    } else {
      var init, last := b[..|b| - 1], b[|b| - 1];
      OfCategoryAppend(a, init, name);
      SplitLast(a, b);
      var l, m := OfCategory(a, name), OfCategory(init, name);
      var k := if CategoryName(last.book.category) == name then [last] else [];
      OfCategorySnoc(a + init, last, name);
      OfCategorySnoc(init, last, name);
      Associative(l, m, k);
    }
  }

  lemma SplitLast<T>(a: seq<T>, b: seq<T>)
    requires b != []
    ensures a + b == (a + b[..|b| - 1]) + [b[|b| - 1]]
    ensures b == b[..|b| - 1] + [b[|b| - 1]]
  {
  }

  lemma Associative<T>(x: seq<T>, y: seq<T>, z: seq<T>)
    ensures (x + y) + z == x + (y + z)
  {
  }

  lemma OfCategorySnoc(xs: seq<Entry>, e: Entry, name: string)
    ensures OfCategory(xs + [e], name)
         == OfCategory(xs, name) + (if CategoryName(e.book.category) == name then [e] else [])
  {
    assert (xs + [e])[..|xs|] == xs;
  }

  /** The category filter applies only when the parameter is present and
      non-empty; an empty string is falsy and lists everything. */
  function Matches(listing: seq<Entry>, category: Option<string>): (r: seq<Entry>)
    ensures |r| <= |listing|
    ensures category.None? || category.value == "" ==> r == listing
    ensures category.Some? && category.value != "" ==>
              forall e :: e in r <==> e in listing && CategoryName(e.book.category) == category.value
  {
    if category.None? || category.value == "" then listing else OfCategory(listing, category.value)
  }

  /** `Math.ceil(n / d)` for a non-negative count and a positive divisor. */
  function CeilDiv(n: nat, d: int): (r: nat)
    requires d > 0
    ensures r * d >= n
    ensures n > 0 ==> (r - 1) * d < n
    ensures n == 0 ==> r == 0
  {
    if n == 0 then 0
    else
      var q := (n - 1) / d;
      assert q * d <= n - 1 < q * d + d;
      assert (q + 1) * d == q * d + d;
      q + 1
  }

  lemma MulMonotone(a: int, b: int, d: int)
    requires a <= b && d >= 0
    ensures a * d <= b * d
  {
    assert b * d - a * d == (b - a) * d;
  }

  /** With a positive limit the skip is negative exactly for pages below 1. */
  lemma SkipSign(page: int, limit: int)
    requires limit >= 1
    ensures (page - 1) * limit < 0 <==> page < 1
    ensures page >= 1 ==> (page - 1) * limit >= 0
  {
    if page < 1 {
      MulMonotone(page - 1, -1, limit);
    } else {
      MulMonotone(0, page - 1, limit);
    }
  }

  /** The listing handler. Page and limit default to 1 and 10; the skip is
      (page - 1) * limit; the page is the slice of the matches starting at
      the skip, at most `limit` long; the total count ignores pagination. */
  function ListBooks(listing: seq<Entry>, q: Query): (r: Result<BookPage, CatalogError>)
    ensures var page := if q.page.None? then DefaultPage else q.page.value;
      var limit := if q.limit.None? then DefaultLimit else q.limit.value;
      var ms := Matches(listing, q.category);
      && (r.Ok? <==> limit >= 1 && page >= 1)
      && (r.Ok? ==>
            && r.value.currentPage == page
            && r.value.totalBooks == |ms|
            && r.value.totalPages == CeilDiv(|ms|, limit)
            && |r.value.books| <= limit
            && var skip := (page - 1) * limit;
               && skip >= 0
               && r.value.books == (if skip >= |ms| then [] else ms[skip..Min(skip + limit, |ms|)]))
      && (r.Err? && limit >= 1 ==> r.error == NegativeSkip)
  {
    var page := if q.page.None? then DefaultPage else q.page.value;
    var limit := if q.limit.None? then DefaultLimit else q.limit.value;
    if limit < 1 then Err(UnsupportedLimit)
    else
      var skip := (page - 1) * limit;
      SkipSign(page, limit);
      if skip < 0 then Err(NegativeSkip)
      else
        var ms := Matches(listing, q.category);
        var shown := if skip >= |ms| then [] else ms[skip..Min(skip + limit, |ms|)];
        Ok(BookPage(shown, page, CeilDiv(|ms|, limit), |ms|))
  }

  /** With a category given, every listed book has exactly that category. */
  lemma ListedBooksHaveCategory(listing: seq<Entry>, q: Query)
    requires q.category.Some? && q.category.value != ""
    requires ListBooks(listing, q).Ok?
    ensures forall e :: e in ListBooks(listing, q).value.books ==>
              e in listing && CategoryName(e.book.category) == q.category.value
  {
    var ms := Matches(listing, q.category);
    var r := ListBooks(listing, q).value;
    forall e | e in r.books
      ensures e in listing && CategoryName(e.book.category) == q.category.value
    {
      var k :| 0 <= k < |r.books| && r.books[k] == e;
      assert e in ms;
    }
  }

  /** Position k lies on page k / limit + 1, and on no other page. */
  lemma HomePage(k: nat, limit: int, p: int)
    requires limit >= 1
    ensures var home := k / limit + 1;
      && (home - 1) * limit + k % limit == k
      && k < home * limit
    ensures (p - 1) * limit <= k < p * limit <==> p == k / limit + 1
  {
    var home := k / limit + 1;
    assert (home - 1) * limit == (k / limit) * limit;
    assert home * limit == (k / limit) * limit + limit;
    if (p - 1) * limit <= k < p * limit {
      if p < home {
        MulMonotone(p, home - 1, limit);
      } else if p > home {
        MulMonotone(home, p - 1, limit);
      }
    }
  }

  /** The page holding position k < n is within ceil(n / limit). */
  lemma HomeWithinTotal(k: nat, n: nat, limit: int)
    requires limit >= 1 && k < n
    ensures k / limit + 1 <= CeilDiv(n, limit)
  {
    var home := k / limit + 1;
    HomePage(k, limit, home);
    var total := CeilDiv(n, limit);
    if total < home {
      MulMonotone(total, home - 1, limit);
    }
  }

  /** Paging partitions the matches: the match at position k is listed on
      page k / limit + 1, at position k % limit, that page is within
      `totalPages`, and position k belongs to no other page. */
  lemma EveryMatchOnExactlyOnePage(listing: seq<Entry>, category: Option<string>, limit: int, k: nat, p: int)
    requires limit >= 1
    requires k < |Matches(listing, category)|
    ensures var home := k / limit + 1;
      var r := ListBooks(listing, Query(category, Some(home), Some(limit)));
      && r.Ok?
      && home <= r.value.totalPages
      && k % limit < |r.value.books| && r.value.books[k % limit] == Matches(listing, category)[k]
    ensures (p - 1) * limit <= k < p * limit <==> p == k / limit + 1
  {
    HomePage(k, limit, p);
    ListedOnHomePage(listing, category, limit, k);
  }

  /** The first half of the partition: the home page lists position k. */
  lemma ListedOnHomePage(listing: seq<Entry>, category: Option<string>, limit: int, k: nat)
    requires limit >= 1
    requires k < |Matches(listing, category)|
    ensures var home := k / limit + 1;
      var r := ListBooks(listing, Query(category, Some(home), Some(limit)));
      && r.Ok?
      && home <= r.value.totalPages
      && k % limit < |r.value.books| && r.value.books[k % limit] == Matches(listing, category)[k]
  {
    var ms := Matches(listing, category);
    var home := k / limit + 1;
    var i := k % limit;
    HomePage(k, limit, home);
    HomeWithinTotal(k, |ms|, limit);
    var skip := (home - 1) * limit;
    assert skip + i == k && 0 <= i < limit;
    SliceAt(ms, skip, limit, i);
  }

  /** Position i of the page that starts at `skip` is match skip + i. */
  lemma SliceAt(ms: seq<Entry>, skip: int, limit: int, i: int)
    requires 0 <= skip && 0 <= i < limit && skip + i < |ms|
    ensures var shown := if skip >= |ms| then [] else ms[skip..Min(skip + limit, |ms|)];
      i < |shown| && shown[i] == ms[skip + i]
  {
  }

  /** Pages past `totalPages` are served, and are empty. */
  lemma PagesPastTheLastAreEmpty(listing: seq<Entry>, category: Option<string>, page: int, limit: int)
    requires limit >= 1
    requires page > CeilDiv(|Matches(listing, category)|, limit)
    ensures var r := ListBooks(listing, Query(category, Some(page), Some(limit)));
      r.Ok? && r.value.totalPages < page && r.value.books == []
  {
    MulMonotone(CeilDiv(|Matches(listing, category)|, limit), page - 1, limit);
  }

  /** GET of one book. */
  function GetBook(books: map<BookId, Book>, id: BookId): (r: Result<Book, CatalogError>)
    ensures r.Ok? <==> id in books
    ensures r.Ok? ==> r.value == books[id]
    ensures r.Err? ==> r.error == NotFound
  {
    if id in books then Ok(books[id]) else Err(NotFound)
  }

  /** The book table after a handler, and its answer. */
  datatype Change = Change(books: map<BookId, Book>, result: Result<Book, CatalogError>)

  /** POST of a book under a fresh id. The route requires the three texts,
      a category and a stock figure (price is required by the schema); the
      schema then applies its defaults and bounds. */
  function AddBook(books: map<BookId, Book>, id: BookId, inp: BookInput): (c: Change)
    requires id !in books
    ensures c.result.Ok? <==> (&& inp.title != "" && inp.author != "" && inp.description != ""
                               && inp.category != "" && inp.stock.Some? && Violations(inp) == {})
    ensures c.result.Ok? ==> c.books == books[id := c.result.value] && ValidBook(c.result.value)
    ensures c.result.Ok? ==> CreateBook(inp).Ok? && c.result.value == CreateBook(inp).value
    ensures c.result.Err? ==> c.books == books
    ensures c.result.Err? && c.result.error.Rejected? ==> c.result.error.fields == Violations(inp)
    ensures ValidCatalog(books) ==> ValidCatalog(c.books)
  {
    if inp.title == "" then Change(books, Err(MissingField(Title)))
    else if inp.author == "" then Change(books, Err(MissingField(Author)))
    else if inp.description == "" then Change(books, Err(MissingField(Description)))
    else if inp.category == "" then Change(books, Err(MissingField(CategoryField)))
    else if inp.stock.None? then Change(books, Err(MissingField(Stock)))
    else match CreateBook(inp)
      case Err(fs) => Change(books, Err(Rejected(fs)))
      case Ok(b) => Change(books[id := b], Ok(b))
  }

  /** The fields an update request sets; absent fields keep their value. */
  datatype BookPatch = BookPatch(
    title: Option<string>,
    author: Option<string>,
    description: Option<string>,
    price: Option<int>,
    category: Option<string>,
    image: Option<string>,
    stock: Option<int>,
    rating: Option<real>)

  /** Whether the patch sets field `f` to a value that breaks its bound. */
  predicate PatchViolated(p: BookPatch, f: BookField)
  {
    match f
    case Title => p.title.Some? && p.title.value == ""
    case Author => p.author.Some? && p.author.value == ""
    case Description => p.description.Some? && p.description.value == ""
    case Price => p.price.Some? && p.price.value < 0
    case CategoryField => p.category.Some? && ParseCategory(p.category.value).None?
    case Stock => p.stock.Some? && p.stock.value < 0
    case Rating => p.rating.Some? && !(0.0 <= p.rating.value <= 5.0)
  }

  /** The validators run on the fields an update sets, and only on those. */
  function PatchViolations(p: BookPatch): (fs: set<BookField>)
    ensures fs == {} <==> && (p.title.Some? ==> p.title.value != "")
                          && (p.author.Some? ==> p.author.value != "")
                          && (p.description.Some? ==> p.description.value != "")
                          && (p.price.Some? ==> p.price.value >= 0)
                          && (p.category.Some? ==> ParseCategory(p.category.value).Some?)
                          && (p.stock.Some? ==> p.stock.value >= 0)
                          && (p.rating.Some? ==> 0.0 <= p.rating.value <= 5.0)
  {
    var fs := set f: BookField | PatchViolated(p, f);
    assert Title in fs <==> PatchViolated(p, Title);
    assert Author in fs <==> PatchViolated(p, Author);
    assert Description in fs <==> PatchViolated(p, Description);
    assert Price in fs <==> PatchViolated(p, Price);
    assert CategoryField in fs <==> PatchViolated(p, CategoryField);
    assert Stock in fs <==> PatchViolated(p, Stock);
    assert Rating in fs <==> PatchViolated(p, Rating);
    fs
  }

  /** The patched book: the fields the patch sets, the stored values of the
      others; isbn and publisher are never patched. */
  function ApplyPatch(b: Book, p: BookPatch): (r: Book)
    requires p.category.Some? ==> ParseCategory(p.category.value).Some?
    ensures r.isbn == b.isbn && r.publisher == b.publisher
  {
    Book(if p.title.Some? then p.title.value else b.title,
         if p.author.Some? then p.author.value else b.author,
         if p.description.Some? then p.description.value else b.description,
         if p.price.Some? then p.price.value else b.price,
         if p.category.Some? then ParseCategory(p.category.value).value else b.category,
         if p.image.Some? then p.image.value else b.image,
         if p.stock.Some? then p.stock.value else b.stock,
         b.isbn, b.publisher,
         if p.rating.Some? then p.rating.value else b.rating)
  }

  /** A patch the validators pass keeps a valid book valid. */
  lemma PatchKeepsBookValid(b: Book, p: BookPatch)
    requires PatchViolations(p) == {} && ValidBook(b)
    ensures ValidBook(ApplyPatch(b, p))
  {
  }

  /** PUT of a book: 404 for a missing id, the schema's refusal for a patch
      that violates a bound, otherwise the patched book replaces the stored
      one. A refused update changes nothing. */
  function UpdateBook(books: map<BookId, Book>, id: BookId, p: BookPatch): (c: Change)
    ensures id !in books ==> c == Change(books, Err(NotFound))
    ensures c.result.Ok? <==> id in books && PatchViolations(p) == {}
    ensures c.result.Ok? ==> c.books == books[id := c.result.value]
    ensures c.result.Err? ==> c.books == books
    ensures ValidCatalog(books) ==> ValidCatalog(c.books)
  {
    if id !in books then Change(books, Err(NotFound))
    else
      var fs := PatchViolations(p);
      if fs != {} then Change(books, Err(Rejected(fs)))
      else
        var b := ApplyPatch(books[id], p);
        Change(books[id := b], Ok(b))
  }

  /** An update keeps the untouched fields and takes the patched ones. */
  lemma UpdatedFields(books: map<BookId, Book>, id: BookId, p: BookPatch)
    requires UpdateBook(books, id, p).result.Ok?
    ensures var b := UpdateBook(books, id, p).result.value;
      && b.title == (if p.title.Some? then p.title.value else books[id].title)
      && b.author == (if p.author.Some? then p.author.value else books[id].author)
      && b.description == (if p.description.Some? then p.description.value else books[id].description)
      && b.price == (if p.price.Some? then p.price.value else books[id].price)
      && b.image == (if p.image.Some? then p.image.value else books[id].image)
      && b.rating == (if p.rating.Some? then p.rating.value else books[id].rating)
      && b.stock == (if p.stock.Some? then p.stock.value else books[id].stock)
      && (p.category.Some? ==> ParseCategory(p.category.value) == Some(b.category))
      && (p.category.None? ==> b.category == books[id].category)
      && b.isbn == books[id].isbn && b.publisher == books[id].publisher
  {
  }

  /** DELETE of a book: 404 for a missing id, otherwise exactly that id
      leaves the table and every other book stays as it was. */
  function DeleteBook(books: map<BookId, Book>, id: BookId): (c: Change)
    ensures id !in books ==> c == Change(books, Err(NotFound))
    ensures id in books ==> c.result == Ok(books[id])
    ensures id in books ==> c.books.Keys == books.Keys - {id}
    ensures forall k :: k in c.books ==> k in books && c.books[k] == books[k]
    ensures ValidCatalog(books) ==> ValidCatalog(c.books)
  {
    if id !in books then Change(books, Err(NotFound)) else Change(books - {id}, Ok(books[id]))
  }
}
