/** The catalogue record of one book: its fields, the category enumeration,
    the defaults the schema applies when a book is created and the bounds it
    enforces. Money is counted in the smallest currency unit. */
module BookSchema {
  import opened Basics

  type BookId = string

  datatype Category =
    | Fiction | NonFiction | Science | Technology | Programming | Business
    | Finance | Biography | History | SelfHelp | Fantasy | Mystery | Romance
    | Motivation | Psychology | Productivity | Spirituality | Leadership
    | Thriller | HistoricalFiction | Children | Philosophy | Other

  /** The spelling the schema stores and the query string carries. */
  function CategoryName(c: Category): string
  {
    match c
    case Fiction => "Fiction"
    case NonFiction => "Non-Fiction"
    case Science => "Science"
    case Technology => "Technology"
    case Programming => "Programming"
    case Business => "Business"
    case Finance => "Finance"
    case Biography => "Biography"
    case History => "History"
    case SelfHelp => "Self-Help"
    case Fantasy => "Fantasy"
    case Mystery => "Mystery"
    case Romance => "Romance"
    case Motivation => "Motivation"
    case Psychology => "Psychology"
    case Productivity => "Productivity"
    case Spirituality => "Spirituality"
    case Leadership => "Leadership"
    case Thriller => "Thriller"
    case HistoricalFiction => "Historical Fiction"
    case Children => "Children"
    case Philosophy => "Philosophy"
    case Other => "Other"
  }

  /** The enum validator: a string is accepted exactly when it is one of the
      enumerated spellings. The spellings are tested grouped by their length,
      which accepts the same strings as testing them one after another. */
  function ParseCategory(s: string): Option<Category>
  {
    if |s| == 5 then
      if s == "Other" then Some(Other)
      else None
    else if |s| == 7 then
      if s == "Fiction" then Some(Fiction)
      else if s == "Science" then Some(Science)
      else if s == "Finance" then Some(Finance)
      else if s == "History" then Some(History)
      else if s == "Fantasy" then Some(Fantasy)
      else if s == "Mystery" then Some(Mystery)
      else if s == "Romance" then Some(Romance)
      else None
    else if |s| == 8 then
      if s == "Business" then Some(Business)
      else if s == "Thriller" then Some(Thriller)
      else if s == "Children" then Some(Children)
      else None
    else if |s| == 9 then
      if s == "Biography" then Some(Biography)
      else if s == "Self-Help" then Some(SelfHelp)
      else None
    else if |s| == 10 then
      if s == "Technology" then Some(Technology)
      else if s == "Motivation" then Some(Motivation)
      else if s == "Psychology" then Some(Psychology)
      else if s == "Leadership" then Some(Leadership)
      else if s == "Philosophy" then Some(Philosophy)
      else None
    else if |s| == 11 then
      if s == "Non-Fiction" then Some(NonFiction)
      else if s == "Programming" then Some(Programming)
      else None
    else if |s| == 12 then
      if s == "Productivity" then Some(Productivity)
      else if s == "Spirituality" then Some(Spirituality)
      else None
    else if |s| == 18 then
      if s == "Historical Fiction" then Some(HistoricalFiction)
      else None
    else None
  }

  /** Every enumerated category is accepted and read back as itself. */
  lemma ParseCategoryName(c: Category)
    ensures ParseCategory(CategoryName(c)) == Some(c)
  {
    if c.Fiction? || c.Science? || c.Finance? || c.History? || c.Fantasy? || c.Mystery? || c.Romance? {
      ParseSevenLetterName(c);
    } else {
      ParseOtherName(c);
    }
  }

  /** The round trip for the seven-letter spellings, and for the rest. */
  lemma ParseSevenLetterName(c: Category)
    requires c.Fiction? || c.Science? || c.Finance? || c.History? || c.Fantasy? || c.Mystery? || c.Romance?
    ensures ParseCategory(CategoryName(c)) == Some(c)
  {
  }

  lemma ParseOtherName(c: Category)
    requires !(c.Fiction? || c.Science? || c.Finance? || c.History? || c.Fantasy? || c.Mystery? || c.Romance?)
    ensures ParseCategory(CategoryName(c)) == Some(c)
  {
  }

  /** The parser accepts nothing but the enumerated spellings: whatever it
      accepts is spelled exactly as the category it returns. */
  lemma ParseCategorySpelling(s: string)
    ensures ParseCategory(s).Some? ==> CategoryName(ParseCategory(s).value) == s
  {
    if |s| == 7 {
      SevenLetterSpelling(s);
    } else if |s| == 10 {
      TenLetterSpelling(s);
    } else if |s| < 10 {
      ShortSpelling(s);
    } else {
      LongSpelling(s);
    }
  }

  /** The spelling half, one group of lengths at a time. */
  lemma SevenLetterSpelling(s: string)
    requires |s| == 7
    ensures ParseCategory(s).Some? ==> CategoryName(ParseCategory(s).value) == s
  {
  }

  lemma TenLetterSpelling(s: string)
    requires |s| == 10
    ensures ParseCategory(s).Some? ==> CategoryName(ParseCategory(s).value) == s
  {
  }

  lemma ShortSpelling(s: string)
    requires |s| < 10 && |s| != 7
    ensures ParseCategory(s).Some? ==> CategoryName(ParseCategory(s).value) == s
  {
  }

  lemma LongSpelling(s: string)
    requires |s| > 10
    ensures ParseCategory(s).Some? ==> CategoryName(ParseCategory(s).value) == s
  {
  }

  const DefaultImage: string := "https://via.placeholder.com/300x400?text=Book+Cover"

  datatype Book = Book(
    title: string,
    author: string,
    description: string,
    price: int,
    category: Category,
    image: string,
    stock: int,
    isbn: Option<string>,
    publisher: Option<string>,
    rating: real)

  /** The schema's bounds: the three required texts are present, price and
      stock are non-negative, and the rating lies in [0, 5]. */
  predicate ValidBook(b: Book)
  {
    && b.title != "" && b.author != "" && b.description != ""
    && b.price >= 0
    && b.stock >= 0
    && 0.0 <= b.rating <= 5.0
  }

  /** Every book in a collection satisfies the schema's bounds. */
  predicate ValidCatalog(books: map<BookId, Book>)
  {
    forall id :: id in books ==> ValidBook(books[id])
  }

  datatype BookField = Title | Author | Description | Price | CategoryField | Stock | Rating

  /** The fields a creation request supplies; absent optional fields are None. */
  datatype BookInput = BookInput(
    title: string,
    author: string,
    description: string,
    price: int,
    category: string,
    image: Option<string>,
    stock: Option<int>,
    isbn: Option<string>,
    publisher: Option<string>,
    rating: Option<real>)

  /** Whether the input, once the defaults are applied, breaks the bound
      on field `f`. */
  predicate Violated(inp: BookInput, f: BookField)
  {
    match f
    case Title => inp.title == ""
    case Author => inp.author == ""
    case Description => inp.description == ""
    case Price => inp.price < 0
    case CategoryField => ParseCategory(inp.category).None?
    case Stock => inp.stock.Some? && inp.stock.value < 0
    case Rating => inp.rating.Some? && !(0.0 <= inp.rating.value <= 5.0)
  }

  /** The schema-level violations of an input once the defaults are applied. */
  function Violations(inp: BookInput): (fs: set<BookField>)
    ensures Title in fs <==> inp.title == ""
    ensures Author in fs <==> inp.author == ""
    ensures Description in fs <==> inp.description == ""
    ensures Price in fs <==> inp.price < 0
    ensures Stock in fs <==> inp.stock.Some? && inp.stock.value < 0
    ensures Rating in fs <==> inp.rating.Some? && !(0.0 <= inp.rating.value <= 5.0)
    ensures CategoryField in fs <==> ParseCategory(inp.category).None?
  {
    set f: BookField | Violated(inp, f)
  }

  /** Document creation: defaults for image, stock (0) and rating (0), then
      validation; a record is produced exactly when nothing is violated, and
      every record produced satisfies the schema's bounds. */
  function CreateBook(inp: BookInput): (r: Result<Book, set<BookField>>)
    ensures r.Ok? <==> Violations(inp) == {}
    ensures r.Ok? ==> ValidBook(r.value)
    ensures r.Ok? ==> r.value.stock == (if inp.stock.None? then 0 else inp.stock.value)
    ensures r.Ok? ==> r.value.rating == (if inp.rating.None? then 0.0 else inp.rating.value)
    ensures r.Ok? ==> r.value.image == (if inp.image.None? then DefaultImage else inp.image.value)
    ensures r.Ok? ==> ParseCategory(inp.category) == Some(r.value.category)
    ensures r.Ok? ==> && r.value.title == inp.title && r.value.author == inp.author
                      && r.value.description == inp.description && r.value.price == inp.price
                      && r.value.isbn == inp.isbn && r.value.publisher == inp.publisher
    ensures r.Err? ==> r.error == Violations(inp) && r.error != {}
  {
    var fs := Violations(inp);
    if fs != {} then Err(fs)
    else
      Ok(Book(inp.title, inp.author, inp.description, inp.price,
              ParseCategory(inp.category).value,
              if inp.image.None? then DefaultImage else inp.image.value,
              if inp.stock.None? then 0 else inp.stock.value,
              inp.isbn, inp.publisher,
              if inp.rating.None? then 0.0 else inp.rating.value))
  }
}
