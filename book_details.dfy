/** The book page's image sanitiser, the placeholder label it falls back on,
    and the quantity stepper's clamps. The same sanitiser, with a fixed
    label, is used for cart lines and order lines. */
module BookDetails {
  import opened Basics

  /** What the image element is given: a generated placeholder showing a
      label, or the stored URL itself. */
  datatype ImageSource = Placeholder(text: string) | Url(url: string)

  const DefaultLabel: string := "Book"

  /** `title?.substring(0, 20) || 'Book'`: the first 20 characters of the
      title, or "Book" when the title is absent or empty. */
  function PlaceholderLabel(title: Option<string>): (name: string)
    ensures 1 <= |name| <= 20
    ensures title.Some? && title.value != "" ==>
              |name| == Min(20, |title.value|) && name == title.value[..|name|]
    ensures title.None? || title.value == "" ==> name == DefaultLabel
  {
    if title.None? || title.value == "" then DefaultLabel
    else title.value[..Min(20, |title.value|)]
  }

  /** The image hosts that are replaced by a placeholder. */
  predicate BlockedHost(url: string)
  {
    || Contains(url, "images-na.ssl-images-amazon.com")
    || Contains(url, "m.media-amazon.com")
    || Contains(url, "images-amazon.com")
  }

  /** The first host test is redundant: its host name contains the third. */
  lemma BlockedHosts(url: string)
    ensures BlockedHost(url) <==> Contains(url, "m.media-amazon.com") || Contains(url, "images-amazon.com")
  {
    var long := "images-na.ssl-images-amazon.com";
    assert OccursAt(long, "images-amazon.com", 14);
    if Contains(url, long) {
      ContainsTransitive(url, long, "images-amazon.com");
    }
  }

  /** A missing URL: absent, empty, or the text of an undefined or null value. */
  predicate MissingUrl(url: Option<string>)
  {
    url.None? || url.value == "" || url.value == "undefined" || url.value == "null"
  }

  /** The placeholder is an SVG document handed to `btoa`, which accepts
      only characters up to U+00FF; the SVG text around the label is plain
      ASCII, so the encoding succeeds exactly when the label is Latin-1. */
  predicate Latin1(s: string)
  {
    forall i :: 0 <= i < |s| ==> s[i] <= '\U{00FF}'
  }

  /** What the book page shows when `btoa` throws while the book is being
      loaded; it then returns to the home page. */
  const LoadFailedMessage: string := "Failed to load book details"

  /** The book page's sanitiser: a missing URL or one on a blocked host
      gives the placeholder labelled from the title; any other URL is kept
      as it is. Building a placeholder whose label is not Latin-1 throws,
      and the page's loader turns that into its error message. */
  function ValidImageUrl(url: Option<string>, title: Option<string>): (r: Result<ImageSource, string>)
    ensures r.Err? <==> (MissingUrl(url) || BlockedHost(url.value)) && !Latin1(PlaceholderLabel(title))
    ensures r.Err? ==> r.error == LoadFailedMessage
    ensures r.Ok? && r.value.Url? <==> !MissingUrl(url) && !BlockedHost(url.value)
    ensures r.Ok? && r.value.Url? ==> r.value.url == url.value
    ensures r.Ok? && r.value.Placeholder? ==> r.value.text == PlaceholderLabel(title)
  {
    if MissingUrl(url) || BlockedHost(url.value) then
      var name := PlaceholderLabel(title);
      if Latin1(name) then Ok(Placeholder(name)) else Err(LoadFailedMessage)
    else Ok(Url(url.value))
  }

  /** A book without an image whose title starts with a character beyond
      Latin-1 cannot be opened, while the same book with a Latin-1 title
      shows its placeholder. */
  lemma NonLatinTitleFailsToLoad()
    ensures ValidImageUrl(None, Some("\U{20B9} Book")) == Err(LoadFailedMessage)
    ensures ValidImageUrl(None, Some("Dune")) == Ok(Placeholder("Dune"))
  {
    assert !Latin1(PlaceholderLabel(Some("\U{20B9} Book"))) by {
      assert PlaceholderLabel(Some("\U{20B9} Book"))[0] == '\U{20B9}';
    }
    assert PlaceholderLabel(Some("Dune")) == "Dune"[..4] == "Dune";
  }

  /** The cart line's and the order line's sanitiser: the same tests, with
      the placeholder always labelled "Book". */
  function LineImageUrl(url: Option<string>): (r: ImageSource)
    ensures r.Placeholder? ==> r.text == DefaultLabel
  {
    if MissingUrl(url) || BlockedHost(url.value) then Placeholder(DefaultLabel) else Url(url.value)
  }

  /** The line sanitiser is the book page's sanitiser for a book without a
      title, which never fails, and for any title it keeps and blocks the
      same URLs. */
  lemma LineSanitiserAgrees(url: Option<string>, title: Option<string>)
    ensures ValidImageUrl(url, None) == Ok(LineImageUrl(url))
    ensures LineImageUrl(url).Url? <==> ValidImageUrl(url, title).Ok? && ValidImageUrl(url, title).value.Url?
  {
  }

  /** The "-" button. */
  function Decrement(q: int): (r: int)
    ensures r >= 1
    ensures q > 1 ==> r == q - 1
    ensures q <= 1 ==> r == 1
  {
    Max(1, q - 1)
  }

  /** The "+" button. */
  function Increment(q: int, stock: int): (r: int)
    ensures r <= stock
    ensures q < stock ==> r == q + 1
    ensures q >= stock ==> r == stock
  {
    Min(stock, q + 1)
  }

  /** The quantity after a sequence of presses, true for "+", false for "-". */
  function Presses(q: int, stock: int, ps: seq<bool>): int
  {
    if ps == [] then q
    else
      var before := Presses(q, stock, ps[..|ps| - 1]);
      if ps[|ps| - 1] then Increment(before, stock) else Decrement(before)
  }

  /** The stepper is shown only when the book is in stock; starting from any
      quantity between 1 and the stock (the page starts at 1), every sequence
      of presses stays between 1 and the stock. */
  lemma {:induction false} StepperStaysInRange(q: int, stock: int, ps: seq<bool>)
    requires 1 <= q <= stock
    ensures 1 <= Presses(q, stock, ps) <= stock
  {
    if ps != [] {
      StepperStaysInRange(q, stock, ps[..|ps| - 1]);
    }
  }
}
