/**
 * The catalog client: projecting catalog search responses down to the
 * canonical book record, and building cover image URLs.
 */
module Catalog {
  import opened Wrappers
  import opened Entities

  const BaseUrl := "https://openlibrary.org"
  const SearchPath := "/search.json"
  const DefaultSearchLimit := 20
  const CoverUrlPrefix := "https://covers.openlibrary.org/b/id/"
  const DefaultCoverSize := "M"

  /**
   * One record of the upstream `docs` array: the five fields the client keeps
   * and whatever else the catalog sends.
   */
  datatype Doc = Doc(
    key: string,
    title: Option<string>,
    authorName: AuthorField,
    coverId: Option<int>,
    firstPublishYear: Option<int>,
    extra: map<string, string>)

  datatype ResponseData = ResponseData(docs: Option<seq<Doc>>)
  datatype Response = Response(data: Option<ResponseData>)

  /** The GET request the client issues. */
  datatype Request = Request(baseUrl: string, path: string, q: string, limit: int)

  /** A failed request (transport error or error status). */
  datatype HttpError = HttpError(message: string)

  function SearchRequest(query: string, limit: int): Request {
    Request(BaseUrl, SearchPath, query, limit)
  }

  /** The object literal built per doc: the five fields, whatever else the doc carries. */
  function ToBook(doc: Doc): (b: Book)
    ensures b.key == doc.key && b.title == doc.title && b.authorName == doc.authorName
    ensures b.coverId == doc.coverId && b.firstPublishYear == doc.firstPublishYear
  {
    Book(doc.key, doc.title, doc.authorName, doc.coverId, doc.firstPublishYear)
  }

  /** Extra upstream fields never reach the book record. */
  lemma ToBookIgnoresExtraFields(doc: Doc, more: map<string, string>)
    ensures ToBook(doc.(extra := more)) == ToBook(doc)
  {
  }

  /** The `docs.map(...)` projection: same length, same order, same five fields. */
  function ProjectDocs(docs: seq<Doc>): (books: seq<Book>)
    ensures |books| == |docs|
    ensures forall i :: 0 <= i < |docs| ==>
      && books[i].key == docs[i].key
      && books[i].title == docs[i].title
      && books[i].authorName == docs[i].authorName
      && books[i].coverId == docs[i].coverId
      && books[i].firstPublishYear == docs[i].firstPublishYear
  {
    if docs == [] then [] else [ToBook(docs[0])] + ProjectDocs(docs[1..])
  }

  /**
   * `searchBooks`: the HTTP GET is the parameter `get`. A failed request is
   * rethrown; a response without `data` or without `docs` gives no books.
   */
  function SearchBooks(query: string, get: Request -> Result<Response, HttpError>,
                       limit: int := DefaultSearchLimit): (r: Result<seq<Book>, HttpError>)
    ensures var outcome := get(SearchRequest(query, limit));
      outcome.Failure? ==> r == Failure(outcome.error)
    ensures var outcome := get(SearchRequest(query, limit));
      outcome.Success? && (outcome.value.data.None? || outcome.value.data.value.docs.None?) ==>
        r == Success([])
    ensures var outcome := get(SearchRequest(query, limit));
      outcome.Success? && outcome.value.data.Some? && outcome.value.data.value.docs.Some? ==>
        r.Success? && r.value == ProjectDocs(outcome.value.data.value.docs.value)
  {
    match get(SearchRequest(query, limit))
    case Failure(e) => Failure(e)
    case Success(response) =>
      if response.data.Some? && response.data.value.docs.Some?
      then Success(ProjectDocs(response.data.value.docs.value))
      else Success([])
  }

  lemma SearchWithoutDocsIsEmpty(query: string, limit: int, response: Response)
    requires response.data.None? || response.data.value.docs.None?
    ensures SearchBooks(query, _ => Success(response), limit) == Success([])
  {
  }

  // ---- decimal rendering of the cover id (the template string's `${coverId}`) ----

  predicate IsDigit(c: char) {
    '0' <= c <= '9'
  }

  predicate AllDigits(s: string) {
    forall i :: 0 <= i < |s| ==> IsDigit(s[i])
  }

  function DigitChar(d: nat): char
    requires d < 10
  {
    ('0' as int + d) as char
  }

  function DigitValue(c: char): nat
    requires IsDigit(c)
  {
    c as int - '0' as int
  }

  /** The decimal digits of a natural number, most significant first. */
  function Digits(n: nat): (s: string)
    ensures |s| > 0 && AllDigits(s)
  {
    if n < 10 then [DigitChar(n)] else Digits(n / 10) + [DigitChar(n % 10)]
  }

  /**
   * How JavaScript renders a safe integer (magnitude below 2^53) in a template
   * string; larger numbers are rendered differently there (rounded, or with an
   * exponent from 1e21 on). The result always reads back as the number.
   */
  function DecimalString(n: int): (s: string)
    ensures ParseDecimal(s) == Some(n)
  {
    if n < 0 then
      DigitsRoundTrip(-n);
      var s := "-" + Digits(-n);
      assert s[1..] == Digits(-n) && !IsDigit(s[0]);
      s
    else
      DigitsRoundTrip(n);
      Digits(n)
  }

  function DigitsValue(s: string): nat
    requires AllDigits(s)
  {
    if s == [] then 0 else DigitsValue(s[..|s| - 1]) * 10 + DigitValue(s[|s| - 1])
  }

  /** Reads an optionally negative decimal integer back from text. */
  function ParseDecimal(s: string): Option<int> {
    if |s| > 0 && AllDigits(s) then Some(DigitsValue(s))
    else if |s| > 1 && s[0] == '-' && AllDigits(s[1..]) then Some(-(DigitsValue(s[1..]) as int))
    else None
  }

  lemma {:induction false} DigitsRoundTrip(n: nat)
    ensures DigitsValue(Digits(n)) == n
  {
    if n >= 10 {
      DigitsRoundTrip(n / 10);
      var s := Digits(n);
      assert s[..|s| - 1] == Digits(n / 10);
    }
  }

  // ---- cover URLs ----

  /**
   * `getCoverUrl`: a URL exactly when the id is JavaScript-truthy (present and
   * not zero), whatever the size.
   */
  function CoverUrl(coverId: Option<int>, size: string := DefaultCoverSize): (url: Option<string>)
    ensures url.Some? <==> coverId.Some? && coverId.value != 0
    ensures url.Some? ==>
      url.value == CoverUrlPrefix + DecimalString(coverId.value) + "-" + size + ".jpg"
  {
    if coverId.Some? && coverId.value != 0
    then Some(CoverUrlPrefix + DecimalString(coverId.value) + "-" + size + ".jpg")
    else None
  }

  /** Recovers the cover id from a cover URL of the given size. */
  function CoverIdOf(url: string, size: string): Option<int> {
    var suffix := "-" + size + ".jpg";
    if |CoverUrlPrefix| + |suffix| <= |url|
       && url[..|CoverUrlPrefix|] == CoverUrlPrefix
       && url[|url| - |suffix|..] == suffix
    then ParseDecimal(url[|CoverUrlPrefix|..|url| - |suffix|])
    else None
  }

  /** A cover URL names its id: reading the id back gives the id it was built from. */
  lemma CoverUrlRoundTrip(id: int, size: string)
    requires id != 0
    ensures CoverUrl(Some(id), size).Some?
    ensures CoverIdOf(CoverUrl(Some(id), size).value, size) == Some(id)
  {
    var d := DecimalString(id);
    var suffix := "-" + size + ".jpg";
    var url := CoverUrlPrefix + d + suffix;
    assert CoverUrl(Some(id), size).value == url;
    assert url[..|CoverUrlPrefix|] == CoverUrlPrefix;
    assert url[|url| - |suffix|..] == suffix;
    assert url[|CoverUrlPrefix|..|url| - |suffix|] == d;
  }

  /** Distinct ids give distinct URLs of the same size. */
  lemma CoverUrlInjective(a: int, b: int, size: string)
    requires a != 0 && b != 0
    requires CoverUrl(Some(a), size) == CoverUrl(Some(b), size)
    ensures a == b
  {
    CoverUrlRoundTrip(a, size);
    CoverUrlRoundTrip(b, size);
  }

  lemma DefaultCoverSizeIsMedium(coverId: Option<int>)
    ensures CoverUrl(coverId) == CoverUrl(coverId, "M")
  {
  }
}
