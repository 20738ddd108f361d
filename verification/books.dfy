/** The common book record the Open Library and Worldcat normalisers
    produce, what a lookup resolves with, and the language table both
    normalisers share (index.js:67-116, index.js:143-175). */
module Books {
  import opened Outcomes

  /** A normalised book. Fields the source may leave `undefined` or set to
      `null` are options; `imageLinks` maps a thumbnail size to its URL,
      and a size the source writes with an `undefined` URL is present with `None`. */
  datatype Book = Book(
    title: Option<string>,
    publishedDate: Option<string>,
    authors: seq<Option<string>>,
    description: Option<string>,
    industryIdentifiers: seq<string>,
    pageCount: Option<int>,
    printType: string,
    categories: seq<string>,
    imageLinks: map<string, Option<string>>,
    previewLink: Option<string>,
    infoLink: Option<string>,
    publisher: Option<string>,
    language: Option<string>)

  /** What a successful lookup resolves with: Google's `volumeInfo` object
      exactly as received (`None` when the first item has none), or a book
      built by one of the other normalisers. */
  datatype Resolved =
    | Volume(volumeInfo: Option<Json>)
    | Standard(book: Book)

  /** The print type every normalised book carries. */
  const BookPrintType := "BOOK"

  /** The language of the value the normalisers fall back to. */
  const UnknownLanguage := "unknown"

  /** The three-entry table from a three-letter language code to a
      two-letter one; every other code is unknown. */
  function LanguageName(code: string): (r: string)
    ensures r in {"en", "es", "fr", UnknownLanguage}
    ensures r == "en" <==> code == "eng"
    ensures r == "es" <==> code == "spa"
    ensures r == "fr" <==> code == "fre"
  {
    match code
    case "eng" => "en"
    case "spa" => "es"
    case "fre" => "fr"
    case _ => UnknownLanguage
  }

  /** The fields every normaliser fills with the same constant values. */
  predicate HasNormalisedShape(b: Book) {
    && b.printType == BookPrintType
    && b.categories == []
    && b.industryIdentifiers == []
    && (b.language.Some? ==> b.language.value in {"en", "es", "fr", UnknownLanguage})
  }
}
