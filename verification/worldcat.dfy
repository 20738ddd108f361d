/** The Worldcat xISBN provider (index.js:141-199): a reply is accepted
    when its `stat` is `ok`, and the first entry of `list` is rewritten
    into a book. */
module WorldcatBooks {
  import opened Outcomes
  import opened Books
  import OpenLibraryBooks

  /** An entry of `list`; only the fields `standardize` reads. */
  datatype Record = Record(
    title: Option<string>,
    year: Option<string>,
    publisher: Option<string>,
    author: Option<string>,
    lang: Option<string>)

  /** The reply body. */
  datatype Payload = Payload(stat: Option<string>, list: Option<seq<Record>>)

  /** The value of `stat` that signals a found book. */
  const StatOk := "ok"

  /** JavaScript truthiness of an optional string: present and not empty. */
  predicate Truthy(s: Option<string>) {
    s.Some? && s.value != ""
  }

  /** The `switch` on `lang`: the shared table, and unknown when `lang` is missing. */
  function CodeLanguage(lang: Option<string>): (r: string)
    ensures r in {"en", "es", "fr", UnknownLanguage}
    ensures lang.None? ==> r == UnknownLanguage
    ensures r == "en" <==> lang == Some("eng")
    ensures r == "es" <==> lang == Some("spa")
    ensures r == "fr" <==> lang == Some("fre")
  {
    match lang
    case Some(code) => LanguageName(code)
    case None => UnknownLanguage
  }

  /** Both normalisers read a language through the same table: the Open
      Library key `/languages/<code>` and the Worldcat code `<code>` give
      the same language, for every code. */
  lemma SharedLanguageTable(code: string)
    ensures OpenLibraryBooks.KeyLanguage(Some(OpenLibraryBooks.LanguagesPrefix + code)) == CodeLanguage(Some(code))
  {
  }

  /** `standardize`: rewrites a list entry into a book. */
  function Standardize(book: Record): (r: Book)
    ensures HasNormalisedShape(r)
    ensures r.title == book.title && r.publishedDate == book.year && r.publisher == book.publisher
    ensures r.description.None? && r.pageCount.None?
    ensures r.imageLinks == map[]
    ensures r.previewLink.None? && r.infoLink.None?
    ensures Truthy(book.author) ==> r.authors == [book.author]
    ensures !Truthy(book.author) ==> r.authors == []
    ensures r.language == Some(CodeLanguage(book.lang))
  {
    Book(
      title := book.title,
      publishedDate := book.year,
      authors := if Truthy(book.author) then [book.author] else [],
      description := None,
      industryIdentifiers := [],
      pageCount := None,
      printType := BookPrintType,
      categories := [],
      imageLinks := map[],
      previewLink := None,
      infoLink := None,
      publisher := book.publisher,
      language := Some(CodeLanguage(book.lang)))
  }

  /** The reply handler for one Worldcat request. The wrong-status message
      reads `statusCode`, a field the HTTP client's response does not have,
      so its code is always absent. After `stat` is `ok`, a missing `list`
      and an empty one both end in a property read on `undefined`. */
  function Resolve(isbn: string, reply: Reply<Payload>): (r: Outcome<Resolved>)
    ensures reply.NoResponse? ==> r == Err(RequestFailed(reply.reason))
    ensures reply.Response? && reply.status != 200 ==> r == Err(WrongResponseCode(None))
    ensures reply.Response? && reply.status == 200 && reply.data.stat != Some(StatOk) ==>
      r == Err(NoBooksFound(isbn))
    ensures r.Ok? <==>
      && reply.Response? && reply.status == 200
      && reply.data.stat == Some(StatOk)
      && reply.data.list.Some? && |reply.data.list.value| > 0
    ensures reply.Response? && reply.status == 200 && reply.data.stat == Some(StatOk) && !r.Ok? ==>
      r == Err(TypeError)
    ensures r.Ok? ==> r.value == Standard(Standardize(reply.data.list.value[0]))
  {
    match reply
    case NoResponse(reason) => Err(RequestFailed(reason))
    case Response(status, books) =>
      if status != 200 then Err(WrongResponseCode(None))
      else if books.stat != Some(StatOk) then Err(NoBooksFound(isbn))
      else if books.list.None? || |books.list.value| == 0 then Err(TypeError)
      else Ok(Standard(Standardize(books.list.value[0])))
  }
}
