/** The Open Library provider (index.js:65-139): the reply is a map keyed
    by `ISBN:<isbn>`, and the record found there is rewritten into a book. */
module OpenLibraryBooks {
  import opened Outcomes
  import opened Books

  /** An entry of `details.authors`; only `name` is read. */
  datatype Author = Author(name: Option<string>)

  /** An entry of `details.languages`; only `key` is read. */
  datatype LanguageRef = LanguageRef(key: Option<string>)

  /** The `details` object of a record. */
  datatype Details = Details(
    title: Option<string>,
    publishDate: Option<string>,
    subtitle: Option<string>,
    numberOfPages: Option<int>,
    publishers: Option<seq<string>>,
    authors: Option<seq<Author>>,
    languages: Option<seq<LanguageRef>>)

  /** The record stored under `ISBN:<isbn>`. */
  datatype Record = Record(
    details: Option<Details>,
    thumbnailUrl: Option<string>,
    previewUrl: Option<string>,
    infoUrl: Option<string>)

  /** The reply body: bibliographic keys to records. */
  type Payload = map<string, Record>

  /** The key the record for `isbn` is looked up under. */
  function BibKey(isbn: string): string {
    "ISBN:" + isbn
  }

  /** The prefix of every language key. */
  const LanguagesPrefix := "/languages/"

  /** The language a key selects: the shared table applied to the code
      after `/languages/`; any other key, or a missing one, is unknown. */
  function KeyLanguage(key: Option<string>): string {
    if key.Some? && |LanguagesPrefix| <= |key.value| && key.value[..|LanguagesPrefix|] == LanguagesPrefix
    then LanguageName(key.value[|LanguagesPrefix|..])
    else UnknownLanguage
  }

  /** `KeyLanguage` is the `switch` on the whole key: exactly the three keys
      `/languages/eng`, `/languages/spa` and `/languages/fre` are known. */
  lemma KeyLanguageCases(key: Option<string>)
    ensures KeyLanguage(key) == "en" <==> key == Some("/languages/eng")
    ensures KeyLanguage(key) == "es" <==> key == Some("/languages/spa")
    ensures KeyLanguage(key) == "fr" <==> key == Some("/languages/fre")
    ensures KeyLanguage(key) in {"en", "es", "fr", UnknownLanguage}
  {
    var n := |LanguagesPrefix|;
    if key.Some? && n <= |key.value| && key.value[..n] == LanguagesPrefix {
      assert key.value == LanguagesPrefix + key.value[n..];
    }
    KeyOfCode("eng");
    KeyOfCode("spa");
    KeyOfCode("fre");
    assert LanguagesPrefix + "eng" == "/languages/eng";
    assert LanguagesPrefix + "spa" == "/languages/spa";
    assert LanguagesPrefix + "fre" == "/languages/fre";
  }

  /** The key written out for a code selects that code's table entry. */
  lemma KeyOfCode(code: string)
    ensures KeyLanguage(Some(LanguagesPrefix + code)) == LanguageName(code)
  {
  }

  /** The `forEach` over `languages`: each entry overwrites the language
      set so far, so the last entry decides and an empty list changes nothing. */
  function Overwrite(language: Option<string>, entries: seq<LanguageRef>): (r: Option<string>)
    ensures |entries| == 0 ==> r == language
    ensures |entries| > 0 ==> r == Some(KeyLanguage(entries[|entries| - 1].key))
    decreases |entries|
  {
    if |entries| == 0 then language
    else Overwrite(Some(KeyLanguage(entries[0].key)), entries[1..])
  }

  /** The `forEach` over `authors`: each entry's name is pushed onto `acc`. */
  function PushNames(acc: seq<Option<string>>, authors: seq<Author>): (r: seq<Option<string>>)
    ensures |r| == |acc| + |authors|
    ensures r[..|acc|] == acc
    ensures forall i :: 0 <= i < |authors| ==> r[|acc| + i] == authors[i].name
    decreases |authors|
  {
    if |authors| == 0 then acc
    else PushNames(acc + [authors[0].name], authors[1..])
  }

  /** The publisher: the first of `publishers`, `undefined` when the array
      is empty, and the empty string when the field is missing. */
  function PublisherOf(publishers: Option<seq<string>>): (r: Option<string>)
    ensures publishers.None? ==> r == Some("")
    ensures publishers.Some? && |publishers.value| > 0 ==> r == Some(publishers.value[0])
    ensures publishers == Some([]) ==> r.None?
  {
    match publishers
    case None => Some("")
    case Some(ps) => if |ps| > 0 then Some(ps[0]) else None
  }

  /** The authors: each entry's name in order, none when the field is missing. */
  function AuthorsOf(authors: Option<seq<Author>>): (r: seq<Option<string>>)
    ensures authors.None? ==> r == []
    ensures authors.Some? ==>
      && |r| == |authors.value|
      && forall i :: 0 <= i < |r| ==> r[i] == authors.value[i].name
  {
    match authors
    case None => []
    case Some(a) => PushNames([], a)
  }

  /** The language: decided by the last entry of `languages`, unset when the
      array is empty, and unknown when the field is missing. */
  function LanguageOf(languages: Option<seq<LanguageRef>>): (r: Option<string>)
    ensures languages.None? ==> r == Some(UnknownLanguage)
    ensures languages == Some([]) ==> r.None?
    ensures languages.Some? && |languages.value| > 0 ==>
      r == Some(KeyLanguage(languages.value[|languages.value| - 1].key))
    ensures r.Some? ==> r.value in {"en", "es", "fr", UnknownLanguage}
  {
    match languages
    case None => Some(UnknownLanguage)
    case Some(ls) => Overwrite(None, ls)
  }

  /** `standardize`: rewrites a record into a book. Reading `details.title`
      when `details` is missing throws, which the reply handler turns into a
      rejection. */
  function Standardize(book: Record): (r: Outcome<Book>)
    ensures r.Err? <==> book.details.None?
    ensures r.Err? ==> r.error == TypeError
    ensures r.Ok? ==>
      var d, b := book.details.value, r.value;
      && HasNormalisedShape(b)
      && b.title == d.title
      && b.publishedDate == d.publishDate
      && b.description == d.subtitle
      && b.pageCount == d.numberOfPages
      && b.previewLink == book.previewUrl
      && b.infoLink == book.infoUrl
      && b.imageLinks.Keys == {"smallThumbnail", "thumbnail"}
      && b.imageLinks["smallThumbnail"] == book.thumbnailUrl
      && b.imageLinks["thumbnail"] == book.thumbnailUrl
    ensures r.Ok? ==>
      var d, b := book.details.value, r.value;
      && (d.publishers.None? ==> b.publisher == Some(""))
      && (d.publishers.Some? && |d.publishers.value| > 0 ==> b.publisher == Some(d.publishers.value[0]))
      && (d.publishers == Some([]) ==> b.publisher.None?)
    ensures r.Ok? ==>
      var d, b := book.details.value, r.value;
      && (d.authors.None? ==> b.authors == [])
      && (d.authors.Some? ==>
            && |b.authors| == |d.authors.value|
            && forall i :: 0 <= i < |b.authors| ==> b.authors[i] == d.authors.value[i].name)
    ensures r.Ok? ==>
      var d, b := book.details.value, r.value;
      && (d.languages.None? ==> b.language == Some(UnknownLanguage))
      && (d.languages == Some([]) ==> b.language.None?)
      && (d.languages.Some? && |d.languages.value| > 0 ==>
            b.language == Some(KeyLanguage(d.languages.value[|d.languages.value| - 1].key)))
  {
    match book.details
    case None => Err(TypeError)
    case Some(d) =>
      var thumbnail := book.thumbnailUrl;
      Ok(Book(
        title := d.title,
        publishedDate := d.publishDate,
        authors := AuthorsOf(d.authors),
        description := d.subtitle,
        industryIdentifiers := [],
        pageCount := d.numberOfPages,
        printType := BookPrintType,
        categories := [],
        imageLinks := map["smallThumbnail" := thumbnail, "thumbnail" := thumbnail],
        previewLink := book.previewUrl,
        infoLink := book.infoUrl,
        publisher := PublisherOf(d.publishers),
        language := LanguageOf(d.languages)))
  }

  /** The reply handler for one Open Library request. */
  function Resolve(isbn: string, reply: Reply<Payload>): (r: Outcome<Resolved>)
    ensures reply.NoResponse? ==> r == Err(RequestFailed(reply.reason))
    ensures reply.Response? && reply.status != 200 ==> r == Err(WrongResponseCode(Some(reply.status)))
    ensures reply.Response? && reply.status == 200 && BibKey(isbn) !in reply.data ==>
      r == Err(NoBooksFound(isbn))
    ensures r.Ok? <==>
      && reply.Response? && reply.status == 200
      && BibKey(isbn) in reply.data
      && reply.data[BibKey(isbn)].details.Some?
    ensures
      (reply.Response? && reply.status == 200 && BibKey(isbn) in reply.data &&
       reply.data[BibKey(isbn)].details.None?) ==> r == Err(TypeError)
    ensures r.Ok? ==> r.value.Standard? && Standardize(reply.data[BibKey(isbn)]) == Ok(r.value.book)
  {
    match reply
    case NoResponse(reason) => Err(RequestFailed(reason))
    case Response(status, books) =>
      if status != 200 then Err(WrongResponseCode(Some(status)))
      else if BibKey(isbn) !in books then Err(NoBooksFound(isbn))
      else
        match Standardize(books[BibKey(isbn)])
        case Ok(b) => Ok(Standard(b))
        case Err(e) => Err(e)
  }
}
