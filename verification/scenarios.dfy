/** Concrete runs of the model, one per scenario the repository's test
    suite exercises (test/spec.js), with the ISBN `isbn` those tests use. */
module Scenarios {
  import opened Outcomes
  import opened Sequences
  import opened Providers
  import opened Books
  import opened Isbn
  import GoogleBooks
  import OpenLibraryBooks
  import WorldcatBooks

  const TestIsbn := "isbn"

  /** Google counts no books. */
  const GoogleNothing: Reply<GoogleBooks.Payload> := Response(200, GoogleBooks.Payload(Some(0), None))

  /** The `volumeInfo` of Google's single test volume. */
  const CodeComplete := JObject(map[
    "title" := JString("Code Complete"),
    "authors" := JArray([JString("Steve McConnell")])])

  /** Google finds one volume. */
  const GoogleFound: Reply<GoogleBooks.Payload> :=
    Response(200, GoogleBooks.Payload(Some(1), Some([GoogleBooks.Item(Some(CodeComplete))])))

  /** Open Library has no record under the key. */
  const OpenLibraryNothing: Reply<OpenLibraryBooks.Payload> := Response(200, map[])

  /** Open Library's test record. */
  const OpenLibraryRecord := OpenLibraryBooks.Record(
    details := Some(OpenLibraryBooks.Details(
      title := Some("Book Title"),
      publishDate := Some("1992"),
      subtitle := Some("an autobiography"),
      numberOfPages := Some(521),
      publishers := Some(["Turtle Bay Books"]),
      authors := Some([OpenLibraryBooks.Author(Some("Michael Caine"))]),
      languages := Some([OpenLibraryBooks.LanguageRef(Some("/languages/eng"))]))),
    thumbnailUrl := Some("https://covers.openlibrary.org/b/id/6739180-S.jpg"),
    previewUrl := Some("https://archive.org/details/whatsitallabouta00cain"),
    infoUrl := Some("https://openlibrary.org/books/OL1743093M/Book"))

  /** Open Library finds the test record. */
  const OpenLibraryFound: Reply<OpenLibraryBooks.Payload> := Response(200, map["ISBN:isbn" := OpenLibraryRecord])

  /** Worldcat reports an invalid id. */
  const WorldcatNothing: Reply<WorldcatBooks.Payload> := Response(200, WorldcatBooks.Payload(Some("invalidId"), None))

  /** Worldcat's test entry. */
  const WorldcatEntry := WorldcatBooks.Record(
    title := Some("Book Title"),
    year := Some("1992"),
    publisher := Some("Turtle Bay Books"),
    author := Some("Steve McConnell."),
    lang := Some("eng"))

  /** Worldcat finds the test entry. */
  const WorldcatFound: Reply<WorldcatBooks.Payload> :=
    Response(200, WorldcatBooks.Payload(Some("ok"), Some([WorldcatEntry])))

  /** Google finds nothing, so the default order falls back to Open Library,
      whose record is normalised; Worldcat is never asked. */
  lemma OpenLibraryAfterGoogleMisses()
    ensures
      var r := Resolve(New(), TestIsbn, Network(GoogleNothing, OpenLibraryFound, WorldcatNothing));
      && r.invoked == [Google, OpenLibrary]
      && r.outcome.Ok? && r.outcome.value.Standard?
      && var b := r.outcome.value.book;
         && b.title == Some("Book Title")
         && b.publisher == Some("Turtle Bay Books")
         && b.publishedDate == Some("1992")
         && b.pageCount == Some(521)
         && b.language == Some("en")
  {
    var net := Network(GoogleNothing, OpenLibraryFound, WorldcatNothing);
    assert LookupOne(net, TestIsbn, Google).Err?;
    assert OpenLibraryBooks.BibKey(TestIsbn) == "ISBN:isbn";
    OpenLibraryBooks.KeyLanguageCases(Some("/languages/eng"));
    assert LookupOne(net, TestIsbn, OpenLibrary).Ok?;
    var r := Resolve(New(), TestIsbn, net);
    assert r.invoked[0] == Google;
  }

  /** Google and Open Library find nothing; Worldcat's entry is normalised. */
  lemma WorldcatAfterBothMiss()
    ensures
      var r := Resolve(New(), TestIsbn, Network(GoogleNothing, OpenLibraryNothing, WorldcatFound));
      && r.invoked == DefaultProviders
      && r.outcome.Ok? && r.outcome.value.Standard?
      && var b := r.outcome.value.book;
         && b.title == Some("Book Title")
         && b.publisher == Some("Turtle Bay Books")
         && b.publishedDate == Some("1992")
         && b.language == Some("en")
         && b.authors == [Some("Steve McConnell.")]
  {
    var net := Network(GoogleNothing, OpenLibraryNothing, WorldcatFound);
    assert OpenLibraryBooks.BibKey(TestIsbn) == "ISBN:isbn";
    assert LookupOne(net, TestIsbn, Google).Err?;
    assert LookupOne(net, TestIsbn, OpenLibrary).Err?;
    var r := Resolve(New(), TestIsbn, net);
    assert r.invoked[0] == Google;
    assert |r.invoked| > 1 ==> r.invoked[1] == OpenLibrary;
  }

  /** No provider finds the book: the lookup fails, with Worldcat's error. */
  lemma NoBookFound()
    ensures
      var r := Resolve(New(), TestIsbn, Network(GoogleNothing, OpenLibraryNothing, WorldcatNothing));
      && r.invoked == DefaultProviders
      && r.outcome == Err(NoBooksFound(TestIsbn))
  {
    var net := Network(GoogleNothing, OpenLibraryNothing, WorldcatNothing);
    assert OpenLibraryBooks.BibKey(TestIsbn) == "ISBN:isbn";
    assert LookupOne(net, TestIsbn, Google).Err?;
    assert LookupOne(net, TestIsbn, OpenLibrary).Err?;
  }

  /** Choosing Open Library then Google asks them in that order, Google's
      volume wins, Worldcat is never asked, and the default order is back. */
  lemma ChosenOrderIsHonoured()
    ensures
      var sel := Provider(New(), Arr(["openlibrary", "google"]));
      && sel.error.None?
      && sel.next.providers == [OpenLibrary, Google]
      && var r := Resolve(sel.next, TestIsbn, Network(GoogleFound, OpenLibraryNothing, WorldcatNothing));
         && r.invoked == [OpenLibrary, Google]
         && r.outcome == Ok(Volume(Some(CodeComplete)))
         && r.next == New()
  {
    SelectOpenLibraryThenGoogle();
    GoogleAfterOpenLibraryMisses();
  }

  /** Selecting Open Library then Google makes exactly that the order. */
  lemma SelectOpenLibraryThenGoogle()
    ensures Provider(New(), Arr(["openlibrary", "google"])) == Selection(Instance([OpenLibrary, Google]), None)
  {
    var names := ["openlibrary", "google"];
    assert NoDup(names);
    DedupOfDistinct(names);
    ParseOpenLibraryGoogle();
  }

  /** Both names are supported and select their providers, in order. */
  lemma ParseOpenLibraryGoogle()
    ensures ParseAll(["openlibrary", "google"]) == Some([OpenLibrary, Google])
  {
    var v := ParseAll(["openlibrary", "google"]).value;
    assert Names(v) == ["openlibrary", "google"];
    assert |v| == 2;
    assert Name(v[0]) == "openlibrary" && Name(v[1]) == "google";
    assert v[0] == OpenLibrary && v[1] == Google;
    assert v == [OpenLibrary, Google];
  }

  /** On the order Open Library then Google, Open Library misses and Google's volume wins. */
  lemma GoogleAfterOpenLibraryMisses()
    ensures
      var r := Resolve(Instance([OpenLibrary, Google]), TestIsbn, Network(GoogleFound, OpenLibraryNothing, WorldcatNothing));
      && r.invoked == [OpenLibrary, Google]
      && r.outcome == Ok(Volume(Some(CodeComplete)))
      && r.next == New()
  {
    var net := Network(GoogleFound, OpenLibraryNothing, WorldcatNothing);
    assert OpenLibraryBooks.BibKey(TestIsbn) == "ISBN:isbn";
    assert LookupOne(net, TestIsbn, OpenLibrary).Err?;
    assert LookupOne(net, TestIsbn, Google) == Ok(Volume(Some(CodeComplete)));
    var r := Resolve(Instance([OpenLibrary, Google]), TestIsbn, net);
    assert r.invoked[0] == OpenLibrary;
  }

  /** A repeated name is kept once. */
  lemma DuplicatesCollapse(s: Instance)
    ensures Provider(s, Arr(["openlibrary", "openlibrary"])) == Selection(Instance([OpenLibrary]), None)
  {
    var names, one := ["openlibrary", "openlibrary"], ["openlibrary"];
    assert names[..1] == one;
    DedupOfDistinct(one);
    assert Dedup(names) == one;
    assert Supported(one[0]);
    var v := ParseAll(one).value;
    assert Names(v) == one;
    assert |v| == 1 && Name(v[0]) == "openlibrary";
    assert v == [OpenLibrary];
  }

  /** An empty list, a non-array and a list of unknown names all leave the
      active order as it was; only the last two throw. */
  lemma RejectedSelectionsKeepOrder(s: Instance)
    ensures Provider(s, Arr([])) == Selection(s, None)
    ensures Provider(s, NotArr) == Selection(s, Some(NotAnArray))
    ensures Provider(s, Arr(["gibberish", "wow", "sogood"])) == Selection(s, Some(UnsupportedProvider))
  {
    assert !Supported("gibberish");
  }
}
