# node-isbn: provider order, fallback chain and normalisers

This project models the core of `node-isbn`, a library that resolves book
metadata from an ISBN. The library asks Google Books, Open Library and
Worldcat xISBN in turn. It accepts the first reply that names a book, and it
rewrites Open Library and Worldcat replies into one common book record.

The model is pure Dafny and is organised by component:

- `outcomes.dfy` (module `Outcomes`) holds the shared values:
  - optional values, where `None` stands for JavaScript `undefined`/`null`;
  - a small JSON type;
  - the errors a lookup can fail with;
  - `Outcome`, how a lookup settles;
  - `Reply`, what the HTTP client hands to a reply handler.
- `sequences.dfy` (module `Sequences`) defines `[...new Set(xs)]` as `Dedup`.
  It proves that `Dedup` keeps one copy of each element, at the place of its
  first occurrence, and that these properties determine the result.
- `providers.dfy` (module `Providers`) holds the three provider ids, their
  names, the default order, and the parsing of names.
- `books.dfy` (module `Books`) holds the common book record, what a lookup
  resolves with, and the three-entry language table.
- `google.dfy`, `openlibrary.dfy` and `worldcat.dfy` hold each provider's
  reply handler: the acceptance checks and `standardize`.
- `fallback.dfy` (module `Fallback`) models `getBookInfo`.
  - `GetBookInfo` is the `reduce` of `.catch` steps, exactly as written.
  - `FirstSuccess` is an independent definition.
  - A lemma proves the two equal.
  - Both are characterised by `IsFallback`.
  - The result carries the trace of invoked providers.
- `isbn.dfy` (module `Isbn`) models the `Isbn` instance as a pure state
  machine over its active provider order:
  - `Provider` models `provider(list)`;
  - `Resolve` models `resolve`;
  - `Run` folds a sequence of calls;
  - a `Network` record holds the reply each provider's request gets.
- `scenarios.dfy` (module `Scenarios`) replays the repository's test scenarios
  on the model.

The network is a parameter. Each provider's request is replaced by the
`Reply` it would get. `NoResponse` covers everything the HTTP client rejects:
no connection, a timeout, or a status it refuses.

Behaviours of the code that are easy to misread:

- `resolve` resets the order to the default at once, after starting the chain
  and before it settles (index.js:272, index.js:291). `Isbn.Resolve` returns the
  default order whatever the outcome.
- A Worldcat entry whose `author` is missing or empty gives `authors == []`
  (index.js:147, index.js:158-160).
- The normalisers can fail, and those failures reject the lookup:
  - an Open Library record without `details` throws when `details.title` is read;
  - a Worldcat reply with `stat` `ok` but no entry in `list` throws the same way.
- In Open Library, a `languages` field that is present but empty leaves
  `language` unset. Only a missing field gives `unknown` (index.js:97-116).
- In Open Library, an empty `publishers` array gives an `undefined` publisher.
  Only a missing field gives `''` (index.js:85-89).
- The Worldcat wrong-status error reads `statusCode`. The HTTP client's
  response has no such field, so the code in that error is always absent
  (index.js:184-186).
- The default order has three entries (index.js:27-31). test/spec.js:22-27
  expects a fourth, ISBNdb, which index.js does not implement.

## Model

| member | source | states |
|---|---|---|
| Sequences.Dedup | index.js:250-251 | The result has no duplicates and holds exactly the input's elements. Its elements appear in the order of their first occurrence in the input. |
| Sequences.DedupUnique | index.js:251 | Those three properties determine the result: any sequence that has them equals `Dedup(s)`. |
| Sequences.DedupOfDistinct | index.js:251 | A list without duplicates comes back unchanged. |
| Sequences.DedupIdempotent | index.js:251 | Removing duplicates a second time changes nothing. |
| Providers.Named | index.js:21-25 | A name selects a provider exactly when it is one of the three supported names, and that provider's name is the given name. |
| Providers.ParseAll | index.js:253-257 | A list of names parses exactly when every name is supported. The parsed providers' names are the list itself, in order. |
| Providers.NamesNoDup | index.js:21-25 | A provider list has duplicates exactly when its list of names has duplicates. |
| Providers.DefaultProvidersDistinct | index.js:27-31 | The default order is google, openlibrary, worldcat. It names every provider, each once. |
| Books.LanguageName | index.js:162-175 | The table maps eng to en, spa to es and fre to fr, in both directions. Every other code maps to unknown. |
| GoogleBooks.Resolve | index.js:44-62 | A Google reply yields a book exactly when all of these hold: status 200, a non-zero `totalItems`, and a non-empty `items`. The book is `items[0].volumeInfo` unchanged. Each failure gets its own error: client rejection, wrong status, no books counted, or no volume listed. |
| OpenLibraryBooks.KeyLanguageCases | index.js:97-113 | Exactly the keys `/languages/eng`, `/languages/spa` and `/languages/fre` map to en, es and fr. Every other key, or a missing key, maps to unknown. |
| OpenLibraryBooks.Overwrite | index.js:97-113 | After the `forEach` over `languages`, the language is the mapping of the last entry. An empty list leaves the language as it was. |
| OpenLibraryBooks.PushNames | index.js:91-95 | Pushing the authors appends their names, in source order and one per author, after what was already there. |
| OpenLibraryBooks.PublisherOf | index.js:85-89 | The publisher is `publishers[0]` when the array is non-empty, `undefined` when it is empty, and `''` when the field is missing. |
| OpenLibraryBooks.AuthorsOf | index.js:91-95 | The authors are the entries' names, one per entry and in order; none when the field is missing. |
| OpenLibraryBooks.LanguageOf | index.js:97-116 | The language is decided by the last `languages` entry, is unset for an empty array, is unknown when the field is missing, and is always one of en, es, fr and unknown. |
| OpenLibraryBooks.Standardize | index.js:67-119 | The book takes title, publishedDate, description, pageCount, previewLink and infoLink from the record. Both thumbnail sizes are `thumbnail_url`. The publisher is `publishers[0]`, `undefined` for an empty array, or `''` when the field is missing. The authors are the names in order. The language comes from the last `languages` entry, is unset for an empty list, and is unknown when the field is missing. printType is BOOK and categories and identifiers are empty. A record without `details` is a failure. |
| OpenLibraryBooks.Resolve | index.js:125-138 | An Open Library reply fails unless the status is 200 and the key `ISBN:<isbn>` is present; a missing key is "no books found". A present record with `details` resolves with its standardised book; one without fails with a TypeError. |
| WorldcatBooks.CodeLanguage | index.js:162-175 | `lang` maps through the same table. A missing `lang` maps to unknown. |
| WorldcatBooks.SharedLanguageTable | index.js:97-175 | For every code, the Open Library key `/languages/<code>` and the Worldcat code `<code>` give the same language. |
| WorldcatBooks.Standardize | index.js:143-178 | title, publisher and year (as publishedDate) pass through. authors is `[author]` when `author` is truthy and `[]` otherwise. description and pageCount are null and imageLinks is empty. The language comes from `lang` through the table. |
| WorldcatBooks.Resolve | index.js:184-198 | A Worldcat reply yields a book exactly when the status is 200, `stat` is `ok`, and `list` is non-empty. Any other `stat` is "no books found". A missing or empty `list` after `ok` is a failure. The book is the first entry, standardised. |
| Fallback.Catch | index.js:212-214 | One `.catch` step succeeds exactly when the chain so far or the new provider succeeds. It invokes the new provider only when the chain so far failed, and keeps the providers already invoked in front. |
| Fallback.CatchExtends | index.js:211-214 | A `.catch` step turns a fallback over a list into a fallback over the list with one more provider behind it. |
| Fallback.GetBookInfo | index.js:201-215 | The chain invokes a non-empty prefix of the list, in order. Every invoked provider but the last failed. The outcome is the last invoked provider's own outcome. A failure means every provider was invoked. |
| Fallback.FirstSuccess | index.js:201-215 | The reference fallback (ask the head, else fall back to the tail) has the same characterisation. |
| Fallback.ChainKeepsOk | index.js:211-214 | A fulfilled chain passes through every later `.catch` step unchanged. |
| Fallback.ChainIsFirstSuccess | index.js:211-214 | A chain that has succeeded stays unchanged through later `.catch` steps. A chain that has failed continues as the reference fallback over the remaining providers. |
| Fallback.GetBookInfoIsFirstSuccess | index.js:201-215 | The chain as written equals the reference fallback for every list and every set of lookup outcomes. |
| Fallback.FirstOkWins | index.js:211-214 | If provider k is the first in list order that succeeds, the outcome is its outcome, and exactly the providers up to k are invoked. |
| Fallback.AllFailLastError | index.js:211-214 | If every provider fails, the outcome is the last provider's error, after all of them were invoked. |
| Fallback.SucceedsIffSomeSucceeds | index.js:201-215 | The chain succeeds exactly when some provider in the list would. |
| Fallback.SingleProvider | index.js:205-208 | A one-element list settles with that provider's outcome unchanged, after one invocation. |
| Isbn.New | index.js:218-227 | A new instance has the default order, which is a valid order. |
| Isbn.Reset | index.js:225-227 | `_resetProviders` leaves the default order, which names every provider once and is an order `getBookInfo` can run. |
| Isbn.LookupOne | index.js:33-37 | Looking up one provider dispatches to its own handler. Only Google resolves with a raw volume; the other two resolve with a normalised book. A request the client rejects fails with that provider's reason. |
| Isbn.Provider | index.js:243-262 | A non-array input throws, and so does an array with any unsupported name; both leave the order unchanged. An empty array changes nothing. Otherwise the order becomes the list without duplicates, first occurrences in place. A valid order stays valid. |
| Isbn.UnsupportedSurvivesDedup | index.js:250-257 | Removing duplicates before the support check neither hides nor adds an unsupported name. |
| Isbn.Resolve | index.js:268-296 | `resolve` runs the fallback chain on the order active at the call. Afterwards the order is the default, whatever the outcome. |
| Isbn.Step | index.js:217-297 | Every call on the instance keeps the active order non-empty and free of duplicates. |
| Isbn.Run | index.js:217-297 | After any sequence of calls the order is valid. A sequence that ends with `resolve` leaves the default order. A sequence of only `resolve` calls leaves a new instance. |
| Isbn.SelectionIsSingleUse | index.js:260-291 | After a successful `provider(list)`, the next `resolve` asks providers in the chosen, duplicate-free order. It then leaves the instance as a new one, so the choice is used once. |
| Scenarios.OpenLibraryAfterGoogleMisses | test/spec.js:53-104 | Google counts no books, so Open Library's record is used: title, publisher, date, 521 pages, language en. Worldcat is not asked. |
| Scenarios.WorldcatAfterBothMiss | test/spec.js:106-152 | Google and Open Library miss, so Worldcat's entry is used, with language en. |
| Scenarios.NoBookFound | test/spec.js:206-232 | When all three providers miss, the lookup fails with Worldcat's "no books found". |
| Scenarios.ChosenOrderIsHonoured | test/spec.js:284-315 | Choosing openlibrary then google asks them in that order, and Google's volume is the result. Worldcat is not asked, and the default order is back afterwards. |
| Scenarios.DuplicatesCollapse | test/spec.js:757-763 | `[openlibrary, openlibrary]` becomes the order `[openlibrary]`. |
| Scenarios.RejectedSelectionsKeepOrder | test/spec.js:729-755 | An empty list, a string, and a list of unknown names all leave the order unchanged. Only the last two throw. |

## Left out

- HTTP requests, the `defaultOptions` merge, socket limits, timeouts and URL
  construction (index.js:5-10, index.js:39-42, index.js:121-123,
  index.js:180-182). They are I/O and client configuration. Each provider's
  request is replaced by the reply it gets, a parameter of the model.
- The HTTP client's own status handling. A status the client refuses is one
  `NoResponse`; a reply that reaches the handler with a status other than 200
  is modelled as the handler's own error.
- The callback-or-promise dispatch on the argument count of `resolve`
  (index.js:269-295). It is a calling convention. The model returns the
  outcome directly, and the `options` argument is not modelled.
- Concurrent use of the shared instance. The model covers calls made one
  after another.
- The ISBNdb provider that test/spec.js expects. It has no implementation.
- examples/example.js, a usage script with console output only.
- JSON details that do not change a decision:
  - numbers are integers;
  - `null` and `undefined` are one value;
  - fields are assumed to have the types the handlers expect. A `null` entry
    in `items`, or a non-array `publishers`, would throw a different error.
- Array elements passed to `provider` that are not strings. They are never
  supported names, so they are represented by unsupported strings.
- Fallback.GetBookInfo: requires a non-empty list. With an empty list the
  source throws before any lookup, because it reads the resolver of
  `undefined`. The only caller passes the active order, which is never empty.
- `provider` returns the instance for chaining. The model returns the new
  state together with the error, if any.
