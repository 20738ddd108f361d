/** The `Isbn` instance (index.js:217-297) as a pure state machine. Its
    only state is the active provider order: `provider` may replace it,
    and `resolve` runs the fallback chain with it and puts the default
    order back at once. */
module Isbn {
  import opened Outcomes
  import opened Sequences
  import opened Providers
  import opened Books
  import opened Fallback
  import GoogleBooks
  import OpenLibraryBooks
  import WorldcatBooks

  /** What a caller hands to `provider`: an array of names, or anything else. */
  datatype Input = Arr(names: seq<string>) | NotArr

  /** Why `provider` throws. */
  datatype SelectionError = NotAnArray | UnsupportedProvider

  /** The instance: the active provider order. */
  datatype Instance = Instance(providers: seq<ProviderId>)

  /** An order `getBookInfo` can run: non-empty and naming no provider twice. */
  predicate Valid(s: Instance) {
    |s.providers| > 0 && NoDup(s.providers)
  }

  /** The constructor, which calls `_resetProviders`. */
  function New(): (s: Instance)
    ensures s.providers == DefaultProviders
    ensures Valid(s)
  {
    Reset()
  }

  /** `_resetProviders`: the state after it, whatever the state before. The
      default order is one `getBookInfo` can run. */
  function Reset(): (r: Instance)
    ensures r.providers == DefaultProviders
    ensures Valid(r)
    ensures forall p: ProviderId :: p in r.providers
  {
    DefaultProvidersDistinct();
    Instance(DefaultProviders)
  }

  /** The state after `provider`, and the error it throws, if any. */
  datatype Selection = Selection(next: Instance, error: Option<SelectionError>)

  /** Some name in the list is not a supported provider name. */
  predicate HasUnsupported(names: seq<string>) {
    exists i :: 0 <= i < |names| && !Supported(names[i])
  }

  /** `provider(providers)`: reject a non-array; ignore an empty array;
      otherwise remove duplicates, reject the list if any name is not
      supported, and make it the active order. */
  function Provider(s: Instance, input: Input): (r: Selection)
    ensures r.error == Some(NotAnArray) <==> input.NotArr?
    ensures r.error == Some(UnsupportedProvider) <==> input.Arr? && HasUnsupported(input.names)
    ensures r.error.Some? ==> r.next == s
    ensures input == Arr([]) ==> r == Selection(s, None)
    ensures r.error.None? && input.Arr? && |input.names| > 0 ==>
      Names(r.next.providers) == Dedup(input.names)
    ensures Valid(s) ==> Valid(r.next)
  {
    match input
    case NotArr => Selection(s, Some(NotAnArray))
    case Arr(names) =>
      if |names| == 0 then Selection(s, None)
      else
        var unique := Dedup(names);
        UnsupportedSurvivesDedup(names);
        match ParseAll(unique)
        case None => Selection(s, Some(UnsupportedProvider))
        case Some(ps) =>
          NamesNoDup(ps);
          assert names[0] in unique;
          Selection(Instance(ps), None)
  }

  /** Removing duplicates neither adds nor drops an unsupported name. */
  lemma UnsupportedSurvivesDedup(names: seq<string>)
    ensures HasUnsupported(Dedup(names)) <==> HasUnsupported(names)
  {
  }

  /** The replies each provider's request would get for one ISBN. */
  datatype Network = Network(
    google: Reply<GoogleBooks.Payload>,
    openLibrary: Reply<OpenLibraryBooks.Payload>,
    worldcat: Reply<WorldcatBooks.Payload>)

  /** `PROVIDER_RESOLVERS[p](isbn)`: the lookup of one provider, given the
      reply its request gets. */
  function LookupOne(net: Network, isbn: string, p: ProviderId): (r: Outcome<Resolved>)
    ensures r.Ok? ==> (r.value.Volume? <==> p == Google)
    ensures r.Ok? && r.value.Standard? ==> HasNormalisedShape(r.value.book)
    ensures p == Google && net.google.NoResponse? ==> r == Err(RequestFailed(net.google.reason))
    ensures p == OpenLibrary && net.openLibrary.NoResponse? ==> r == Err(RequestFailed(net.openLibrary.reason))
    ensures p == Worldcat && net.worldcat.NoResponse? ==> r == Err(RequestFailed(net.worldcat.reason))
  {
    match p
    case Google => GoogleBooks.Resolve(isbn, net.google)
    case OpenLibrary => OpenLibraryBooks.Resolve(isbn, net.openLibrary)
    case Worldcat => WorldcatBooks.Resolve(isbn, net.worldcat)
  }

  /** The lookups of all providers for one ISBN. */
  function Lookup(net: Network, isbn: string): ProviderId -> Outcome<Resolved> {
    p => LookupOne(net, isbn, p)
  }

  /** The state after `resolve`, how its promise settles, and which providers it asked. */
  datatype Resolution = Resolution(next: Instance, outcome: Outcome<Resolved>, invoked: seq<ProviderId>)

  /** `resolve(isbn)`: start the chain with the order active at the call,
      then reset the order at once, before the chain settles. Since the
      reset does not depend on the outcome, the order is the default again
      whether the lookup succeeds or fails. */
  function Resolve(s: Instance, isbn: string, net: Network): (r: Resolution)
    requires |s.providers| > 0
    ensures r.next.providers == DefaultProviders
    ensures IsFallback(s.providers, Lookup(net, isbn), Trace(r.outcome, r.invoked))
  {
    var chain := GetBookInfo(s.providers, Lookup(net, isbn));
    Resolution(Reset(), chain.outcome, chain.invoked)
  }

  /** A call on the instance. */
  datatype Call = SelectProviders(input: Input) | ResolveIsbn(isbn: string, net: Network)

  /** The state after one call. */
  function Step(s: Instance, c: Call): (r: Instance)
    requires Valid(s)
    ensures Valid(r)
  {
    match c
    case SelectProviders(input) => Provider(s, input).next
    case ResolveIsbn(isbn, net) =>
      DefaultProvidersDistinct();
      Resolve(s, isbn, net).next
  }

  /** The state after a sequence of calls made one after another. Every
      state reached is a valid order, and a sequence that ends with
      `resolve` leaves the default order in place. */
  function Run(s: Instance, calls: seq<Call>): (r: Instance)
    requires Valid(s)
    ensures Valid(r)
    ensures |calls| > 0 && calls[|calls| - 1].ResolveIsbn? ==> r.providers == DefaultProviders
    ensures (forall i :: 0 <= i < |calls| ==> calls[i].ResolveIsbn?) && |calls| > 0 ==> r == New()
    decreases |calls|
  {
    if |calls| == 0 then s
    else
      var r := Run(Step(s, calls[0]), calls[1..]);
      assert |calls| > 1 ==> calls[1..][|calls| - 2] == calls[|calls| - 1];
      r
  }

  /** A selection is single-use: after `provider(list)` succeeds, the next
      `resolve` asks providers in the chosen order, first occurrences
      first, and leaves the instance as a new one, so any later `resolve`
      runs on the default order. */
  lemma {:induction false} SelectionIsSingleUse(s: Instance, names: seq<string>, isbn: string, net: Network)
    requires Valid(s)
    requires |names| > 0 && !HasUnsupported(names)
    ensures Provider(s, Arr(names)).error.None?
    ensures
      var r := Resolve(Provider(s, Arr(names)).next, isbn, net);
      && Names(r.invoked) == Dedup(names)[..|r.invoked|]
      && r.next == New()
  {
    var sel := Provider(s, Arr(names));
    assert sel.error.None?;
    var t := sel.next;
    assert Names(t.providers) == Dedup(names);
    var r := Resolve(t, isbn, net);
    var n := |r.invoked|;
    assert r.invoked == t.providers[..n];
    NamesPrefix(t.providers, n);
  }

  /** Naming commutes with taking a prefix. */
  lemma NamesPrefix(ps: seq<ProviderId>, n: nat)
    requires n <= |ps|
    ensures Names(ps[..n]) == Names(ps)[..n]
  {
  }
}
