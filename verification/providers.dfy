/** The three book-metadata providers, their public names and the
    default order in which they are asked (index.js:21-31). */
module Providers {
  import opened Outcomes
  import opened Sequences

  datatype ProviderId = Google | OpenLibrary | Worldcat

  /** The name a caller passes to select a provider. */
  function Name(p: ProviderId): string {
    match p
    case Google => "google"
    case OpenLibrary => "openlibrary"
    case Worldcat => "worldcat"
  }

  /** The provider order used when the caller has not chosen one. */
  const DefaultProviders: seq<ProviderId> := [Google, OpenLibrary, Worldcat]

  /** The names of the default order, the list a name is checked against. */
  const DefaultNames: seq<string> := ["google", "openlibrary", "worldcat"]

  /** A name is supported exactly when it is listed in the default order. */
  predicate Supported(name: string) {
    name in DefaultNames
  }

  /** The provider a supported name selects. */
  function Named(name: string): (r: Option<ProviderId>)
    ensures r.Some? <==> Supported(name)
    ensures r.Some? ==> Name(r.value) == name
  {
    if name == "google" then Some(Google)
    else if name == "openlibrary" then Some(OpenLibrary)
    else if name == "worldcat" then Some(Worldcat)
    else None
  }

  /** Names are a faithful encoding: decoding a provider's name gives the provider back. */
  lemma NamedName(p: ProviderId)
    ensures Named(Name(p)) == Some(p)
  {
  }

  /** The names of a list of providers, in order. */
  function Names(ps: seq<ProviderId>): (r: seq<string>)
    ensures |r| == |ps|
    ensures forall i :: 0 <= i < |ps| ==> r[i] == Name(ps[i])
  {
    if |ps| == 0 then [] else [Name(ps[0])] + Names(ps[1..])
  }

  /** The providers a list of names selects, when every name is supported. */
  function ParseAll(names: seq<string>): (r: Option<seq<ProviderId>>)
    ensures r.Some? <==> forall i :: 0 <= i < |names| ==> Supported(names[i])
    ensures r.Some? ==> Names(r.value) == names
  {
    if |names| == 0 then Some([])
    else
      var head := Named(names[0]);
      var tail := ParseAll(names[1..]);
      if head.None? then None
      else if tail.None? then
        assert forall i :: 1 <= i < |names| ==> names[i] == names[1..][i - 1];
        None
      else
        NamesCons(head.value, tail.value);
        assert names == [names[0]] + names[1..];
        Some([head.value] + tail.value)
  }

  /** The names of a list with a provider in front. */
  lemma NamesCons(p: ProviderId, ps: seq<ProviderId>)
    ensures Names([p] + ps) == [Name(p)] + Names(ps)
  {
    assert ([p] + ps)[1..] == ps;
  }

  /** Two providers with the same name are the same provider, so a list of
      providers has duplicates exactly when its names do. */
  lemma {:induction false} NamesNoDup(ps: seq<ProviderId>)
    ensures NoDup(ps) <==> NoDup(Names(ps))
  {
    var ns := Names(ps);
    forall i, j | 0 <= i < j < |ps|
      ensures ps[i] == ps[j] <==> ns[i] == ns[j]
    {
      NamedName(ps[i]);
      NamedName(ps[j]);
    }
  }

  /** The default order names each provider once and is a valid order. */
  lemma DefaultProvidersDistinct()
    ensures NoDup(DefaultProviders)
    ensures Names(DefaultProviders) == DefaultNames
    ensures forall p: ProviderId :: p in DefaultProviders
  {
    assert Names(DefaultProviders) == DefaultNames by {
      var ns := Names(DefaultProviders);
      assert ns[0] == "google" && ns[1] == "openlibrary" && ns[2] == "worldcat";
    }
    forall p: ProviderId ensures p in DefaultProviders {
      match p
      case Google => assert DefaultProviders[0] == p;
      case OpenLibrary => assert DefaultProviders[1] == p;
      case Worldcat => assert DefaultProviders[2] == p;
    }
  }
}
