/**
 * The Pokédex list provider (src/context/PokemonContext.tsx): turning the
 * raw list the API returns into records, the search filter, and the
 * provider's four pieces of state. The HTTP call itself is not modelled;
 * its outcome is passed in.
 */
module PokemonContext {
  import opened JsText
  import opened Wrappers

  /** One entry of `response.data.results`. */
  datatype RawListEntry = RawListEntry(name: string, url: string)

  /** `PokemonBasic` from src/types/index.ts. */
  datatype PokemonBasic = PokemonBasic(id: string, name: string, url: string, imageUrl: string)

  const ArtworkPrefix: string :=
    "https://raw.githubusercontent.com/PokeAPI/sprites/master/sprites/pokemon/other/official-artwork/"

  /** The record built for the entry at position `index` of the raw list. */
  function ToBasic(p: RawListEntry, index: nat): PokemonBasic
  {
    var id := NatToString(index + 1);
    PokemonBasic(id, Capitalize(p.name), p.url, ArtworkPrefix + id + ".png")
  }

  /** The `.map` in `fetchPokemonList`: same length and order; element i has
      the decimal id i+1, the name with its first character upper-cased,
      the url unchanged and the artwork URL built from the id. */
  function ToPokemonList(raw: seq<RawListEntry>): (list: seq<PokemonBasic>)
    ensures |list| == |raw|
    ensures forall i :: 0 <= i < |raw| ==>
      && list[i].id == NatToString(i + 1)
      && IsDecimal(list[i].id) && ParseDecimal(list[i].id) == i + 1
      && list[i].name == Capitalize(raw[i].name)
      && list[i].url == raw[i].url
      && list[i].imageUrl == ArtworkPrefix + list[i].id + ".png"
  {
    var list := seq(|raw|, i requires 0 <= i < |raw| => ToBasic(raw[i], i));
    assert forall i :: 0 <= i < |raw| ==> ParseDecimal(list[i].id) == i + 1 by {
      forall i | 0 <= i < |raw| ensures ParseDecimal(list[i].id) == i + 1 {
        ParseNatToString(i + 1);
      }
    }
    list
  }

  /** The mapped ids are pairwise distinct. */
  lemma MappedIdsDistinct(raw: seq<RawListEntry>, i: nat, j: nat)
    requires i < |raw| && j < |raw| && i != j
    ensures ToPokemonList(raw)[i].id != ToPokemonList(raw)[j].id
  {
    var list := ToPokemonList(raw);
    assert ParseDecimal(list[i].id) != ParseDecimal(list[j].id);
  }

  // ---- search ----

  /** The filter predicate: the lower-cased name contains the (already
      lower-cased) query, or the id equals it. */
  predicate Matches(p: PokemonBasic, lowerQuery: string)
    ensures lowerQuery == "" ==> Matches(p, lowerQuery)
    ensures p.id == lowerQuery ==> Matches(p, lowerQuery)
  {
    assert OccursAt(ToLower(p.name), "", 0);
    Includes(ToLower(p.name), lowerQuery) || p.id == lowerQuery
  }

  /** `pokemonList.filter(...)`. */
  function FilterMatches(list: seq<PokemonBasic>, lowerQuery: string): (r: seq<PokemonBasic>)
    ensures |r| <= |list|
    ensures forall p :: p in r <==> p in list && Matches(p, lowerQuery)
  {
    if list == [] then []
    else (if Matches(list[0], lowerQuery) then [list[0]] else []) + FilterMatches(list[1..], lowerQuery)
  }

  /** What `searchPokemon(query)` stores in `filteredList`. */
  function SearchResults(pokemonList: seq<PokemonBasic>, query: string): (r: seq<PokemonBasic>)
    ensures query == "" ==> r == pokemonList
    ensures forall p :: p in r <==> p in pokemonList && Matches(p, ToLower(query))
  {
    if query == "" then
      FilterEmptyQuery(pokemonList);
      pokemonList
    else
      FilterMatches(pokemonList, ToLower(query))
  }

  /** The filter keeps order: filtering a concatenation concatenates the filtered parts. */
  lemma {:induction false} FilterConcat(a: seq<PokemonBasic>, b: seq<PokemonBasic>, q: string)
    ensures FilterMatches(a + b, q) == FilterMatches(a, q) + FilterMatches(b, q)
  {
    if a != [] {
      assert (a + b)[0] == a[0];
      assert (a + b)[1..] == a[1..] + b;
      FilterConcat(a[1..], b, q);
    } else {
      assert a + b == b;
    }
  }

  /** Filtering twice with the same query changes nothing. */
  lemma {:induction false} FilterIdempotent(list: seq<PokemonBasic>, q: string)
    ensures FilterMatches(FilterMatches(list, q), q) == FilterMatches(list, q)
  {
    if list != [] {
      var head := if Matches(list[0], q) then [list[0]] else [];
      FilterConcat(head, FilterMatches(list[1..], q), q);
      FilterIdempotent(list[1..], q);
    }
  }

  /** The empty string is contained in every name, so the early return for an
      empty query agrees with what the filter would have kept. */
  lemma {:induction false} FilterEmptyQuery(list: seq<PokemonBasic>)
    ensures FilterMatches(list, "") == list
  {
    if list != [] {
      assert OccursAt(ToLower(list[0].name), "", 0);
      FilterEmptyQuery(list[1..]);
    }
  }

  /** Searching the search result again with the same query gives it back. */
  lemma SearchIdempotent(list: seq<PokemonBasic>, query: string)
    ensures SearchResults(SearchResults(list, query), query) == SearchResults(list, query)
  {
    if query != "" {
      FilterIdempotent(list, ToLower(query));
    }
  }

  /** Searching for an id as the user types it ("7") finds the entry with
      that id, because ids are the exact decimal strings and digits are
      left alone by lower-casing. */
  lemma SearchById(raw: seq<RawListEntry>, k: nat)
    requires 1 <= k <= |raw|
    ensures ToPokemonList(raw)[k - 1] in SearchResults(ToPokemonList(raw), NatToString(k))
  {
    var q := NatToString(k);
    assert ToLower(q) == q;
  }

  // ---- load failures ----

  /** Why `fetchPokemonList` threw. */
  datatype LoadFailure =
    | HttpStatus(status: int)        // an axios error carrying a response
    | NoResponse(message: string)    // an axios error without a response
    | OtherFailure                   // anything that is not an axios error

  datatype FetchOutcome = Fetched(results: seq<RawListEntry>) | Failed(failure: LoadFailure)

  // The two long texts here are written as two literals each: the verifier
  // then sees the characters of each piece, which the proofs comparing
  // these strings need.
  const ApiErrorPrefix: string := "API Error: " + "Could not reach PokeAPI (Status: "
  const NetworkErrorPrefix: string := "Network Error: "
  const NetworkErrorSuffix: string := ". Check device connection."
  const DefaultLoadError: string := "Failed to load Pokémon data." + " Check your network."

  /** The message `loadPokemon` stores in `error` after a failure. */
  function LoadErrorMessage(f: LoadFailure): (msg: string)
    ensures f.HttpStatus? <==> ApiErrorPrefix <= msg
    ensures f.NoResponse? <==> NetworkErrorPrefix <= msg
    ensures f.OtherFailure? <==> msg == DefaultLoadError
  {
    match f
    case HttpStatus(s) =>
      var msg := ApiErrorPrefix + IntToString(s) + ").";
      assert msg[0] == 'A' && msg[..|ApiErrorPrefix|] == ApiErrorPrefix;
      msg
    case NoResponse(m) =>
      var msg := NetworkErrorPrefix + m + NetworkErrorSuffix;
      assert msg[0] == 'N' && msg[..|NetworkErrorPrefix|] == NetworkErrorPrefix;
      msg
    case OtherFailure =>
      assert DefaultLoadError[0] == 'F';
      DefaultLoadError
  }

  /** Different failures give different messages: the message determines the
      kind of failure, the status and the transport message. */
  lemma LoadErrorMessageInjective(f: LoadFailure, g: LoadFailure)
    requires LoadErrorMessage(f) == LoadErrorMessage(g)
    ensures f == g
  {
    var msg := LoadErrorMessage(f);
    match f
    case HttpStatus(s) =>
      var t := g.status;
      assert msg[|ApiErrorPrefix|..|msg| - 2] == IntToString(s);
      assert msg[|ApiErrorPrefix|..|msg| - 2] == IntToString(t);
      IntToStringInjective(s, t);
    case NoResponse(m) =>
      assert msg[|NetworkErrorPrefix|..|msg| - |NetworkErrorSuffix|] == m;
      assert msg[|NetworkErrorPrefix|..|msg| - |NetworkErrorSuffix|] == g.message;
    case OtherFailure =>
  }

  // ---- the provider's state ----

  class PokemonProvider {
    var pokemonList: seq<PokemonBasic>
    var filteredList: seq<PokemonBasic>
    var loading: bool
    var error: Option<string>

    /** The list holds ids "1".."n" in order, and the filtered list only
        holds entries of the list. */
    ghost predicate Valid()
      reads this
    {
      && (forall i :: 0 <= i < |pokemonList| ==>
            IsDecimal(pokemonList[i].id) && ParseDecimal(pokemonList[i].id) == i + 1)
      && (forall p :: p in filteredList ==> p in pokemonList)
    }

    /** In a valid provider every id is exactly `(i + 1).toString()`. */
    lemma IdIsRendering(i: nat)
      requires Valid() && i < |pokemonList|
      ensures pokemonList[i].id == NatToString(i + 1)
    {
      NatToStringParse(pokemonList[i].id);
    }

    /** Initial state: both lists empty, loading, no error. */
    constructor ()
      ensures Valid()
      ensures pokemonList == [] && filteredList == [] && loading && error == None
    {
      pokemonList := [];
      filteredList := [];
      loading := true;
      error := None;
    }

    /** `loadPokemon` up to the request: loading on, error cleared. */
    method StartLoad()
      requires Valid()
      modifies this
      ensures Valid()
      ensures loading && error == None
      ensures pokemonList == old(pokemonList) && filteredList == old(filteredList)
    {
      loading := true;
      error := None;
    }

    /** `loadPokemon` once the request settles: on success both lists become
        the mapped data; on failure the lists stay and `error` gets the
        message for the failure; in every case loading ends false. */
    method FinishLoad(outcome: FetchOutcome)
      requires Valid()
      modifies this
      ensures Valid()
      ensures !loading
      ensures outcome.Fetched? ==>
        && pokemonList == ToPokemonList(outcome.results)
        && filteredList == pokemonList
        && error == old(error)
      ensures outcome.Failed? ==>
        && pokemonList == old(pokemonList)
        && filteredList == old(filteredList)
        && error == Some(LoadErrorMessage(outcome.failure))
    {
      match outcome {
        case Fetched(results) =>
          var data := ToPokemonList(results);
          pokemonList := data;
          filteredList := data;
        case Failed(failure) =>
          error := Some(LoadErrorMessage(failure));
      }
      loading := false;
    }

    /** The whole of `loadPokemon`. */
    method LoadPokemon(outcome: FetchOutcome)
      requires Valid()
      modifies this
      ensures Valid()
      ensures !loading
      ensures outcome.Fetched? ==>
        pokemonList == ToPokemonList(outcome.results) && filteredList == pokemonList && error == None
      ensures outcome.Failed? ==>
        && pokemonList == old(pokemonList)
        && filteredList == old(filteredList)
        && error == Some(LoadErrorMessage(outcome.failure))
    {
      StartLoad();
      FinishLoad(outcome);
    }

    /** `searchPokemon(query)`: recomputes `filteredList` from `pokemonList`
        alone, so earlier searches never compound; nothing else changes. */
    method SearchPokemon(query: string)
      requires Valid()
      modifies this`filteredList
      ensures Valid()
      ensures filteredList == SearchResults(pokemonList, query)
    {
      filteredList := SearchResults(pokemonList, query);
    }
  }
}
