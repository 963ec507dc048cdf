# Fidaco client logic in Dafny

A model of the logic inside the Fidaco game client, a location-based
Pokémon-catching app. Most of the app is screens and backend calls. The
logic modelled here is what those screens compute:

- the biome of a coordinate and the random encounter drawn for it
  (`src/utils/biome.ts`, `src/utils/randomEncounter.ts`);
- the Pokédex list provider: mapping the API's list into records, the
  search filter, and the provider's `pokemonList` / `filteredList` /
  `loading` / `error` state (`src/context/PokemonContext.tsx`);
- the post-processing of a creature's detail and species responses: the
  first English flavour text, cleaned of line and form feeds, with a
  fallback (`src/api/pokeApi.ts`);
- display strings: the feed's sprite URL and biome background
  (`src/screens/HomeScreen.tsx`); type colours, stat and ability labels,
  the stat bar clamp and the header (`src/screens/PokemonDetailScreen.tsx`);
- sign-up: the empty-field check, the `loading` flag, the initial profile
  and the error-code messages (`src/screens/SignUpScreen.tsx`).

Files, one module each: `biome.dfy`, `random_encounter.dfy`,
`pokemon_context.dfy`, `poke_api.dfy`, `home_screen.dfy`,
`pokemon_detail_screen.dfy` and `sign_up_screen.dfy` follow the source files.
`js_text.dfy` models the JavaScript string built-ins they use (see below),
and `wrappers.dfy` holds an `Option` type.

Modelling choices:

- A latitude is the exact value of a finite JavaScript number, a `real`.
  For such a value and a whole m > 0, `lat % m === 0` holds exactly when
  lat / m is a whole number (`Biome.IsMultiple`). On whole latitudes this
  agrees with Dafny's `%` on integers (`Biome.WholeLatitude`).
- `Math.random()` is a parameter `r` with 0 <= r < 1.
- HTTP responses, authentication and database results are parameters:
  `FetchOutcome`, the decoded response bodies, `AuthOutcome` and
  `WriteOutcome`. The sign-up join date (`new Date().toDateString()`) is a
  parameter too.
- `toLowerCase`/`toUpperCase` change only ASCII letters.
- `String.replace` with a string pattern replaces only the first match
  (`JsText.ReplaceFirst`). With a global regex it replaces every match
  (`JsText.ReplaceEach`).
- The provider's asynchronous `loadPokemon` is two steps: `StartLoad`
  (before the request) and `FinishLoad` (after it settles).
- The sign-up form keeps logs of the account-creation requests it made,
  the profiles it wrote and the alerts it showed. That is how "no account
  is requested when a field is empty" can be stated. Its invariant includes
  `!loading` between attempts. This matches the source, whose button is
  disabled while loading (src/screens/SignUpScreen.tsx:110).

## Model

| member | source | states |
|---|---|---|
| Biome.IsMultiple | src/utils/biome.ts:5-6 | `x % m === 0` as "x / m is whole"; only whole latitudes can pass it |
| Biome.GetBiome | src/utils/biome.ts:1-8 | urban exactly when the latitude is a multiple of 2; water exactly when it is not but is a multiple of 3; rural exactly when it is neither |
| Biome.WholeLatitude | src/utils/biome.ts:5-6 | for a whole latitude, the JavaScript zero-remainder test by 2 or 3 holds exactly when the integer remainder is 0, negative latitudes included |
| Biome.WholeLatitudeBiome | src/utils/biome.ts:5-7 | a whole latitude is urban if even, else water if a multiple of 3, else rural |
| Biome.EvenLatitudeIsUrban | src/utils/biome.ts:5 | every multiple of 2, negative ones included, is urban |
| Biome.MultipleOfSixIsUrban | src/utils/biome.ts:5-6 | the even test comes first: a multiple of 6 is urban, never water |
| Biome.OddMultipleOfThreeIsWater | src/utils/biome.ts:6 | an odd multiple of 3 (6j + 3) is water |
| Biome.OtherWholeLatitudeIsRural | src/utils/biome.ts:7 | a whole latitude that is a multiple of neither 2 nor 3 is rural |
| Biome.FractionalLatitudeIsRural | src/utils/biome.ts:5-7 | a latitude with a fractional part is rural |
| Biome.BiomePeriodic | src/utils/biome.ts:1-8 | the biome ignores the longitude and repeats every 6 degrees of latitude |
| RandomEncounter.Encounters | src/utils/randomEncounter.ts:5-9 | each biome's list has exactly three names |
| RandomEncounter.DrawIndex | src/utils/randomEncounter.ts:15 | for 0 <= r < 1, `floor(r * n)` is an index in [0, n) and is the floor of r * n |
| RandomEncounter.GetRandomEncounter | src/utils/randomEncounter.ts:11-18 | the name drawn is in the list of the coordinate's biome |
| RandomEncounter.BiomeOfEncounter | src/utils/randomEncounter.ts:5-9 | the reverse lookup finds a biome whose list holds the name, or none when no list does |
| RandomEncounter.EncountersDisjoint | src/utils/randomEncounter.ts:5-9 | no name is in two biome lists |
| RandomEncounter.EncounterIdentifiesBiome | src/utils/randomEncounter.ts:11-18 | the drawn name's reverse lookup is exactly the coordinate's biome |
| RandomEncounter.EncounterIgnoresLongitude | src/utils/randomEncounter.ts:11-18 | same latitude and same draw give the same name for any longitude |
| RandomEncounter.DrawSelects | src/utils/randomEncounter.ts:15-17 | a draw in [k/3, (k+1)/3) selects the k-th name, so every name can be drawn |
| PokemonContext.ToPokemonList | src/context/PokemonContext.tsx:32-39 | same length and order; entry i has as id the decimal string of i+1 (digits, no leading zero, reading back as i+1), the capitalised name, the url unchanged, and artwork prefix + id + ".png" |
| PokemonContext.MappedIdsDistinct | src/context/PokemonContext.tsx:33 | the mapped ids are pairwise distinct |
| PokemonContext.Matches | src/context/PokemonContext.tsx:89 | the filter test: an empty query matches every entry, and a query equal to the id matches that entry |
| PokemonContext.FilterMatches | src/context/PokemonContext.tsx:88-90 | the result holds exactly the elements of the list whose lower-cased name contains the query or whose id equals it; it is no longer than the list |
| PokemonContext.SearchResults | src/context/PokemonContext.tsx:80-92 | an empty query gives the whole list; otherwise membership is exactly "in the list and matches the lower-cased query" |
| PokemonContext.SearchById | src/context/PokemonContext.tsx:86-90 | searching for "k", the id as typed, finds entry k of the mapped list |
| PokemonContext.FilterConcat | src/context/PokemonContext.tsx:88-90 | the filter keeps order: filtering a concatenation is the concatenation of the filtered parts |
| PokemonContext.FilterIdempotent | src/context/PokemonContext.tsx:88-90 | filtering the result again with the same query changes nothing |
| PokemonContext.FilterEmptyQuery | src/context/PokemonContext.tsx:81-89 | the filter with an empty query keeps everything, so the early return agrees with it |
| PokemonContext.SearchIdempotent | src/context/PokemonContext.tsx:80-92 | searching the result of a search with the same query gives the same list |
| PokemonContext.LoadErrorMessage | src/context/PokemonContext.tsx:62-67 | an HTTP status gives the "API Error" message, a missing response the "Network Error" message, anything else the default message, and each prefix occurs only for its case |
| PokemonContext.LoadErrorMessageInjective | src/context/PokemonContext.tsx:62-67 | different failures (kind, status or transport message) give different messages |
| PokemonContext.PokemonProvider.IdIsRendering | src/context/PokemonContext.tsx:33 | in a valid provider, entry i's id is exactly the decimal string of i+1 |
| PokemonContext.PokemonProvider.constructor | src/context/PokemonContext.tsx:46-49 | initial state: both lists empty, loading, no error |
| PokemonContext.PokemonProvider.StartLoad | src/context/PokemonContext.tsx:52-53 | loading on and error cleared, lists untouched |
| PokemonContext.PokemonProvider.FinishLoad | src/context/PokemonContext.tsx:54-72 | success sets both lists to the mapped data; failure keeps the lists and stores the failure's message; loading ends false; ids stay "1".."n" and the filtered list stays within the list |
| PokemonContext.PokemonProvider.LoadPokemon | src/context/PokemonContext.tsx:51-73 | the whole load: on success both lists are the data and there is no error; on failure the message; loading ends false |
| PokemonContext.PokemonProvider.SearchPokemon | src/context/PokemonContext.tsx:80-93 | only `filteredList` changes, and it is recomputed from `pokemonList` alone |
| PokeApi.FindEnglish | src/api/pokeApi.ts:21-23 | none exactly when no entry is English; otherwise the entry at the first English position |
| PokeApi.CleanFlavorText | src/api/pokeApi.ts:24 | same length, no line feed or form feed left, each of them replaced by one space and every other character kept in place |
| PokeApi.FlavorTextOf | src/api/pokeApi.ts:21-24 | the description never holds a line or form feed, and is "No description available." when no entry is English |
| PokeApi.FlavorTextFromFirstEnglish | src/api/pokeApi.ts:21-24 | when entry i is the first English one, the description is entry i's text, cleaned |
| PokeApi.CleanIdempotent | src/api/pokeApi.ts:24 | cleaning an already cleaned text changes nothing |
| PokeApi.BuildDetails | src/api/pokeApi.ts:27-38 | dropping the flavour text from the result gives back the detail response unchanged; the flavour text is the selected and cleaned one |
| HomeScreen.CleanName | src/screens/HomeScreen.tsx:28 | the clean name has no upper-case letter |
| HomeScreen.GetPokemonImageUrl | src/screens/HomeScreen.tsx:25-31 | the URL is the sprite prefix, then the clean name, then ".png" |
| HomeScreen.CleanNameLength | src/screens/HomeScreen.tsx:28 | the clean name is one character shorter than the name exactly when the name has a dot |
| HomeScreen.CleanNameDots | src/screens/HomeScreen.tsx:28 | only the first dot is deleted; every later dot survives |
| HomeScreen.CleanNameSpaces | src/screens/HomeScreen.tsx:28 | only the first space becomes a dash; every later space survives |
| HomeScreen.CleanNamePlain | src/screens/HomeScreen.tsx:28 | a name with no dot and no space maps to its lower-case form |
| HomeScreen.CleanNameMrMime | src/screens/HomeScreen.tsx:26-28 | "Mr. Mime" becomes "mr-mime" |
| HomeScreen.BiomeBackground | src/screens/HomeScreen.tsx:46 | water and urban each get their own colour, and exactly the other strings get the green one |
| HomeScreen.BiomeBackgroundsDistinct | src/screens/HomeScreen.tsx:46 | the three biomes get three different backgrounds |
| PokemonDetailScreen.GetTypeColor | src/screens/PokemonDetailScreen.tsx:18-31 | every type, listed or not, gets a seven-character "#RRGGBB" colour |
| PokemonDetailScreen.TypeColorTable | src/screens/PokemonDetailScreen.tsx:18-31 | each of the 18 listed types gets its listed colour, and any other string gets #68A090 |
| PokemonDetailScreen.DisplayLabel | src/screens/PokemonDetailScreen.tsx:34 | same length, no dash and no lower-case letter left; each dash becomes a space and every other character its upper case |
| PokemonDetailScreen.StatLabel | src/screens/PokemonDetailScreen.tsx:34 | the stat label keeps the name's length and has no dash |
| PokemonDetailScreen.BarWidth | src/screens/PokemonDetailScreen.tsx:35-44 | the width is at most 100, is 100 exactly when the stat is at least 150, and is proportional (stat * 100 / 150) up to 150 |
| PokemonDetailScreen.MainImageUri | src/screens/PokemonDetailScreen.tsx:90 | the official artwork when present and non-empty, else the list's image |
| PokemonDetailScreen.HeaderTitle | src/screens/PokemonDetailScreen.tsx:94 | the capitalised name, then " (#", the id in decimal, and ")" |
| PokemonDetailScreen.HeaderTitleId | src/screens/PokemonDetailScreen.tsx:94 | the id can be read back from the header |
| PokemonDetailScreen.AbilityLine | src/screens/PokemonDetailScreen.tsx:131 | bullet, then the ability label, then a space; the line ends with "(Hidden)" exactly when the ability is hidden, and nothing follows the space otherwise |
| SignUpScreen.SignUpErrorMessage | src/screens/SignUpScreen.tsx:52-59 | each of the three known codes gets its own message, and exactly the other codes get "Something went wrong" |
| SignUpScreen.InitialProfile | src/screens/SignUpScreen.tsx:37-44 | the entered username and email, an empty Pokédex and a count that agrees with it (0) |
| SignUpScreen.OutcomeAlert | src/screens/SignUpScreen.tsx:46-60 | success is shown exactly when the account and the profile were both created; otherwise the failing call's code picks the message |
| SignUpScreen.SignUpForm.constructor | src/screens/SignUpScreen.tsx:16-19 | empty fields, not loading, nothing requested or shown |
| SignUpScreen.SignUpForm.EditFields | src/screens/SignUpScreen.tsx:78-103 | typing sets the three fields |
| SignUpScreen.SignUpForm.HandleSignUp | src/screens/SignUpScreen.tsx:21-64 | an empty field only alerts, with no request, no write and `loading` untouched; otherwise one account request made while loading, a profile write exactly when the account was created, the outcome alert, and `loading` false at the end |
| JsText.Includes | src/context/PokemonContext.tsx:89 | `includes` holds exactly when the needle occurs at some position |
| JsText.ReplaceFirst | src/screens/HomeScreen.tsx:28 | with no match the string is unchanged; otherwise only the first occurrence is replaced |
| JsText.ReplaceFirstMultiset | src/screens/HomeScreen.tsx:28 | replacing the first match removes one pattern character and adds the replacement's characters |
| JsText.ToLowerCount | src/screens/HomeScreen.tsx:28 | lower-casing keeps the number of every character that is not an ASCII letter |
| JsText.ToLower | src/screens/HomeScreen.tsx:28 | same length; each character mapped by the ASCII lower-case mapping, so no upper-case letter is left |
| JsText.ToUpper | src/screens/PokemonDetailScreen.tsx:34 | same length; each character mapped by the ASCII upper-case mapping, so no lower-case letter is left |
| JsText.ReplaceEach | src/api/pokeApi.ts:24 | the global one-character-class replace: same length, every listed character replaced in place, every other character kept |
| JsText.Capitalize | src/context/PokemonContext.tsx:36 | same length; only the first character is upper-cased |
| JsText.NatToString | src/context/PokemonContext.tsx:33 | `toString()` of a whole number: at least one digit, only digits, no leading zero, and it starts with "0" only for 0 |
| JsText.IntToString | src/screens/PokemonDetailScreen.tsx:94 | a number's decimal rendering, with "-" before the rendering of its magnitude when negative |
| JsText.ParseNatToString | src/context/PokemonContext.tsx:33 | the decimal rendering of a number reads back as that number |
| JsText.NatToStringParse | src/context/PokemonContext.tsx:33 | every decimal string without a leading zero is the rendering of the number it reads as, so an id is fixed by its value |
| JsText.NatToStringInjective | src/context/PokemonContext.tsx:33 | different numbers have different decimal renderings |

## Left out

- Non-finite latitudes (NaN, ±Infinity) are not modelled. In the source they fall through to "rural".
- RandomEncounter.DrawIndex: uses exact real multiplication; the rounding of `r * 3` in floating point is not modelled.
- PokemonDetailScreen.BarWidth: uses exact real division; floating-point rounding is not modelled.
- JsText.ToLower, JsText.ToUpper: ASCII-only case mapping; JavaScript maps all of Unicode.
- JsText.IntToString: renders whole numbers only; ids and HTTP statuses are whole numbers.
- `src/utils/geo.ts` (the haversine `distance` and `generateNearbySpawn`) is floating-point numerics and is not part of this model.
- The HTTP requests (including the `Promise.all` pair), Firebase authentication and database calls, and the feed's real-time subscription are external I/O. Only the data transformations applied to their results are modelled.
- The feed list built from the subscription (src/screens/HomeScreen.tsx:79-103) and the feed's loading flag are not modelled. They copy the database snapshot into screen state.
- The detail screen's own load effect and loading flag (src/screens/PokemonDetailScreen.tsx:55-81) are not modelled. The data it shows is `PokeApi.BuildDetails`'s result.
- The type badge's upper-casing (src/screens/PokemonDetailScreen.tsx:104) is `JsText.ToUpper` and has no lemma of its own.
- Time formatting (`toLocaleTimeString`), the join date (`toDateString`, a parameter here) and the `toFixed(1)` height and weight are locale and float formatting.
- Navigation, rendering, styles, geolocation, notifications and the other screens (sign-in, profile, Pokédex list, AR, hunt) are UI and device glue.
- PokemonContext.PokemonProvider.SearchPokemon: reads the current `pokemonList`. React's closure over an earlier render's list is not modelled.
- SignUpScreen.SignUpForm.HandleSignUp: the navigation on the success alert's OK button and the alerts' UI are not modelled, only which alert is shown.
