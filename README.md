# Buylist comparator core, modelled in Dafny

This project models the non-UI logic of the buylist comparator web app:

- **The MTGJSON service** (`src/api/mtgJsonService.js`). It keeps a per-set cache in the browser's
  `localStorage`. Each set code has a payload key `mtgjson_data_<set>` and a date key
  `mtgjson_cache_date_<set>`. An entry is valid only while its date string is today's
  `toDateString()`. Reading an entry that is not valid evicts both keys. Writing stamps today's date.
  `fetchMTGData` reads the cache first and fetches the set file only on a miss.
  `clearCache` removes every key with either prefix, and `getCacheStatus` summarises the store.
- **The card list input** (`src/components/CardListInput.jsx`). On submit, the text is split on
  `'\n'`, each line is trimmed, and empty lines are dropped. Nothing is submitted when the trimmed
  text is empty. The "Cards entered" counter counts the lines that are not blank.
- **The results list** (`src/components/CardResults.jsx`). `getCardInfo` looks a card up by exact,
  case-insensitive name. If the request names a loaded set that holds cards, it searches that set
  only. Otherwise it takes the first match from the first loaded set that has one. The component
  renders one row per requested card.

Modules:

| file | module | what it holds |
|---|---|---|
| `wrappers.dfy` | `Wrappers` | `Option` (JavaScript's `null`) and `Result` (a value or a thrown error) |
| `js_string.dfy` | `JsString` | the string built-ins the source calls: `trim`, `split`, `replace`, `startsWith`, `toLowerCase`, `toUpperCase`; `Join` serves the split round-trip lemmas and `IndexOf` is a helper of `replace` |
| `mtg_json_service.dfy` | `MtgJsonService` | class `LocalStorage` (a `map<string, string>` field changed in place); the service methods that change it; functions that give each method's result and new store; lemmas about the cache |
| `card_list_input.dfy` | `CardListInput` | the submit pipeline and the counter, as functions, with lemmas about order, shape and count |
| `card_results.dfy` | `CardResults` | `getCardInfo` and the row mapping, as functions |

The service's read-only operations (`isCacheValid`, `getCacheStatus`) are functions of the store's
contents. The operations that change the store (`getCachedData`, `setCachedData`, `fetchMTGData`,
`clearCache`) are methods that change a `LocalStorage` object. Each method's `ensures` ties the new store and
its result to a function of the old store: `AfterRead`, `CachedPayload`, `Stored`, `Fetch` or
`Cleared`. The cache lemmas are stated about those functions. `clearCache` is a loop over a snapshot
of the keys, like the source's `forEach`.

The clock is the parameter `today`, which stands for `new Date().toDateString()`. The network is the
parameter `outcome`: either `fetch` rejects, or it resolves to a response with an `ok` flag, a
status and the result of `response.json()`.

## Model

| member | source | states |
|---|---|---|
| `JsString.Trim` | src/components/CardListInput.jsx:13 | `trim` gives the empty string exactly when the text is blank; otherwise the result neither starts nor ends with white space (the full ECMAScript WhiteSpace and LineTerminator set) |
| `JsString.TrimIsSlice` | src/components/CardListInput.jsx:13 | what `trim` keeps is a contiguous slice of the line, unchanged, with only white space cut off on either side |
| `JsString.TrimKeepsCharacters` | src/components/CardListInput.jsx:13 | every character of a trimmed line occurs in the line |
| `JsString.Split` | src/components/CardListInput.jsx:12 | `split('\n')` always yields at least one piece, and no piece contains the separator |
| `JsString.JoinSplit` | src/components/CardListInput.jsx:12 | splitting loses nothing: joining the pieces with the separator gives back the text |
| `JsString.SplitJoin` | src/components/CardListInput.jsx:12 | splitting is the inverse of joining pieces that are free of the separator |
| `JsString.ReplaceFirstOfPrefix` | src/api/mtgJsonService.js:109 | `replace` with a string pattern strips the pattern from a key that starts with it |
| `JsString.ReplaceFirst` | src/api/mtgJsonService.js:109 | `replace` with a string pattern: the text unchanged when the pattern does not occur; otherwise the first occurrence, and only that one, is replaced; characterised by `ReplaceFirstOfPrefix` |
| `JsString.ToLowerCase` | src/components/CardResults.jsx:22 | same length; each ASCII upper-case letter becomes its lower-case letter, and no upper-case letter is left; every other character is kept |
| `JsString.ToUpperCase` | src/components/CardResults.jsx:53 | same length; each ASCII lower-case letter becomes its upper-case letter, and no lower-case letter is left; every other character is kept |
| `JsString.LowerCaseIgnoresCase` | src/components/CardResults.jsx:22 | the name comparison ignores case: lower-casing an upper-cased or already lower-cased text gives the same result |
| `MtgJsonService.KeysNeverCollide` | src/api/mtgJsonService.js:3-4 | a payload key is never a date key, and two sets never share a payload key or a date key |
| `MtgJsonService.IsCacheValid` | src/api/mtgJsonService.js:12-18 | valid iff the set's date key is present and equals today, and today's date string is non-empty (the falsy check) |
| `MtgJsonService.CachedPayload` | src/api/mtgJsonService.js:25-35 | `getCachedData` returns a payload iff the entry is valid and its stored text is non-empty, and then it returns that stored text; otherwise it returns `null` |
| `MtgJsonService.AfterRead` | src/api/mtgJsonService.js:25-31 | a valid read leaves the store unchanged; an invalid read removes exactly the set's two keys and keeps every other entry's value |
| `MtgJsonService.Stored` | src/api/mtgJsonService.js:42-46 | `setCachedData` writes the payload and today's date under the set's two keys, and every other entry keeps its value |
| `MtgJsonService.Cleared` | src/api/mtgJsonService.js:90-97 | `clearCache` keeps exactly the keys that start with neither `mtgjson_data` nor `mtgjson_cache_date`, with their values |
| `MtgJsonService.GetCacheStatus` | src/api/mtgJsonService.js:105-126 | `hasCache` iff some key starts with `mtgjson_data`; every such key's set is listed, and only those; `isValid` iff some listed set's date key holds today's date; the date is today's |
| `MtgJsonService.SetOfKey` | src/api/mtgJsonService.js:109 | a key that starts with `mtgjson_data_` is the payload key of the set name `replace` leaves; characterised by `ReplaceFirstOfPrefix` and `StoredSetIsListed` |
| `MtgJsonService.GetCachedData` | src/api/mtgJsonService.js:25-35 | returns `CachedPayload` of the old store and leaves `AfterRead` of it |
| `MtgJsonService.SetCachedData` | src/api/mtgJsonService.js:42-46 | leaves `Stored` of the old store |
| `MtgJsonService.FetchMTGData` | src/api/mtgJsonService.js:54-85 | result and new store are those of `Fetch`: cache first, then the fetched payload cached under today's date, or a thrown error |
| `MtgJsonService.Fetch` | src/api/mtgJsonService.js:54-85 | a payload is returned iff the cache read yields one or the response is ok and its body parses; every error names the set and its URL, and an error leaves the store as the cache read left it; characterised by `CacheHitSkipsNetwork`, `FetchedPayloadIsCached` and `FailedFetchWritesNothing` |
| `MtgJsonService.ClearCache` | src/api/mtgJsonService.js:90-99 | the loop over the key snapshot leaves exactly `Cleared` of the old store |
| `MtgJsonService.SameDayRoundTrip` | src/api/mtgJsonService.js:42-46 | after `setCachedData(d, set)`, a read on the same day returns `d` and changes nothing (for a non-empty `d`) |
| `MtgJsonService.OtherDayEvicts` | src/api/mtgJsonService.js:25-31 | once the day has changed, that read returns `null` and leaves the store it was written to, minus the set's two keys |
| `MtgJsonService.OtherSetUnaffected` | src/api/mtgJsonService.js:44-45 | writing one set does not change what any other set reads |
| `MtgJsonService.EntryKeysAreCacheKeys` | src/api/mtgJsonService.js:94 | both keys of every set start with a prefix that `clearCache` removes |
| `MtgJsonService.ClearIsFinal` | src/api/mtgJsonService.js:90-97 | a second `clearCache` changes nothing; afterwards no set reads a payload, and the status has neither `hasCache` nor `isValid` |
| `MtgJsonService.StoredSetIsListed` | src/api/mtgJsonService.js:105-118 | a set written by `setCachedData` is in `cachedSets`, with `hasCache` and `isValid` set |
| `MtgJsonService.CacheHitSkipsNetwork` | src/api/mtgJsonService.js:56-60 | on a cache hit, `fetchMTGData` returns the cached payload whatever the network would answer, and the store is unchanged |
| `MtgJsonService.FetchedPayloadIsCached` | src/api/mtgJsonService.js:74-80 | on a miss, a successful fetch returns the payload and stores it under today's date; when the payload and the date string are non-empty, a read on the same day returns it |
| `MtgJsonService.FailedFetchWritesNothing` | src/api/mtgJsonService.js:65-84 | on a miss, a rejected fetch, a non-ok status or a failed `json()` throws an error naming the set and its URL; the store is what the read left, and that is part of the original store |
| `CardListInput.HandleSubmit` | src/components/CardListInput.jsx:7-18 | nothing is submitted exactly when the text is blank; otherwise the submitted list is the card entries and is never empty |
| `CardListInput.CardEntries` | src/components/CardListInput.jsx:11-14 | the `split`/`map(trim)`/`filter` chain: no entry is empty, and there are at most as many entries as lines; characterised by `KeptLines` and `EntriesAreTrimmedLines` |
| `CardListInput.CountNonBlank` | src/components/CardListInput.jsx:48 | the counter's filter: at most one per line, and zero exactly when every line trims to the empty string |
| `CardListInput.CardsEntered` | src/components/CardListInput.jsx:48 | "Cards entered" equals the number of entries the submit chain produces |
| `CardListInput.KeptLines` | src/components/CardListInput.jsx:11-14 | entry `i` is line `kept[i]` trimmed; `kept` is strictly increasing; every line that is not blank is kept. So the entries are the non-empty trimmed lines, in line order |
| `CardListInput.EntriesAreTrimmedLines` | src/components/CardListInput.jsx:11-14 | every entry is non-empty, has no white space at either end and holds no line break |
| `CardListInput.CountMatchesEntries` | src/components/CardListInput.jsx:48 | the counter's filter counts exactly the entries that the submit pipeline keeps |
| `CardListInput.CounterMatchesSubmission` | src/components/CardListInput.jsx:9-16 | "Cards entered" equals the length of the submitted list, and it is zero exactly when nothing would be submitted |
| `CardListInput.NonBlankTextHasEntry` | src/components/CardListInput.jsx:9-14 | text that is not blank yields at least one entry |
| `CardListInput.NonBlankLineMakesTextNonBlank` | src/components/CardListInput.jsx:48 | if some line is not blank, then the text is not blank |
| `CardResults.NameMatchesIgnoringCase` | src/components/CardResults.jsx:22 | a card name matches the request exactly when both have the same length and agree at every position up to ASCII case |
| `CardResults.FindCard` | src/components/CardResults.jsx:21-23 | `find` returns the first card, in array order, whose lower-cased name equals the lower-cased request; it returns `undefined` iff no card matches |
| `CardResults.LookupSet` | src/components/CardResults.jsx:17 | `mtgData[setCode]` is the file loaded under exactly that key, and nothing when no key equals it |
| `CardResults.SearchAllSets` | src/components/CardResults.jsx:27-35 | the fallback returns the first match of the first set, in load order, that holds a match; sets without `data.cards` are skipped; nothing iff no set holds a match |
| `CardResults.GetCardInfo` | src/components/CardResults.jsx:8-38 | `null` with no data or no sets. In the set branch: the first match in that set, or `undefined` if it has none. Otherwise: the first match of the first matching set, or `null`. A returned card's name always matches the request, ignoring case |
| `CardResults.PlainLineSearchesAllSets` | src/components/CardResults.jsx:13-14 | a plain string has no set code, so its lookup is always the search over all sets |
| `CardResults.SetBranchIgnoresOtherSets` | src/components/CardResults.jsx:17-24 | in the set branch, no other set is searched: the other loaded sets cannot change the answer |
| `CardResults.SetCodeIsCaseSensitive` | src/components/CardResults.jsx:17 | the set code is an exact key: `"LEA"` does not select a set loaded as `"lea"` and falls back to the search over all sets |
| `CardResults.SetCodeIsExactKey` | src/components/CardResults.jsx:17 | for every request whose set code is not exactly a loaded key, the lookup is the search over all sets |
| `CardResults.SetLabel` | src/components/CardResults.jsx:53 | a label is shown exactly when the request has a non-empty set code; it is the code upper-cased: the code's length, no lower-case letter |
| `CardResults.ResultRows` | src/components/CardResults.jsx:4-6 | nothing for a missing or empty list; otherwise one row per card, in input order, with its index, its name, its upper-cased set-code label and its lookup result |

## Left out

- Malformed stored JSON: payloads are held as their JSON text, and `JSON.stringify`/`JSON.parse` are the identity. So the uncaught exception from `JSON.parse` on malformed stored text (src/api/mtgJsonService.js:34) is not modelled.
- FetchMTGData/Fetch: `fetchMTGData` tests the parsed value with `if (cachedData)` (src/api/mtgJsonService.js:57); `Fetch` tests only that a payload was read (`cached.Some?`). Payloads are held as their JSON text, so a stored text whose parsed value is falsy (`null`, `false`, `0`, `""`) is returned from the cache, where JavaScript would fetch again. `CachedPayload` itself is exact: `getCachedData` tests the stored string, which is truthy exactly when non-empty.
- FetchMTGData/Fetch: the call is modelled as one atomic step from the cache read to the write. In JavaScript other code can change `localStorage` while `await fetch(url)` (src/api/mtgJsonService.js:66) and `await response.json()` (:74) are pending. Such changes are not modelled: a cache cleared or a second `fetchMTGData` run in that window is not captured, and the payload is then written into whatever store exists at that moment, not into `AfterRead` of the store read at the start.
- Storage quota errors: `setItem` throwing inside `fetchMTGData`'s `try` is not modelled. The store always accepts a write.
- Logging, `debugger` and message text: the `console` calls and `debugger` statements are left out. The thrown error is a value naming the set, the URL and the cause (an HTTP status or a message), not the formatted string.
- The clock and the network: `new Date().toDateString()` is the parameter `today`, and `fetch`/`response.json()` are the parameter `outcome`. The HTTP request itself is not modelled. `fetchMTGData` reads the clock twice, as the next line says.
- FetchMTGData/Fetch: JavaScript reads the clock twice, once in `isCacheValid` (src/api/mtgJsonService.js:16, through :56) and again in `setCachedData` (:43) after `fetch` and `response.json()` have been awaited; the model uses one `today` for both. A fetch that completes after midnight is stamped with the new day in JavaScript and with the day of the cache read in the model.
- GetCacheStatus: `cachedSets` is a set, not an array. The order of `Object.keys(localStorage)` and any duplicate set names are not modelled. `hasCache` does not depend on either.
- ClearCache: the keys are visited in an arbitrary order, since the result does not depend on the order.
- ToLowerCase/ToUpperCase/GetCardInfo: `toLowerCase` and `toUpperCase` are modelled on ASCII letters only. Other Unicode case mappings and JavaScript's UTF-16 code units are not modelled.
- Loaded sets are an ordered sequence of `(setCode, file)` pairs that stands for the object's key order. JavaScript's rule that integer-like keys come first is not modelled. A JavaScript object cannot hold a key twice; when the sequence does, `LookupSet` takes the first pair.
- Inherited object properties: `mtgData[setCode]` for a name such as `toString` reaches the object prototype. That value has no `data.cards`, so the lookup falls back to the search over all sets, exactly as the model does when the key is absent.
- React and markup: the state of `App.jsx`, `CacheStatus.jsx`, the textarea and `handleClear` (which only empties the text), and the JSX of a row beyond its key, name, set label and lookup result. `App.jsx` calls `fetchMTGData()` with no set, so the keys end in `undefined`; in the model this is just one more set string.
