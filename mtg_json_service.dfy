/**
 * The daily, per-set cache over the browser's `localStorage` and the
 * cache-first fetch of MTGJSON set files.
 *
 * The key/value store is a `LocalStorage` object whose `items` map the
 * service methods change in place. Every read-only operation of the service
 * (`IsCacheValid`, `GetCacheStatus`) and the effect of every changing one is
 * also given as a function of the store's contents, so that the properties of
 * the cache are lemmas about those functions. The clock (`new Date()
 * .toDateString()`) is the parameter `today`; the network is the parameter
 * `outcome`.
 */
module MtgJsonService {
  import opened Wrappers
  import opened JsString

  const CACHE_KEY: string := "mtgjson_data"
  const CACHE_DATE_KEY: string := "mtgjson_cache_date"
  const API_BASE_URL: string := "https://mtgjson.com/api/v5"

  /**
   * A JSON payload, held as its JSON text: `JSON.stringify` and `JSON.parse`
   * are taken to be each other's inverse, so both are the identity here.
   */
  type Json = string

  /** The browser's key/value store: string keys to string values. */
  class LocalStorage {
    var items: map<string, string>

    constructor (initial: map<string, string>)
      ensures items == initial
    {
      items := initial;
    }

    method SetItem(key: string, value: string)
      modifies this
      ensures items == old(items)[key := value]
    {
      items := items[key := value];
    }

    method RemoveItem(key: string)
      modifies this
      ensures items == old(items) - {key}
    {
      items := items - {key};
    }
  }

  /** `${CACHE_KEY}_${set}`: where a set's payload is kept. */
  function DataKey(setCode: string): string {
    CACHE_KEY + "_" + setCode
  }

  /** `${CACHE_DATE_KEY}_${set}`: where the day a set was cached is kept. */
  function DateKey(setCode: string): string {
    CACHE_DATE_KEY + "_" + setCode
  }

  /**
   * No data key is ever a date key, and each kind of key names one set only:
   * the two entries of different sets never share a key.
   */
  lemma KeysNeverCollide(a: string, b: string)
    ensures DataKey(a) != DateKey(b)
    ensures DataKey(a) == DataKey(b) ==> a == b
    ensures DateKey(a) == DateKey(b) ==> a == b
  {
    assert DataKey(a)[8] == 'd' && DateKey(b)[8] == 'c';
    assert DataKey(a)[13..] == a && DataKey(b)[13..] == b;
    assert DateKey(a)[19..] == a && DateKey(b)[19..] == b;
  }

  /**
   * `isCacheValid`: the set's date entry is present, non-empty (a falsy date
   * string counts as missing) and is today's date.
   */
  function IsCacheValid(m: map<string, string>, setCode: string, today: string): (valid: bool)
    ensures valid <==> DateKey(setCode) in m && m[DateKey(setCode)] == today && today != ""
  {
    DateKey(setCode) in m && m[DateKey(setCode)] != "" && m[DateKey(setCode)] == today
  }

  /**
   * What `getCachedData` returns: the stored payload while the entry is
   * valid and its text is non-empty, and `null` otherwise.
   */
  function CachedPayload(m: map<string, string>, setCode: string, today: string): (r: Option<Json>)
    ensures r.Some? <==> IsCacheValid(m, setCode, today) && DataKey(setCode) in m && m[DataKey(setCode)] != ""
    ensures r.Some? ==> r.value == m[DataKey(setCode)]
  {
    if !IsCacheValid(m, setCode, today) then None
    else if DataKey(setCode) in m && m[DataKey(setCode)] != "" then Some(m[DataKey(setCode)])
    else None
  }

  /**
   * The store after `getCachedData`: unchanged while the entry is valid;
   * otherwise exactly the set's two keys are gone and every other entry is
   * kept as it was.
   */
  function AfterRead(m: map<string, string>, setCode: string, today: string): (m': map<string, string>)
    ensures IsCacheValid(m, setCode, today) ==> m' == m
    ensures !IsCacheValid(m, setCode, today) ==>
      && m'.Keys == m.Keys - {DataKey(setCode), DateKey(setCode)}
      && forall k :: k in m' ==> m'[k] == m[k]
  {
    if IsCacheValid(m, setCode, today) then m else m - {DataKey(setCode), DateKey(setCode)}
  }

  /**
   * The store after `setCachedData(data, set)`: the set's payload and today's
   * date are written under its two keys, and nothing else changes.
   */
  function Stored(m: map<string, string>, data: Json, setCode: string, today: string): (m': map<string, string>)
    ensures m'.Keys == m.Keys + {DataKey(setCode), DateKey(setCode)}
    ensures m'[DataKey(setCode)] == data && m'[DateKey(setCode)] == today
    ensures forall k :: k in m && k != DataKey(setCode) && k != DateKey(setCode) ==> m'[k] == m[k]
  {
    KeysNeverCollide(setCode, setCode);
    m[DataKey(setCode) := data][DateKey(setCode) := today]
  }

  /** A key `clearCache` removes: it starts with either cache prefix. */
  predicate IsCacheKey(key: string) {
    StartsWith(key, CACHE_KEY) || StartsWith(key, CACHE_DATE_KEY)
  }

  /** The store after `clearCache`: every cache key is gone, every other entry is kept. */
  function Cleared(m: map<string, string>): (m': map<string, string>)
    ensures forall k :: k in m' <==> k in m && !IsCacheKey(k)
    ensures forall k :: k in m' ==> m'[k] == m[k]
  {
    map k | k in m && !IsCacheKey(k) :: m[k]
  }

  /** The object `getCacheStatus` returns. */
  datatype CacheStatus = CacheStatus(hasCache: bool, isValid: bool, cachedSets: set<string>, currentDate: string)

  /** The set a payload key belongs to: `key.replace(`${CACHE_KEY}_`, '')`. */
  function SetOfKey(key: string): (setCode: string)
    ensures StartsWith(key, CACHE_KEY + "_") ==> key == DataKey(setCode)
  {
    var prefix := CACHE_KEY + "_";
    if StartsWith(key, prefix) then
      assert key == prefix + key[|prefix|..];
      ReplaceFirstOfPrefix(prefix, key[|prefix|..]);
      ReplaceFirst(key, prefix, "")
    else ReplaceFirst(key, prefix, "")
  }

  /**
   * `getCacheStatus`, which only reads the store: some key starts with the
   * payload prefix exactly when `hasCache`; `isValid` when the date entry of
   * one of the listed sets holds today's date; every payload key's set is
   * listed.
   */
  function GetCacheStatus(m: map<string, string>, today: string): (status: CacheStatus)
    ensures status.hasCache <==> exists k :: k in m && StartsWith(k, CACHE_KEY)
    ensures forall k :: k in m && StartsWith(k, CACHE_KEY) ==> SetOfKey(k) in status.cachedSets
    ensures forall s :: s in status.cachedSets ==> exists k :: k in m && StartsWith(k, CACHE_KEY) && SetOfKey(k) == s
    ensures status.isValid <==>
      exists k :: k in m && StartsWith(k, CACHE_KEY) && DateKey(SetOfKey(k)) in m && m[DateKey(SetOfKey(k))] == today
    ensures status.currentDate == today
  {
    var cachedSets := set k | k in m && StartsWith(k, CACHE_KEY) :: SetOfKey(k);
    var isValid := exists s :: s in cachedSets && DateKey(s) in m && m[DateKey(s)] == today;
    assert |cachedSets| > 0 <==> exists k :: k in m && StartsWith(k, CACHE_KEY) by {
      if k :| k in m && StartsWith(k, CACHE_KEY) {
        assert SetOfKey(k) in cachedSets;
      }
    }
    CacheStatus(|cachedSets| > 0, isValid, cachedSets, today)
  }

  /** Why `fetchMTGData` threw: a non-ok HTTP status, or an error from `fetch` or `response.json()`. */
  datatype Cause = HttpStatus(status: int) | Thrown(message: string)

  /** The error `fetchMTGData` rethrows: `Failed to fetch ${set} from ${url} : ...`. */
  datatype FetchError = FetchFailed(setCode: string, url: string, cause: Cause)

  /**
   * What the network gives for one request: `fetch` rejects with a message, or
   * it resolves to a response whose `json()` yields the payload or fails.
   */
  datatype FetchOutcome =
    | Rejected(message: string)
    | Responded(ok: bool, status: int, json: Result<Json, string>)

  /** `${API_BASE_URL}/${set}.json` */
  function SetUrl(setCode: string): string {
    API_BASE_URL + "/" + setCode + ".json"
  }

  /** What `fetchMTGData` returns or throws, and the store it leaves. */
  datatype Fetched = Fetched(result: Result<Json, FetchError>, storage: map<string, string>)

  /**
   * `fetchMTGData(set)` as a function of the store and the network's answer:
   * read the cache (which may evict), return a cached payload as it is,
   * otherwise fetch, cache a successful payload under today's date and
   * return it, or fail without writing anything.
   */
  function Fetch(m: map<string, string>, setCode: string, today: string, outcome: FetchOutcome): (f: Fetched)
    ensures f.result.Ok? <==>
      CachedPayload(m, setCode, today).Some? || (outcome.Responded? && outcome.ok && outcome.json.Ok?)
    ensures f.result.Err? ==> f.result.error.setCode == setCode && f.result.error.url == SetUrl(setCode)
    ensures f.result.Err? ==> f.storage == AfterRead(m, setCode, today)
  {
    var cached := CachedPayload(m, setCode, today);
    var afterRead := AfterRead(m, setCode, today);
    var url := SetUrl(setCode);
    if cached.Some? then Fetched(Ok(cached.value), afterRead)
    else match outcome
      case Rejected(message) => Fetched(Err(FetchFailed(setCode, url, Thrown(message))), afterRead)
      case Responded(ok, status, json) =>
        if !ok then Fetched(Err(FetchFailed(setCode, url, HttpStatus(status))), afterRead)
        else match json
          case Err(message) => Fetched(Err(FetchFailed(setCode, url, Thrown(message))), afterRead)
          case Ok(data) => Fetched(Ok(data), Stored(afterRead, data, setCode, today))
  }

  // ---------------------------------------------------------------------
  // The service's operations on the store.
  // ---------------------------------------------------------------------

  method GetCachedData(storage: LocalStorage, setCode: string, today: string) returns (data: Option<Json>)
    modifies storage
    ensures data == CachedPayload(old(storage.items), setCode, today)
    ensures storage.items == AfterRead(old(storage.items), setCode, today)
  {
    if !IsCacheValid(storage.items, setCode, today) {
      storage.RemoveItem(DataKey(setCode));
      storage.RemoveItem(DateKey(setCode));
      return None;
    }
    var key := DataKey(setCode);
    data := if key in storage.items && storage.items[key] != "" then Some(storage.items[key]) else None;
  }

  method SetCachedData(storage: LocalStorage, data: Json, setCode: string, today: string)
    modifies storage
    ensures storage.items == Stored(old(storage.items), data, setCode, today)
  {
    storage.SetItem(DataKey(setCode), data);
    storage.SetItem(DateKey(setCode), today);
  }

  method FetchMTGData(storage: LocalStorage, setCode: string, today: string, outcome: FetchOutcome)
    returns (result: Result<Json, FetchError>)
    modifies storage
    ensures Fetched(result, storage.items) == Fetch(old(storage.items), setCode, today, outcome)
  {
    var cachedData := GetCachedData(storage, setCode, today);
    if cachedData.Some? {
      return Ok(cachedData.value);
    }
    var url := SetUrl(setCode);
    match outcome
    case Rejected(message) =>
      result := Err(FetchFailed(setCode, url, Thrown(message)));
    case Responded(ok, status, json) =>
      if !ok {
        result := Err(FetchFailed(setCode, url, HttpStatus(status)));
      } else if json.Err? {
        result := Err(FetchFailed(setCode, url, Thrown(json.error)));
      } else {
        SetCachedData(storage, json.value, setCode, today);
        result := Ok(json.value);
      }
  }

  method ClearCache(storage: LocalStorage)
    modifies storage
    ensures storage.items == Cleared(old(storage.items))
  {
    var keys := storage.items.Keys;
    var pending := keys;
    while pending != {}
      invariant keys == old(storage.items).Keys && pending <= keys
      invariant forall k :: k in storage.items <==> k in old(storage.items) && (k in pending || !IsCacheKey(k))
      invariant forall k :: k in storage.items ==> storage.items[k] == old(storage.items)[k]
      decreases pending
    {
      var key :| key in pending;
      if StartsWith(key, CACHE_KEY) || StartsWith(key, CACHE_DATE_KEY) {
        storage.RemoveItem(key);
      }
      pending := pending - {key};
    }
  }

  // ---------------------------------------------------------------------
  // Properties of the cache.
  // ---------------------------------------------------------------------

  /** Written today and read today: the payload comes back and the store is left as it is. */
  lemma SameDayRoundTrip(m: map<string, string>, data: Json, setCode: string, today: string)
    requires data != "" && today != ""
    ensures CachedPayload(Stored(m, data, setCode, today), setCode, today) == Some(data)
    ensures AfterRead(Stored(m, data, setCode, today), setCode, today) == Stored(m, data, setCode, today)
  {
  }

  /**
   * Written one day and read on another: nothing comes back, and the read
   * leaves the store as it was before the write, minus the set's entry.
   */
  lemma OtherDayEvicts(m: map<string, string>, data: Json, setCode: string, written: string, today: string)
    requires written != today
    ensures CachedPayload(Stored(m, data, setCode, written), setCode, today) == None
    ensures AfterRead(Stored(m, data, setCode, written), setCode, today) == m - {DataKey(setCode), DateKey(setCode)}
  {
  }

  /** Writing one set's entry does not change what another set reads. */
  lemma OtherSetUnaffected(m: map<string, string>, data: Json, setCode: string, other: string, today: string)
    requires other != setCode
    ensures CachedPayload(Stored(m, data, setCode, today), other, today) == CachedPayload(m, other, today)
  {
    KeysNeverCollide(setCode, other);
    KeysNeverCollide(other, setCode);
  }

  /** Every key `clearCache` must remove starts with the payload or the date prefix, and those of a set's entry do. */
  lemma EntryKeysAreCacheKeys(setCode: string)
    ensures IsCacheKey(DataKey(setCode)) && IsCacheKey(DateKey(setCode))
    ensures StartsWith(DataKey(setCode), CACHE_KEY)
  {
  }

  /**
   * After `clearCache`, no set reads a payload, the status reports no cache
   * and no valid set, and a second `clearCache` changes nothing.
   */
  lemma ClearIsFinal(m: map<string, string>, setCode: string, today: string)
    ensures Cleared(Cleared(m)) == Cleared(m)
    ensures CachedPayload(Cleared(m), setCode, today) == None
    ensures !GetCacheStatus(Cleared(m), today).hasCache && !GetCacheStatus(Cleared(m), today).isValid
  {
  }

  /** A set written by `setCachedData` is listed by `getCacheStatus`, which then reports a valid cache. */
  lemma StoredSetIsListed(m: map<string, string>, data: Json, setCode: string, today: string)
    ensures var status := GetCacheStatus(Stored(m, data, setCode, today), today);
      setCode in status.cachedSets && status.hasCache && status.isValid
  {
    var m' := Stored(m, data, setCode, today);
    EntryKeysAreCacheKeys(setCode);
    ReplaceFirstOfPrefix(CACHE_KEY + "_", setCode);
    assert DataKey(setCode) == (CACHE_KEY + "_") + setCode;
    assert SetOfKey(DataKey(setCode)) == setCode;
    assert DataKey(setCode) in m';
  }

  /** A payload found in the cache is returned whatever the network would have said, and the store is unchanged. */
  lemma CacheHitSkipsNetwork(m: map<string, string>, setCode: string, today: string, outcome: FetchOutcome, other: FetchOutcome)
    requires CachedPayload(m, setCode, today).Some?
    ensures Fetch(m, setCode, today, outcome) == Fetch(m, setCode, today, other)
    ensures Fetch(m, setCode, today, outcome) == Fetched(Ok(m[DataKey(setCode)]), m)
  {
  }

  /**
   * On a miss, a successful fetch returns the payload and caches it under
   * today's date, so that the next read the same day returns it; only the
   * set's two keys differ from the store the read left.
   */
  lemma FetchedPayloadIsCached(m: map<string, string>, setCode: string, today: string, status: int, data: Json)
    requires CachedPayload(m, setCode, today).None?
    ensures var f := Fetch(m, setCode, today, Responded(true, status, Ok(data)));
      && f.result == Ok(data)
      && f.storage == Stored(AfterRead(m, setCode, today), data, setCode, today)
      && (data != "" && today != "" ==> CachedPayload(f.storage, setCode, today) == Some(data))
  {
  }

  /**
   * On a miss, a failed fetch (rejected, non-ok status or unreadable body)
   * throws an error naming the set and its URL and writes nothing: the store
   * is what the read left, a part of the original.
   */
  lemma FailedFetchWritesNothing(m: map<string, string>, setCode: string, today: string, outcome: FetchOutcome)
    requires CachedPayload(m, setCode, today).None?
    requires outcome.Rejected? || !outcome.ok || outcome.json.Err?
    ensures var f := Fetch(m, setCode, today, outcome);
      && f.result.Err? && f.result.error.setCode == setCode && f.result.error.url == SetUrl(setCode)
      && f.storage == AfterRead(m, setCode, today)
      && f.storage.Keys <= m.Keys
      && forall k :: k in f.storage ==> f.storage[k] == m[k]
  {
  }
}
