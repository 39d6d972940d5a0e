/** `ContactsService`: the contact list behind a 30-minute time-boxed cache
    entry, the directory search, and cache clearing. The People API is an
    oracle: a `Response` says whether the request threw and, if not, what
    list field the reply carried. */
module ContactsService {
  import opened Wrappers
  import opened Contacts
  import opened People
  import opened Calls
  import opened Storage
  import opened Seqs
  import Transform

  const CACHE_KEY := "google-contacts"

  /** Thirty minutes, in milliseconds. */
  const CACHE_EXPIRY: int := 30 * 60 * 1000

  const PERSON_FIELDS := "names,emailAddresses,phoneNumbers,photos,addresses,organizations,urls,birthdays"

  const LIST_REQUEST := ListRequest("people/me", PERSON_FIELDS, 1000, "FIRST_NAME_ASCENDING")

  const FETCH_ERROR := "Failed to fetch contacts"

  const SEARCH_ERROR := "Failed to search contacts"

  /** A directory reply: the call threw, or it answered with a list field
      that may be missing. */
  datatype Response<T> = RequestFailed | Responded(items: Option<seq<T>>)

  /** What a service call returns, the cache afterwards, and the calls made. */
  datatype ServiceOutcome = ServiceOutcome(result: Result<seq<Contact>, string>, store: Store, calls: seq<Call>)

  /** The cache entry is younger than the window at `now` (strictly). */
  predicate IsFresh(entry: CacheEntry, now: int) {
    now - entry.timestamp < CACHE_EXPIRY
  }

  /** The contact list the cache can serve at `now`, if any: the entry must
      be present, parse, and be fresh. */
  function CachedContacts(store: Store, now: int): (r: Option<seq<Contact>>)
    ensures r.Some? <==>
      && Read(store, CACHE_KEY).Some?
      && ParseEntry(store[CACHE_KEY]).Some?
      && now - ParseEntry(store[CACHE_KEY]).value.timestamp < CACHE_EXPIRY
    ensures r.Some? ==> r.value == ParseEntry(store[CACHE_KEY]).value.contacts
  {
    match Read(store, CACHE_KEY)
    case None => None
    case Some(blob) =>
      match ParseEntry(blob)
      case None => None
      case Some(entry) => if IsFresh(entry, now) then Some(entry.contacts) else None
  }

  /** A `getContacts(useCache)` call would be answered from the cache. */
  predicate CacheHit(store: Store, useCache: bool, now: int) {
    useCache && CachedContacts(store, now).Some?
  }

  /** `getContacts(useCache)`, with the cache read at `now` and a fresh
      entry stamped `stampTime`. A hit returns the cached list with no call
      and no write; anything else (no entry, unparseable, stale, caching
      off) lists the connections once. A failed list leaves the cache alone
      and reports `FETCH_ERROR`; a successful one returns the normalised
      records and, when caching, replaces the entry wholesale. */
  function GetContacts(store: Store, accessToken: string, useCache: bool, now: int, stampTime: int,
                       response: Response<Person>): (o: ServiceOutcome)
    ensures CacheHit(store, useCache, now) ==>
      o.calls == [] && o.store == store &&
      o.result == Success(ParseEntry(store[CACHE_KEY]).value.contacts)
    ensures !CacheHit(store, useCache, now) ==> o.calls == [ListConnections(accessToken, LIST_REQUEST)]
    ensures !CacheHit(store, useCache, now) && response.RequestFailed? ==>
      o.result == Failure(FETCH_ERROR) && o.store == store
    ensures !CacheHit(store, useCache, now) && response.Responded? ==>
      && o.result == Success(Transform.TransformContacts(response.items.GetOr([])))
      && o.store == if useCache then store[CACHE_KEY := EntryJson(CacheEntry(o.result.value, stampTime))] else store
    ensures !useCache ==> o.store == store
  {
    if useCache && CachedContacts(store, now).Some? then
      ServiceOutcome(Success(CachedContacts(store, now).value), store, [])
    else
      var calls := [ListConnections(accessToken, LIST_REQUEST)];
      match response
      case RequestFailed => ServiceOutcome(Failure(FETCH_ERROR), store, calls)
      case Responded(items) =>
        var contacts := Transform.TransformContacts(items.GetOr([]));
        var store' := if useCache then store[CACHE_KEY := EntryJson(CacheEntry(contacts, stampTime))] else store;
        ServiceOutcome(Success(contacts), store', calls)
  }

  /** `clearCache`: the service entry is removed and every other key kept. */
  function ClearCache(store: Store): (s: Store)
    ensures CACHE_KEY !in s
    ensures forall k :: k != CACHE_KEY ==> (k in s <==> k in store)
    ensures forall k :: k in s ==> s[k] == store[k]
  {
    store - {CACHE_KEY}
  }

  /** The persons of a search reply, without the missing ones, in order. */
  function PresentPersons(results: seq<SearchResult>): (persons: seq<Person>)
    ensures |persons| <= |results|
    ensures forall p :: p in persons <==> SearchResult(Some(p)) in results
    ensures Map((p: Person) => Some(p), persons) == Filter((o: Option<Person>) => o.Some?, Map((r: SearchResult) => r.person, results))
  {
    if |results| == 0 then []
    else
      var init := results[..|results| - 1];
      var last := results[|results| - 1];
      assert Map((r: SearchResult) => r.person, results)[..|init|] == Map((r: SearchResult) => r.person, init);
      PresentPersons(init) + (if last.person.Some? then [last.person.value] else [])
  }

  const SEARCH_PAGE_SIZE := 50

  /** What a search returns and the calls it made. */
  datatype ServiceSearch = ServiceSearch(result: Result<seq<Contact>, string>, calls: seq<Call>)

  /** `searchContacts(query)`: one directory search, never the cache; the
      hits' persons that are present are normalised, a thrown request
      reports `SEARCH_ERROR`. */
  function SearchContacts(accessToken: string, query: string, response: Response<SearchResult>): (o: ServiceSearch)
    ensures o.calls == [SearchPeople(accessToken, SearchRequest(query, PERSON_FIELDS, SEARCH_PAGE_SIZE))]
    ensures response.RequestFailed? ==> o.result == Failure(SEARCH_ERROR)
    ensures response.Responded? ==> o.result == Success(Transform.TransformContacts(PresentPersons(response.items.GetOr([]))))
  {
    var calls := [SearchPeople(accessToken, SearchRequest(query, PERSON_FIELDS, SEARCH_PAGE_SIZE))];
    match response
    case RequestFailed => ServiceSearch(Failure(SEARCH_ERROR), calls)
    case Responded(items) => ServiceSearch(Success(Transform.TransformContacts(PresentPersons(items.GetOr([])))), calls)
  }

  /** Cache round trip: after a fetch with caching on, a call within the
      window returns the same list with no call and no write, whatever the
      directory would have answered. */
  lemma ReadBackWithinWindow(store: Store, token: string, now: int, stampTime: int, people: Option<seq<Person>>,
                             token2: string, later: int, stamp2: int, response2: Response<Person>)
    requires !CacheHit(store, true, now)
    requires later - stampTime < CACHE_EXPIRY
    ensures var first := GetContacts(store, token, true, now, stampTime, Responded(people));
      GetContacts(first.store, token2, true, later, stamp2, response2) == ServiceOutcome(first.result, first.store, [])
  {
  }

  /** The window is strict: an entry exactly thirty minutes old is stale
      and the connections are listed again. */
  lemma StaleAtWindowBoundary(store: Store, entry: CacheEntry, token: string, stampTime: int, response: Response<Person>)
    requires CACHE_KEY in store && store[CACHE_KEY] == EntryJson(entry)
    ensures GetContacts(store, token, true, entry.timestamp + CACHE_EXPIRY, stampTime, response).calls
      == [ListConnections(token, LIST_REQUEST)]
    ensures GetContacts(store, token, true, entry.timestamp + CACHE_EXPIRY - 1, stampTime, response).calls == []
  {
  }

  /** Two calls with caching on, the second within the window of the
      first's stamp, list the connections at most once when the first
      succeeded. */
  lemma AtMostOneFetchWithinWindow(store: Store, token: string, now: int, stampTime: int, people: Option<seq<Person>>,
                                   later: int, stamp2: int, response2: Response<Person>)
    requires later - stampTime < CACHE_EXPIRY
    ensures var first := GetContacts(store, token, true, now, stampTime, Responded(people));
      var second := GetContacts(first.store, token, true, later, stamp2, response2);
      |first.calls| + |second.calls| <= 1 && (first.calls != [] ==> second.result == first.result)
  {
  }

  /** After `clearCache` the next call lists the connections. */
  lemma ClearCacheForcesFetch(store: Store, token: string, useCache: bool, now: int, stampTime: int, response: Response<Person>)
    ensures GetContacts(ClearCache(store), token, useCache, now, stampTime, response).calls
      == [ListConnections(token, LIST_REQUEST)]
  {
  }

  /** An entry that does not parse never surfaces an error of its own: the
      call behaves exactly as if there were no entry at all. */
  lemma UnparseableEntryFallsThrough(store: Store, token: string, now: int, stampTime: int, response: Response<Person>)
    requires CACHE_KEY in store && ParseEntry(store[CACHE_KEY]).None?
    ensures var o := GetContacts(store, token, true, now, stampTime, response);
      var withoutEntry := GetContacts(store - {CACHE_KEY}, token, true, now, stampTime, response);
      o.result == withoutEntry.result && o.calls == withoutEntry.calls
  {
  }
}
