# Google Contacts search extension — Dafny model

A model of the sequential core of a launcher extension that searches a
user's Google contacts: the normalisation of People API person records into
contacts, the two contact caches (the service's 30-minute cache entry and the
search command's untimed entry) and how they compose, the local search filter
and list subtitle, and the token decision of `authorize()` over the PKCE
client's stored token set.

Modules, one per source concern:

- `Wrappers` — `Option`, `Result`, `Outcome`.
- `Text` — JavaScript truthiness of optional strings, ASCII `toLowerCase`,
  `includes`, decimal rendering of integers with its inverse, `split`.
- `Seqs` — order-preserving `filter` and `map`, the subsequence relation.
- `Contacts` — the contact shape of `src/types.ts` (field `type` is `kind`).
- `People` — provider person records; every field optional.
- `Transform` — `transformContacts` and the per-field normalisers.
- `Storage` — the shared key-value cache and `JSON.parse` of its two shapes.
- `Calls` — the trace of calls into the PKCE client and the People API.
- `ContactsService` — `getContacts`, `searchContacts`, `clearCache`.
- `GoogleAuth` — `getOAuthClient`, `authorize`, the scope and redirect constants.
- `SearchCommand` — the search-text effect, `loadContacts`, the item subtitle.

Collaborators are explicit inputs: the clock is an integer in milliseconds
(`now` when the cache is read, `stampTime` when a fresh entry is stamped, as
the source reads the clock twice), the People API is a `Response` oracle
(threw, or answered with a list field that may be missing), and the token
refresh, the authorization request, the interactive consent and the code
exchange are `AuthOracles`. Each operation returns the calls it made, so
"no network call" and "refresh before read-back" are statements about that
trace. Both caches live in one store, since both `new Cache()` calls use the
default namespace; their keys are `"google-contacts"` and `"contacts"`.

Behaviours of the code the model keeps:

- An expired token without a refresh token is returned as it is, stale.
- A refresh that throws propagates to the caller; the stored tokens are
  neither cleared nor replaced by the authorization flow.
- An unauthorized directory reply is not retried.
- The search command's own cache entry has no timestamp and never expires,
  and an entry there that does not parse ends in the failure toast rather
  than in a fresh load.
- A forced refresh bypasses only the command's entry; the service is still
  called with its cache enabled.

## Model

| member | source | states |
|---|---|---|
| Text.Includes | src/search-contacts.tsx:43-45 | `includes` holds exactly when the needle occurs at some position of the string |
| Text.IntToDecimalRoundTrip | src/contacts-service.ts:124-128 | an integer rendered in a template literal is read back as the same integer |
| Text.ParseIntOnlyRendering | src/contacts-service.ts:124-128 | the rendering is canonical: the only text read back as an integer is that integer's own rendering, so no leading zero and no `-0` |
| Text.NonEmpty | src/contacts-service.ts:103-107 | an empty string becomes absent: the result is absent exactly when the part is missing or empty, and the part otherwise |
| Seqs.FilterCharacterised | src/contacts-service.ts:85 | a filter result is an order-preserving subsequence holding every satisfying element with its multiplicity and no other |
| Transform.ToEmail | src/contacts-service.ts:89-93 | a present value is copied, a missing one becomes `""`; the type is kept when non-empty and is `"unknown"` otherwise |
| Transform.ToPhoneNumber | src/contacts-service.ts:94-98 | same defaults as emails, for phone numbers |
| Transform.ToAddress | src/contacts-service.ts:99-108 | formatted value and type defaults as above; a missing or empty address part becomes absent, and a non-empty part is kept |
| Transform.ToOrganization | src/contacts-service.ts:109-114 | name defaults to `""`, type to `"unknown"`, the title is passed through unchanged |
| Transform.ToUrl | src/contacts-service.ts:115-119 | same defaults as emails, for urls |
| Transform.ToBirthday | src/contacts-service.ts:120-134 | the text is copied; the date is empty exactly when month or day is missing or zero, and otherwise is the `m/d[/y]` rendering that reads back to month, day and the year when it is non-zero |
| Transform.BirthdayDateRoundTrip | src/contacts-service.ts:122-129 | the date is `m/d`, with `/y` exactly when the year is non-zero: it reads back to month, day and that year |
| Transform.BirthdayWithoutYearExample | src/contacts-service.ts:122-129 | month 3 and day 14 with no year render as `3/14` |
| Transform.BirthdayWithYearExample | src/contacts-service.ts:122-129 | month 3, day 14 and year 1990 render as `3/14/1990` |
| Transform.ToContact | src/contacts-service.ts:86-136 | id is the resource name or `""`, name the first display name or `"Unknown"`, photo the first photo's url or absent; each list has the provider list's length and order (missing is empty) with elements normalised |
| Transform.TransformContacts | src/contacts-service.ts:83-137 | never more contacts than records |
| Transform.TransformKeepsNamedInOrder | src/contacts-service.ts:84-86 | the kept records are the named ones, in input order with their multiplicities, and the contacts are their normalisations |
| Transform.TransformKeepsEveryNamed | src/contacts-service.ts:85-86 | no named record is dropped |
| Transform.TransformOnlyNamed | src/contacts-service.ts:85-86 | every contact comes from a named record |
| Storage.Read | src/contacts-service.ts:19-20 | a cache value is used exactly when the key is present with non-empty text, and then it is the stored value |
| ContactsService.CachedContacts | src/contacts-service.ts:18-29 | the cached list is served exactly when the entry is present, parses, and is younger than 30 minutes at the time of reading; it is then the entry's list |
| ContactsService.GetContacts | src/contacts-service.ts:17-59 | a parseable entry younger than 30 minutes is returned with no call and no write when caching; otherwise one list call; failure reports "Failed to fetch contacts" and leaves the cache alone; success returns the normalised records and replaces the entry wholesale only when caching |
| ContactsService.ReadBackWithinWindow | src/contacts-service.ts:17-54 | after a fetch with caching on, a call within the window returns the same list with no call |
| ContactsService.StaleAtWindowBoundary | src/contacts-service.ts:17-29 | an entry exactly 30 minutes old is stale; one millisecond younger is served |
| ContactsService.AtMostOneFetchWithinWindow | src/contacts-service.ts:17-54 | two calls within the window of a successful fetch list the connections at most once |
| ContactsService.UnparseableEntryFallsThrough | src/contacts-service.ts:20-36 | an unparseable entry behaves exactly like no entry: it never raises |
| ContactsService.ClearCache | src/contacts-service.ts:78-81 | the service entry is removed and every other key kept |
| ContactsService.ClearCacheForcesFetch | src/contacts-service.ts:78-80 | after clearing, the next call lists the connections |
| ContactsService.PresentPersons | src/contacts-service.ts:69-71 | the search hits' persons without the missing ones, in order: a person is kept exactly when some hit carries it |
| ContactsService.SearchContacts | src/contacts-service.ts:61-76 | one search request of page size 50, never the cache; failure reports "Failed to search contacts" |
| GoogleAuth.AuthParams | src/google-auth.ts:35-39 | the authorization request targets the Google endpoint with scope exactly `contacts.readonly` |
| GoogleAuth.GetOAuthClient | src/google-auth.ts:12-20 | the client is built only when the process has none, with the fixed redirect target, and reused afterwards |
| GoogleAuth.StoredAccessToken | src/google-auth.ts:44 | the read-back is empty exactly when no token set with a non-empty access token is stored, and is that access token otherwise |
| GoogleAuth.Authorize | src/google-auth.ts:22-45 | a success returns what the store then holds; a failure leaves the store alone; a stored access token never starts the flow; no refresh unless the token is expired with a refresh token; no directory call |
| GoogleAuth.ValidTokenReturnedAsIs | src/google-auth.ts:26-32 | an unexpired stored token is returned with one store read and nothing else |
| GoogleAuth.ExpiredWithoutRefreshTokenReturnedStale | src/google-auth.ts:27-32 | an expired token without refresh token is returned stale, with no refresh and no flow |
| GoogleAuth.ExpiredWithRefreshTokenRefreshedOnce | src/google-auth.ts:28-30 | exactly one refresh; its result is stored before being read back; a thrown refresh propagates with no flow |
| GoogleAuth.MissingTokenRunsFlowInOrder | src/google-auth.ts:35-44 | request, consent, exchange, read-back, in that order; a thrown step ends the flow; the result is the stored token or `""` |
| GoogleAuth.ClientBuiltOnce | src/google-auth.ts:10-19 | over consecutive calls the client is built at most once, first, and only if the process had none |
| SearchCommand.Matches | src/search-contacts.tsx:42-47 | the empty search text matches every contact |
| SearchCommand.MatchesIgnoresCase | src/search-contacts.tsx:42-47 | a search text and its lower-cased form match the same contacts |
| SearchCommand.ApplySearchText | src/search-contacts.tsx:39-53 | with a search text, the shown list is an order-preserving subsequence of all contacts with exactly the matching ones; without one, all contacts are shown |
| SearchCommand.ShownIffMatching | src/search-contacts.tsx:42-47 | a contact is shown exactly when it is in the list and its name, an email or a phone contains the text, ignoring ASCII case |
| SearchCommand.Subtitle | src/search-contacts.tsx:113-124 | without a named first organisation, the first email or else the first phone; with one, the organisation label, then the separator and that email or phone when non-empty |
| SearchCommand.SubtitleMentionsOrganisation | src/search-contacts.tsx:119-120 | the subtitle contains the organisation name and its title when set |
| SearchCommand.SubtitleMentionsContactLine | src/search-contacts.tsx:118-123 | a non-empty primary email or phone is always in the subtitle |
| SearchCommand.LoadContacts | src/search-contacts.tsx:55-97 | loading always ends; an error keeps the lists and toasts; an entry under `"contacts"` is used without any call; only the two cache keys change |
| SearchCommand.UiCacheHitShowsCachedList | src/search-contacts.tsx:60-69 | a parseable `"contacts"` entry is shown with no authorization, no fetch, no write |
| SearchCommand.UiCacheNeverExpires | src/search-contacts.tsx:60-69 | while the `"contacts"` entry is used the outcome is independent of the clock |
| SearchCommand.UnparseableUiCacheIsError | src/search-contacts.tsx:60-93 | an unparseable `"contacts"` entry ends in the failure toast with no authorization and no fetch |
| SearchCommand.BypassAuthorizesThenAsksService | src/search-contacts.tsx:72-86 | otherwise `authorize` runs first and the service is asked with its cache enabled and the returned token |
| SearchCommand.BypassServedByServiceCache | src/search-contacts.tsx:79 | a forced or uncached load is still answered by a fresh service entry without a directory call |
| SearchCommand.LoadThenReloadFromUiCache | src/search-contacts.tsx:60-86 | a successful load with caching on makes the next unforced load show the same list with no call |

## Left out

- Rendering, React hooks and the order in which React re-runs effects: state updates are the fields of the returned `View`, and the search effect is a separate step.
- Toasts and console logging: the failure toast is a returned value; logging is dropped.
- `JSON.stringify`/`JSON.parse` text: the stored text is abstract and is assumed to round-trip the two shapes the extension writes.
- Storage.ParseContacts: any text under `"contacts"` that parses as JSON but is not a list of contacts (an object such as a service-shaped record, `null`, a number, a string, or a list of non-contacts such as `[1]`) is treated as unparseable and ends in the failure toast; the code (src/search-contacts.tsx:64-66) accepts it with no toast and fails later while rendering. Nothing in the extension writes such text there. `OtherText` is taken never to hold the rendering of an entry or a list, so the text `[]` is `ContactsJson([])` and not `OtherText("[]")`, which would otherwise read as unparseable.
- Storage.ParseEntry: an object under `"google-contacts"` with a valid timestamp but no `contacts` field is treated as unparseable, so the service fetches; the code (src/contacts-service.ts:28) returns `undefined` from the cache instead. Nothing in the extension writes such an object.
- Date numbers are integers: the directory's date fields are small integers, and JavaScript's exponent rendering from 10^21 up, and fractions, are not modelled.
- `Date` and ISO timestamps: replaced by integer milliseconds passed in.
- The People API, its paging and server-side matching: an oracle; the model keeps only the request parameters and the missing-person filter of search.
- PKCE internals (code verifier, challenge, browser redirect), the token store's persistence and `isExpired()`: oracles and a stored `expired` flag.
- GoogleAuth.Authorize: the token read back after a refresh or after the authorization flow is modelled as a synchronous read of the store. In the code, src/google-auth.ts:26 awaits `getTokens()` but lines 30 and 44 do not; if `getTokens()` returns a promise, the read-back is `""` after every refresh and after every completed flow. The client library is not part of this model, so the model keeps the synchronous reading.
- `createPeopleService`: it only wraps the access token, which the model records on each directory call.
- Unicode `toLowerCase`: only ASCII letters are folded.
- The separator between organisation and email: `SEP` is set to the intended bullet U+2022 between spaces, while the literal at src/search-contacts.tsx:122 is the mis-encoded text `â€¢`. No proof depends on its value.
- The detail view, the `mailto:` and maps URLs, and `encodeURIComponent`: presentation.
- `raycast-env.d.ts`: generated type declarations with no behaviour.
