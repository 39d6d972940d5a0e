/** The search command (`src/search-contacts.tsx`) without its rendering:
    the local search filter, the list item subtitle, and `loadContacts`,
    which consults its own untimed cache entry before authorizing and
    asking the contacts service. React state updates are the fields of a
    returned `View`; the failure toast is a returned value. */
module SearchCommand {
  import opened Wrappers
  import opened Text
  import opened Seqs
  import opened Contacts
  import opened Calls
  import opened Storage
  import People
  import ContactsService
  import GoogleAuth

  const UI_CACHE_KEY := "contacts"

  /** The bullet between the organisation and the primary email or phone. */
  const SEP := " \U{2022} "

  const TOAST_TITLE := "Failed to load contacts"

  /** The contact matches the search text: its lower-cased text occurs in
      the lower-cased name, in some email value or in some phone value. */
  predicate Matches(c: Contact, searchText: string)
    ensures searchText == "" ==> Matches(c, searchText)
  {
    var q := Lower(searchText);
    || Includes(Lower(c.name), q)
    || (exists i :: 0 <= i < |c.emails| && Includes(Lower(c.emails[i].value), q))
    || (exists i :: 0 <= i < |c.phoneNumbers| && Includes(Lower(c.phoneNumbers[i].value), q))
  }

  /** The search ignores the case of ASCII letters in the search text. */
  lemma MatchesIgnoresCase(c: Contact, searchText: string)
    ensures Matches(c, searchText) <==> Matches(c, Lower(searchText))
  {
    LowerIdempotent(searchText);
  }

  /** The command's list state. */
  datatype View = View(allContacts: seq<Contact>, contacts: seq<Contact>, isLoading: bool)

  /** The search-text effect: with a search text, the shown contacts are
      the matching ones of the full list, in order, none dropped; without
      one, the full list is shown. */
  method ApplySearchText(view: View, searchText: string) returns (v: View)
    ensures v.allContacts == view.allContacts
    ensures searchText == "" ==> v == view.(contacts := view.allContacts)
    ensures searchText != "" ==> !v.isLoading
    ensures searchText != "" ==> IsSubsequence(v.contacts, view.allContacts)
    ensures searchText != "" ==>
      (forall c :: multiset(v.contacts)[c] == if Matches(c, searchText) then multiset(view.allContacts)[c] else 0)
  {
    if searchText == "" {
      return view.(contacts := view.allContacts);
    }
    var all := view.allContacts;
    var shown := [];
    var i := 0;
    while i < |all|
      invariant 0 <= i <= |all|
      invariant IsSubsequence(shown, all[..i])
      invariant forall c :: multiset(shown)[c] == if Matches(c, searchText) then multiset(all[..i])[c] else 0
    {
      var c := all[i];
      assert all[..i + 1] == all[..i] + [c];
      SubsequenceExtend(shown, all[..i], c);
      if Matches(c, searchText) {
        shown := shown + [c];
      }
      i := i + 1;
    }
    assert all[..|all|] == all;
    v := View(all, shown, false);
  }

  /** With a search text, a contact is shown exactly when it is in the full
      list and matches. */
  lemma ShownIffMatching(shown: seq<Contact>, all: seq<Contact>, searchText: string, c: Contact)
    requires forall x :: multiset(shown)[x] == if Matches(x, searchText) then multiset(all)[x] else 0
    ensures c in shown <==> c in all && Matches(c, searchText)
  {
    assert c in shown <==> multiset(shown)[c] > 0;
    assert c in all <==> multiset(all)[c] > 0;
  }

  /** The value of the first email, absent when there is none. */
  function PrimaryEmail(c: Contact): Option<string> {
    if |c.emails| > 0 then Some(c.emails[0].value) else None
  }

  /** The value of the first phone number, absent when there is none. */
  function PrimaryPhone(c: Contact): Option<string> {
    if |c.phoneNumbers| > 0 then Some(c.phoneNumbers[0].value) else None
  }

  /** The primary email when it is non-empty, and the primary phone otherwise. */
  function ContactLine(c: Contact): Option<string> {
    if Truthy(PrimaryEmail(c)) then PrimaryEmail(c) else PrimaryPhone(c)
  }

  /** The first organisation exists and has a non-empty name. */
  predicate HasNamedOrg(c: Contact) {
    |c.organizations| > 0 && c.organizations[0].name != ""
  }

  /** `title at name` when the first organisation has a title, else `name`. */
  function OrgLabel(c: Contact): string
    requires HasNamedOrg(c)
  {
    var org := c.organizations[0];
    if Truthy(org.title) then org.title.value + " at " + org.name else org.name
  }

  /** `b` ends with `a`. */
  predicate EndsWith(b: string, a: string) {
    |a| <= |b| && b[|b| - |a|..] == a
  }

  /** The list item subtitle. Without a named first organisation it is the
      primary email, or the primary phone when the email is missing or
      empty. With one, it starts with the organisation label, and ends
      with the separator and that email or phone when one is non-empty. */
  function Subtitle(c: Contact): (r: Option<string>)
    ensures !HasNamedOrg(c) ==> r == ContactLine(c)
    ensures HasNamedOrg(c) ==> r.Some? && OrgLabel(c) <= r.value
    ensures HasNamedOrg(c) && Truthy(ContactLine(c)) ==>
      EndsWith(r.value, SEP + ContactLine(c).value) && |r.value| == |OrgLabel(c)| + |SEP| + |ContactLine(c).value|
    ensures HasNamedOrg(c) && !Truthy(ContactLine(c)) ==> |r.value| == |OrgLabel(c)|
  {
    var line := ContactLine(c);
    if HasNamedOrg(c) then
      var orgPart := OrgLabel(c);
      if Truthy(line) then
        assert (orgPart + SEP + line.value)[|orgPart| + |SEP|..] == line.value;
        Some(orgPart + (SEP + line.value))
      else Some(orgPart)
    else line
  }

  /** With a named first organisation, the subtitle mentions its name and,
      when set, its title. */
  lemma SubtitleMentionsOrganisation(c: Contact)
    requires HasNamedOrg(c)
    ensures Includes(Subtitle(c).value, c.organizations[0].name)
    ensures Truthy(c.organizations[0].title) ==> Includes(Subtitle(c).value, c.organizations[0].title.value)
  {
    var org := c.organizations[0];
    var r := Subtitle(c).value;
    assert OrgLabel(c) <= r;
    if Truthy(org.title) {
      var title := org.title.value;
      var at := |title| + |" at "|;
      assert r[..|OrgLabel(c)|] == title + " at " + org.name;
      assert r[at..at + |org.name|] == org.name;
      IncludesAt(r, org.name, at);
      assert r[0..|title|] == title;
      IncludesAt(r, title, 0);
    } else {
      assert r[0..|org.name|] == org.name;
      IncludesAt(r, org.name, 0);
    }
  }

  /** A non-empty primary email or phone is always part of the subtitle. */
  lemma SubtitleMentionsContactLine(c: Contact)
    requires Truthy(ContactLine(c))
    ensures Subtitle(c).Some? && Includes(Subtitle(c).value, ContactLine(c).value)
  {
    var line := ContactLine(c).value;
    var r := Subtitle(c).value;
    if HasNamedOrg(c) {
      var tail := SEP + line;
      assert r[|r| - |tail|..] == tail;
      assert r[|r| - |line|..] == line;
      IncludesAt(r, line, |r| - |line|);
    } else {
      assert r[0..|line|] == line;
      IncludesAt(r, line, 0);
    }
  }

  datatype Prefs = Prefs(useCache: bool)

  /** The durable state the command touches: the shared cache and the
      authentication state. */
  datatype System = System(store: Store, auth: GoogleAuth.AuthState)

  /** Why loading failed: the cached list did not parse (a `SyntaxError`),
      or a collaborator threw an error with a message. */
  datatype LoadError = ParseError | Thrown(message: string)

  datatype Toast = Toast(title: string, error: LoadError)

  /** What the collaborators answer: the authorization oracles and the
      directory's reply to the list request. */
  datatype LoadOracles = LoadOracles(auth: GoogleAuth.AuthOracles, list: ContactsService.Response<People.Person>)

  datatype LoadOutcome = LoadOutcome(view: View, system: System, toast: Option<Toast>, calls: seq<Call>)

  /** `loadContacts` reads its own entry: caching is on, the load is not
      forced, and the entry is present. */
  predicate UsesUiCache(prefs: Prefs, forceRefresh: bool, store: Store) {
    prefs.useCache && !forceRefresh && Read(store, UI_CACHE_KEY).Some?
  }

  /** `loadContacts(forceRefresh)`. A present entry under `"contacts"` is
      shown when it parses and is an error when it does not, without any
      other call. Otherwise it authorizes, asks the service with the
      service's own cache enabled, stores the list under `"contacts"` when
      caching is on, and shows it; a thrown error becomes the failure
      toast and leaves the lists as they were. */
  function LoadContacts(view: View, prefs: Prefs, forceRefresh: bool, sys: System, clientId: string,
                        now: int, stampTime: int, o: LoadOracles): (out: LoadOutcome)
    ensures !out.view.isLoading
    ensures out.toast.Some? ==> out.toast.value.title == TOAST_TITLE
    ensures out.toast.Some? ==> out.view.allContacts == view.allContacts && out.view.contacts == view.contacts
    ensures out.toast.None? ==> out.view.contacts == out.view.allContacts
    ensures UsesUiCache(prefs, forceRefresh, sys.store) ==> out.calls == [] && out.system == sys
    ensures !UsesUiCache(prefs, forceRefresh, sys.store) ==> |out.calls| > 0 && !out.calls[0].ListConnections?
    ensures forall k :: k != UI_CACHE_KEY && k != ContactsService.CACHE_KEY ==>
      (k in out.system.store <==> k in sys.store) && (k in sys.store ==> out.system.store[k] == sys.store[k])
    ensures !prefs.useCache ==> (UI_CACHE_KEY in out.system.store <==> UI_CACHE_KEY in sys.store)
  {
    if UsesUiCache(prefs, forceRefresh, sys.store) then
      match ParseContacts(sys.store[UI_CACHE_KEY])
      case Some(cached) => LoadOutcome(View(cached, cached, false), sys, None, [])
      case None => LoadOutcome(view.(isLoading := false), sys, Some(Toast(TOAST_TITLE, ParseError)), [])
    else
      var authorized := GoogleAuth.Authorize(sys.auth, clientId, o.auth);
      match authorized.result
      case Failure(e) =>
        LoadOutcome(view.(isLoading := false), System(sys.store, authorized.state),
                    Some(Toast(TOAST_TITLE, Thrown(e))), authorized.calls)
      case Success(token) =>
        var service := ContactsService.GetContacts(sys.store, token, true, now, stampTime, o.list);
        var calls := authorized.calls + service.calls;
        match service.result
        case Failure(e) =>
          LoadOutcome(view.(isLoading := false), System(service.store, authorized.state),
                      Some(Toast(TOAST_TITLE, Thrown(e))), calls)
        case Success(fetched) =>
          var store := if prefs.useCache then service.store[UI_CACHE_KEY := ContactsJson(fetched)] else service.store;
          LoadOutcome(View(fetched, fetched, false), System(store, authorized.state), None, calls)
  }

  /** A present, parseable `"contacts"` entry is shown as is: no
      authorization, no service call, nothing written, whatever the time. */
  lemma UiCacheHitShowsCachedList(view: View, prefs: Prefs, forceRefresh: bool, sys: System, clientId: string,
                                  now: int, stampTime: int, o: LoadOracles)
    requires UsesUiCache(prefs, forceRefresh, sys.store)
    requires ParseContacts(sys.store[UI_CACHE_KEY]).Some?
    ensures var cached := ParseContacts(sys.store[UI_CACHE_KEY]).value;
      LoadContacts(view, prefs, forceRefresh, sys, clientId, now, stampTime, o)
        == LoadOutcome(View(cached, cached, false), sys, None, [])
  {
  }

  /** The `"contacts"` entry carries no timestamp and never expires: while
      it is used, the outcome does not depend on the clock. */
  lemma UiCacheNeverExpires(view: View, prefs: Prefs, forceRefresh: bool, sys: System, clientId: string,
                            now1: int, stamp1: int, now2: int, stamp2: int, o: LoadOracles)
    requires UsesUiCache(prefs, forceRefresh, sys.store)
    ensures LoadContacts(view, prefs, forceRefresh, sys, clientId, now1, stamp1, o)
         == LoadContacts(view, prefs, forceRefresh, sys, clientId, now2, stamp2, o)
  {
  }

  /** A `"contacts"` entry that does not parse is not a miss: loading ends
      in the failure toast, with no authorization and no fetch, even when
      both would succeed. */
  lemma UnparseableUiCacheIsError(view: View, prefs: Prefs, forceRefresh: bool, sys: System, clientId: string,
                                  now: int, stampTime: int, o: LoadOracles)
    requires UsesUiCache(prefs, forceRefresh, sys.store)
    requires ParseContacts(sys.store[UI_CACHE_KEY]).None?
    ensures var out := LoadContacts(view, prefs, forceRefresh, sys, clientId, now, stampTime, o);
      && out.toast == Some(Toast(TOAST_TITLE, ParseError))
      && out.calls == []
      && out.system == sys
      && out.view == view.(isLoading := false)
  {
  }

  /** Without the `"contacts"` entry, loading authorizes first and then asks
      the service, with the service's cache enabled whatever the preference,
      using the token `authorize` returned. */
  lemma BypassAuthorizesThenAsksService(view: View, prefs: Prefs, forceRefresh: bool, sys: System, clientId: string,
                                        now: int, stampTime: int, o: LoadOracles)
    requires !UsesUiCache(prefs, forceRefresh, sys.store)
    ensures var out := LoadContacts(view, prefs, forceRefresh, sys, clientId, now, stampTime, o);
      var authorized := GoogleAuth.Authorize(sys.auth, clientId, o.auth);
      && authorized.calls <= out.calls
      && out.system.auth == authorized.state
      && (authorized.result.Failure? ==>
            out.calls == authorized.calls && out.toast == Some(Toast(TOAST_TITLE, Thrown(authorized.result.error))))
      && (authorized.result.Success? ==>
            var service := ContactsService.GetContacts(sys.store, authorized.result.value, true, now, stampTime, o.list);
            && out.calls == authorized.calls + service.calls
            && (service.result.Success? ==> out.view.allContacts == service.result.value && out.toast.None?)
            && (service.result.Failure? ==> out.toast == Some(Toast(TOAST_TITLE, Thrown(service.result.error)))))
  {
  }

  /** A forced refresh, or a load with caching switched off, still goes
      through the service's own cache: an entry younger than thirty
      minutes is shown and the directory is not asked. */
  lemma BypassServedByServiceCache(view: View, prefs: Prefs, forceRefresh: bool, sys: System, clientId: string,
                                   now: int, stampTime: int, o: LoadOracles)
    requires forceRefresh || !prefs.useCache
    requires GoogleAuth.Authorize(sys.auth, clientId, o.auth).result.Success?
    requires ContactsService.CachedContacts(sys.store, now).Some?
    ensures var out := LoadContacts(view, prefs, forceRefresh, sys, clientId, now, stampTime, o);
      && !Fetches(out.calls)
      && out.view.allContacts == ContactsService.CachedContacts(sys.store, now).value
      && out.toast.None?
  {
  }

  /** A successful load with caching on refills `"contacts"`: the next
      unforced load shows the same list with no call at all. */
  lemma LoadThenReloadFromUiCache(view: View, prefs: Prefs, sys: System, clientId: string,
                                  now: int, stampTime: int, o: LoadOracles,
                                  view2: View, now2: int, stamp2: int, o2: LoadOracles)
    requires prefs.useCache
    requires !UsesUiCache(prefs, false, sys.store)
    ensures var first := LoadContacts(view, prefs, false, sys, clientId, now, stampTime, o);
      first.toast.None? ==>
        LoadContacts(view2, prefs, false, first.system, clientId, now2, stamp2, o2)
          == LoadOutcome(first.view, first.system, None, [])
  {
  }
}
