/** The extension's key-value cache (Raycast `Cache`), shared by the
    contacts service and the search command, which both open it with the
    default namespace. Values are JSON text; the model keeps the text
    abstract: it is either what `JSON.stringify` produced from one of the
    two shapes the extension writes, or any other text. */
module Storage {
  import opened Wrappers
  import opened Contacts

  /** The service's cache record: the contact list and when it was written
      (milliseconds since the epoch). */
  datatype CacheEntry = CacheEntry(contacts: seq<Contact>, timestamp: int)

  /** A stored JSON text: the rendering of a cache record, the rendering of
      a contact list, or any other text. `OtherText` never holds the
      rendering of a record or of a list: the text `[]` is `ContactsJson([])`,
      never `OtherText("[]")`. */
  datatype Blob =
    | EntryJson(entry: CacheEntry)
    | ContactsJson(contacts: seq<Contact>)
    | OtherText(text: string)

  type Store = map<string, Blob>

  /** `cache.get(key)` followed by a truthiness test: a missing key and an
      empty string both read as nothing. */
  function Read(store: Store, key: string): (r: Option<Blob>)
    ensures r.Some? ==> key in store && r.value == store[key]
    ensures r.None? <==> key !in store || store[key] == OtherText("")
  {
    if key in store && store[key] != OtherText("") then Some(store[key]) else None
  }

  /** `JSON.parse` of a service cache record followed by the timestamp
      read. Any text other than a stringified record yields no usable
      record: either parsing throws, or the timestamp is missing and the
      freshness comparison against `NaN` is false. */
  function ParseEntry(b: Blob): Option<CacheEntry> {
    if b.EntryJson? then Some(b.entry) else None
  }

  /** `JSON.parse` of a stringified contact list. */
  function ParseContacts(b: Blob): Option<seq<Contact>> {
    if b.ContactsJson? then Some(b.contacts) else None
  }
}
