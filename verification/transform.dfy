/** Normalisation of provider person records into contacts
    (`ContactsService.transformContacts`): nameless records are dropped,
    every field is given its default, and birthdays are rendered `m/d[/y]`. */
module Transform {
  import opened Wrappers
  import opened Text
  import opened Seqs
  import opened Contacts
  import opened People

  /** A list field of a record, with a missing list read as the empty list. */
  function Listed<T>(xs: Option<seq<T>>): seq<T> {
    xs.GetOr([])
  }

  /** JavaScript truthiness of an optional number: present and non-zero. */
  predicate TruthyNumber(n: Option<int>) {
    n.Some? && n.value != 0
  }

  function ToEmail(e: PersonEmail): (r: Email)
    ensures e.value.Some? ==> r.value == e.value.value
    ensures e.value.None? ==> r.value == ""
    ensures Truthy(e.kind) ==> r.kind == e.kind
    ensures !Truthy(e.kind) ==> r.kind == Some("unknown")
  {
    Email(OrElse(e.value, ""), Some(OrElse(e.kind, "unknown")))
  }

  function ToPhoneNumber(ph: PersonPhone): (r: PhoneNumber)
    ensures ph.value.Some? ==> r.value == ph.value.value
    ensures ph.value.None? ==> r.value == ""
    ensures Truthy(ph.kind) ==> r.kind == ph.kind
    ensures !Truthy(ph.kind) ==> r.kind == Some("unknown")
  {
    PhoneNumber(OrElse(ph.value, ""), Some(OrElse(ph.kind, "unknown")))
  }

  function ToAddress(a: PersonAddress): (r: Address)
    ensures a.formattedValue.Some? ==> r.formattedValue == a.formattedValue.value
    ensures a.formattedValue.None? ==> r.formattedValue == ""
    ensures Truthy(a.kind) ==> r.kind == a.kind
    ensures !Truthy(a.kind) ==> r.kind == Some("unknown")
    ensures forall part :: part in [r.streetAddress, r.city, r.region, r.postalCode, r.country] ==> part != Some("")
    ensures Truthy(a.streetAddress) ==> r.streetAddress == a.streetAddress
    ensures Truthy(a.city) ==> r.city == a.city
    ensures Truthy(a.region) ==> r.region == a.region
    ensures Truthy(a.postalCode) ==> r.postalCode == a.postalCode
    ensures Truthy(a.country) ==> r.country == a.country
    ensures !Truthy(a.streetAddress) ==> r.streetAddress.None?
    ensures !Truthy(a.city) ==> r.city.None?
    ensures !Truthy(a.region) ==> r.region.None?
    ensures !Truthy(a.postalCode) ==> r.postalCode.None?
    ensures !Truthy(a.country) ==> r.country.None?
  {
    Address(
      OrElse(a.formattedValue, ""),
      Some(OrElse(a.kind, "unknown")),
      NonEmpty(a.streetAddress),
      NonEmpty(a.city),
      NonEmpty(a.region),
      NonEmpty(a.postalCode),
      NonEmpty(a.country))
  }

  function ToOrganization(o: PersonOrganization): (r: Organization)
    ensures o.name.Some? ==> r.name == o.name.value
    ensures o.name.None? ==> r.name == ""
    ensures r.title == o.title
    ensures Truthy(o.kind) ==> r.kind == o.kind
    ensures !Truthy(o.kind) ==> r.kind == Some("unknown")
  {
    Organization(OrElse(o.name, ""), o.title, Some(OrElse(o.kind, "unknown")))
  }

  function ToUrl(u: PersonUrl): (r: Url)
    ensures u.value.Some? ==> r.value == u.value.value
    ensures u.value.None? ==> r.value == ""
    ensures Truthy(u.kind) ==> r.kind == u.kind
    ensures !Truthy(u.kind) ==> r.kind == Some("unknown")
  {
    Url(OrElse(u.value, ""), Some(OrElse(u.kind, "unknown")))
  }

  /** A birthday's month and day are both set (non-zero). */
  predicate HasMonthAndDay(date: Option<PersonDate>) {
    date.Some? && TruthyNumber(date.value.month) && TruthyNumber(date.value.day)
  }

  /** The rendered date of a birthday: `month/day`, then `/year` when the
      year is set, or the empty string when month or day is missing. */
  function FormatBirthdayDate(date: Option<PersonDate>): string {
    if HasMonthAndDay(date) then
      var monthDay := IntToDecimal(date.value.month.value) + "/" + IntToDecimal(date.value.day.value);
      if TruthyNumber(date.value.year) then monthDay + "/" + IntToDecimal(date.value.year.value)
      else monthDay
    else ""
  }

  /** The numbers a rendered birthday date carries. */
  datatype DateParts = DateParts(month: int, day: int, year: Option<int>)

  /** Reads a rendered birthday date back: two or three `/`-separated integers. */
  function ParseBirthdayDate(s: string): Option<DateParts> {
    var parts := Split(s, '/');
    if |parts| == 2 && ParseInt(parts[0]).Some? && ParseInt(parts[1]).Some? then
      Some(DateParts(ParseInt(parts[0]).value, ParseInt(parts[1]).value, None))
    else if |parts| == 3 && ParseInt(parts[0]).Some? && ParseInt(parts[1]).Some? && ParseInt(parts[2]).Some? then
      Some(DateParts(ParseInt(parts[0]).value, ParseInt(parts[1]).value, Some(ParseInt(parts[2]).value)))
    else None
  }

  lemma NoSlashInDecimal(n: int)
    ensures '/' !in IntToDecimal(n)
  {
  }

  /** A birthday without a year renders as month and day with no padding. */
  lemma BirthdayWithoutYearExample()
    ensures FormatBirthdayDate(Some(PersonDate(None, Some(3), Some(14)))) == "3/14"
  {
  }

  /** A birthday with a year renders as month, day and year. */
  lemma BirthdayWithYearExample()
    ensures FormatBirthdayDate(Some(PersonDate(Some(1990), Some(3), Some(14)))) == "3/14/1990"
  {
  }

  /** The birthday date is empty exactly when month or day is missing, and
      otherwise it can be read back into the month, the day and (only when
      it is set) the year. */
  lemma BirthdayDateRoundTrip(date: Option<PersonDate>)
    ensures FormatBirthdayDate(date) == "" <==> !HasMonthAndDay(date)
    ensures HasMonthAndDay(date) ==>
      ParseBirthdayDate(FormatBirthdayDate(date)) ==
        Some(DateParts(date.value.month.value, date.value.day.value,
                       if TruthyNumber(date.value.year) then date.value.year else None))
  {
    if HasMonthAndDay(date) {
      var d := date.value;
      var m, dd := IntToDecimal(d.month.value), IntToDecimal(d.day.value);
      NoSlashInDecimal(d.month.value);
      NoSlashInDecimal(d.day.value);
      IntToDecimalRoundTrip(d.month.value);
      IntToDecimalRoundTrip(d.day.value);
      if TruthyNumber(d.year) {
        var y := IntToDecimal(d.year.value);
        NoSlashInDecimal(d.year.value);
        IntToDecimalRoundTrip(d.year.value);
        assert m + "/" + dd + "/" + y == m + ['/'] + (dd + ['/'] + y);
        SplitAtFirstSeparator(m, dd + ['/'] + y, '/');
        SplitAtFirstSeparator(dd, y, '/');
        SplitWithoutSeparator(y, '/');
        assert Split(m + "/" + dd + "/" + y, '/') == [m, dd, y];
      } else {
        assert m + "/" + dd == m + ['/'] + dd;
        SplitAtFirstSeparator(m, dd, '/');
        SplitWithoutSeparator(dd, '/');
        assert Split(m + "/" + dd, '/') == [m, dd];
      }
    }
  }

  function ToBirthday(b: PersonBirthday): (r: Birthday)
    ensures r.text == b.text
    ensures r.date == "" <==> !HasMonthAndDay(b.date)
    ensures HasMonthAndDay(b.date) ==>
      ParseBirthdayDate(r.date) ==
        Some(DateParts(b.date.value.month.value, b.date.value.day.value,
                       if TruthyNumber(b.date.value.year) then b.date.value.year else None))
  {
    BirthdayDateRoundTrip(b.date);
    Birthday(FormatBirthdayDate(b.date), b.text)
  }

  /** The record has a non-empty list of names. */
  predicate HasNames(p: Person) {
    p.names.Some? && |p.names.value| > 0
  }

  /** One named record as a contact: `id` is the resource name or `""`,
      `name` the first display name or `"Unknown"`, `photoUrl` the first
      photo's url, and each list field the provider's list normalised
      element by element (a missing list is empty). */
  function ToContact(p: Person): (c: Contact)
    ensures Truthy(p.resourceName) ==> c.id == p.resourceName.value
    ensures !Truthy(p.resourceName) ==> c.id == ""
    ensures HasNames(p) && Truthy(p.names.value[0].displayName) ==> c.name == p.names.value[0].displayName.value
    ensures !(HasNames(p) && Truthy(p.names.value[0].displayName)) ==> c.name == "Unknown"
    ensures c.photoUrl == if p.photos.Some? && |p.photos.value| > 0 then p.photos.value[0].url else None
    ensures |c.emails| == |Listed(p.emailAddresses)|
    ensures forall i :: 0 <= i < |c.emails| ==> c.emails[i] == ToEmail(Listed(p.emailAddresses)[i])
    ensures |c.phoneNumbers| == |Listed(p.phoneNumbers)|
    ensures forall i :: 0 <= i < |c.phoneNumbers| ==> c.phoneNumbers[i] == ToPhoneNumber(Listed(p.phoneNumbers)[i])
    ensures |c.addresses| == |Listed(p.addresses)|
    ensures forall i :: 0 <= i < |c.addresses| ==> c.addresses[i] == ToAddress(Listed(p.addresses)[i])
    ensures |c.organizations| == |Listed(p.organizations)|
    ensures forall i :: 0 <= i < |c.organizations| ==> c.organizations[i] == ToOrganization(Listed(p.organizations)[i])
    ensures |c.urls| == |Listed(p.urls)|
    ensures forall i :: 0 <= i < |c.urls| ==> c.urls[i] == ToUrl(Listed(p.urls)[i])
    ensures |c.birthdays| == |Listed(p.birthdays)|
    ensures forall i :: 0 <= i < |c.birthdays| ==> c.birthdays[i] == ToBirthday(Listed(p.birthdays)[i])
  {
    Contact(
      OrElse(p.resourceName, ""),
      if HasNames(p) then OrElse(p.names.value[0].displayName, "Unknown") else "Unknown",
      Map(ToEmail, Listed(p.emailAddresses)),
      Map(ToPhoneNumber, Listed(p.phoneNumbers)),
      Map(ToAddress, Listed(p.addresses)),
      Map(ToOrganization, Listed(p.organizations)),
      Map(ToUrl, Listed(p.urls)),
      Map(ToBirthday, Listed(p.birthdays)),
      if p.photos.Some? && |p.photos.value| > 0 then p.photos.value[0].url else None)
  }

  /** `transformContacts`: the named records, in order, each as a contact. */
  function TransformContacts(people: seq<Person>): (contacts: seq<Contact>)
    ensures |contacts| <= |people|
  {
    Map(ToContact, Filter(HasNames, people))
  }

  /** The contacts are the named records, in input order, each normalised:
      the kept records are an order-preserving subsequence of the input
      holding every named record (with its multiplicity) and no other. */
  lemma TransformKeepsNamedInOrder(people: seq<Person>)
    ensures var kept := Filter(HasNames, people);
      && IsSubsequence(kept, people)
      && (forall p :: multiset(kept)[p] == if HasNames(p) then multiset(people)[p] else 0)
      && TransformContacts(people) == Map(ToContact, kept)
  {
    FilterCharacterised(HasNames, people);
  }

  /** No named record is dropped. */
  lemma TransformKeepsEveryNamed(people: seq<Person>, p: Person)
    requires p in people && HasNames(p)
    ensures ToContact(p) in TransformContacts(people)
  {
    var kept := Filter(HasNames, people);
    FilterMultiplicity(HasNames, people, p);
    assert p in multiset(kept);
    var i :| 0 <= i < |kept| && kept[i] == p;
    assert TransformContacts(people)[i] == ToContact(p);
  }

  /** Every contact produced comes from a named record of the input. */
  lemma TransformOnlyNamed(people: seq<Person>)
    ensures forall c :: c in TransformContacts(people) ==>
      exists p :: p in people && HasNames(p) && c == ToContact(p)
  {
    var kept := Filter(HasNames, people);
    forall c | c in TransformContacts(people)
      ensures exists p :: p in people && HasNames(p) && c == ToContact(p)
    {
      var i :| 0 <= i < |TransformContacts(people)| && TransformContacts(people)[i] == c;
      FilterMultiplicity(HasNames, people, kept[i]);
      assert kept[i] in multiset(kept);
      assert c == ToContact(kept[i]);
    }
  }
}
