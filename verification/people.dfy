/** The provider's person records, as returned by the People directory API,
    restricted to the fields the extension requests. Every field may be
    missing, so each is optional; numbers in a date may be missing too. */
module People {
  import opened Wrappers

  datatype PersonName = PersonName(displayName: Option<string>)

  datatype PersonEmail = PersonEmail(value: Option<string>, kind: Option<string>)

  datatype PersonPhone = PersonPhone(value: Option<string>, kind: Option<string>)

  datatype PersonAddress = PersonAddress(
    formattedValue: Option<string>,
    kind: Option<string>,
    streetAddress: Option<string>,
    city: Option<string>,
    region: Option<string>,
    postalCode: Option<string>,
    country: Option<string>)

  datatype PersonOrganization = PersonOrganization(name: Option<string>, title: Option<string>, kind: Option<string>)

  datatype PersonUrl = PersonUrl(value: Option<string>, kind: Option<string>)

  datatype PersonDate = PersonDate(year: Option<int>, month: Option<int>, day: Option<int>)

  datatype PersonBirthday = PersonBirthday(date: Option<PersonDate>, text: Option<string>)

  datatype PersonPhoto = PersonPhoto(url: Option<string>)

  datatype Person = Person(
    resourceName: Option<string>,
    names: Option<seq<PersonName>>,
    emailAddresses: Option<seq<PersonEmail>>,
    phoneNumbers: Option<seq<PersonPhone>>,
    addresses: Option<seq<PersonAddress>>,
    organizations: Option<seq<PersonOrganization>>,
    urls: Option<seq<PersonUrl>>,
    birthdays: Option<seq<PersonBirthday>>,
    photos: Option<seq<PersonPhoto>>)

  /** One hit of the directory's search endpoint; its person may be missing. */
  datatype SearchResult = SearchResult(person: Option<Person>)
}
