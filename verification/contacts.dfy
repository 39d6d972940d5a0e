/** The contact shape the extension produces and renders (one datatype per
    interface of `src/types.ts`). A TypeScript field `type` is named `kind`
    here, since `type` is a Dafny keyword. */
module Contacts {
  import opened Wrappers

  datatype Email = Email(value: string, kind: Option<string>)

  datatype PhoneNumber = PhoneNumber(value: string, kind: Option<string>)

  datatype Address = Address(
    formattedValue: string,
    kind: Option<string>,
    streetAddress: Option<string>,
    city: Option<string>,
    region: Option<string>,
    postalCode: Option<string>,
    country: Option<string>)

  datatype Organization = Organization(name: string, title: Option<string>, kind: Option<string>)

  datatype Url = Url(value: string, kind: Option<string>)

  datatype Birthday = Birthday(date: string, text: Option<string>)

  datatype Contact = Contact(
    id: string,
    name: string,
    emails: seq<Email>,
    phoneNumbers: seq<PhoneNumber>,
    addresses: seq<Address>,
    organizations: seq<Organization>,
    urls: seq<Url>,
    birthdays: seq<Birthday>,
    photoUrl: Option<string>)
}
