# CardDAV to Yealink phonebook — a verified model

The program reads contact cards (vCards) from a CardDAV server and writes a
phonebook XML file for Yealink desk phones. It lists the requested WebDAV
collection. It lists each child collection, fetches every resource whose
content type is `text/vcard…` and decodes the cards in it. Each card that has
a display name and a phone becomes a `Contact`. The contacts are then written
as `<YealinkIPPhoneDirectory>` with one `<DirectoryEntry>` per contact.

This project models that logic in Dafny and proves what it does:

- `wrappers.dfy` — `Option`, which stands for the source's `null`.
- `xml_escape.dfy` (module `XmlEscape`) — `SecurityElement.Escape` as the
  per-character substitution of the five predefined entities of XML 1.0
  (section 4.6 of the XML 1.0 specification). It also holds `Unescape`, its
  inverse.
- `cards.dfy` (module `Cards`) — the `Contact` and `PhoneNumber` records and
  decoded cards. It covers the phone label derivation and
  `VCardPhonesToPhoneNumbers`, written as a loop method proved against a
  function. It also holds the rule that turns a card into at most one contact.
- `discovery.dfy` (module `Discovery`) — the child-URI and content-type
  filters, and the three nested loops of `Main` that gather contacts. Each
  loop is a method proved against a recursive function. The WebDAV requests
  are inputs: the root listing, `propfind` (a child collection's listing by
  URI) and `fetchCards` (the cards decoded from a resource).
- `phonebook.dfy` (module `Phonebook`) — `GenerateYealinkPhonebookXml` as a
  method that builds the list of lines written, proved against `Document`.
  It also holds a reader for such documents, used to prove that names and
  numbers can be read back.
- `sequences.dfy` (module `Sequences`) — the two loop shapes of `Main`,
  stated once for any element type: keep what each step yields, in order,
  or concatenate the lists each step yields, in order. It also holds the
  ordinal prefix test `StartsWith`.
- `program.dfy` (module `Program`) — `Run`, the flow of `Main` after the
  command line is read, and a worked end-to-end example.

`Contact` and `PhoneNumber` are C# classes with setters. Nothing changes them
after construction, so they are datatypes here. The two inner loops of `Main`
and the loop body of `GenerateYealinkPhonebookXml` are separate methods here
(`ContactsFromCards`, `ContactsFromBook`, `WriteDirectoryEntry`). They return
what they add to the list, in the same order the source adds it.

Some details of the code are easy to misread. The model states them as
the code has them:

- A phone label always has a space between the type token and the class
  token, so voice/home is `" Privat"` and not `"Privat"`. The label is never
  written to the phonebook, so the output does not show this.
- The content-type prefix test is case-sensitive, so `"Text/VCard"` is
  skipped.
- Only the *first* phone entry of a card is tested. A card whose first phone
  entry is null is dropped, even if a later entry is a phone.
- There is one requested endpoint.

## Model

| member | source | states |
|---|---|---|
| `XmlEscape.Escape` | CardDavToYealinkAddressBook/Program.cs:106-111 | `SecurityElement.Escape` as a per-character substitution; escaping never shortens a text |
| `XmlEscape.EscapeIsSafe` | CardDavToYealinkAddressBook/Program.cs:106-111 | Escaped text has no raw `<`, `>`, `"` or `'`, and every `&` in it begins one of the five entity references |
| `XmlEscape.UnescapeEscape` | CardDavToYealinkAddressBook/Program.cs:106-111 | Unescaping escaped text gives back the original name or number |
| `XmlEscape.EscapeUnescape` | CardDavToYealinkAddressBook/Program.cs:106-111 | Every safe text is the escaping of its unescaping, so escaping is a bijection between all texts and the safe ones |
| `XmlEscape.EscapeIdentity` | CardDavToYealinkAddressBook/Program.cs:106-111 | Escaping leaves a text unchanged exactly when it holds none of the five special characters |
| `XmlEscape.EscapeAppend` | CardDavToYealinkAddressBook/Program.cs:106-111 | Escaping works character by character: escaping a concatenation concatenates the escapings |
| `Cards.Label` | CardDavToYealinkAddressBook/Program.cs:130-144 | A label is never empty and has exactly one space, right after the type token |
| `Cards.LabelTable` | CardDavToYealinkAddressBook/Program.cs:130-144 | Voice/home gives `" Privat"`, cell/work gives `"Mobil Geschäftl."`, other/other gives `" "`, cell/other gives `"Mobil "` |
| `Cards.LabelSameIff` | CardDavToYealinkAddressBook/Program.cs:130-144 | Two phones get the same label if and only if both or neither are cells and their classes are equal |
| `Cards.ToPhoneNumber` | CardDavToYealinkAddressBook/Program.cs:147-151 | The number is the phone's value unchanged, and the type has its one space right after the type token |
| `Cards.ToPhoneNumberSameIff` | CardDavToYealinkAddressBook/Program.cs:130-151 | Two phones give the same phone number if and only if their values are equal, both or neither are cells, and their classes are equal |
| `Cards.HasFirst` | CardDavToYealinkAddressBook/Program.cs:79-83 | The `?.FirstOrDefault() == null` test: a list passes exactly when `FirstOrDefault` of it is not null |
| `Cards.First` | CardDavToYealinkAddressBook/Program.cs:87 | The first entry taken after the test is the value `FirstOrDefault` returned |
| `Cards.PresentAppend` | CardDavToYealinkAddressBook/Program.cs:125-128 | Skipping null entries keeps the order: the non-null entries of a concatenation are the concatenation of the non-null entries |
| `Cards.PresentMembers` | CardDavToYealinkAddressBook/Program.cs:125-128 | A value is kept if and only if it occurs as a non-null entry |
| `Cards.ConvertPhones` | CardDavToYealinkAddressBook/Program.cs:125-151 | One phone number per non-null phone, in the card's order; the i-th is the i-th non-null phone converted |
| `Cards.PhoneNumbersOf` | CardDavToYealinkAddressBook/Program.cs:122-151 | No numbers when the phone list is null; otherwise one per non-null phone, in order, with the phone's value as number and its label as type |
| `Cards.VCardPhonesToPhoneNumbers` | CardDavToYealinkAddressBook/Program.cs:120-153 | The loop that builds the label with `+=` and yields numbers returns exactly `PhoneNumbersOf` of the card's phones |
| `Cards.ContactOf` | CardDavToYealinkAddressBook/Program.cs:79-89 | A card yields a contact if and only if its first display name and its first phone are non-null. The contact's name is the first display name. Its phones are the card's non-null phones, so at least one, led by the first phone |
| `Cards.NullFirstPhoneDropsCard` | CardDavToYealinkAddressBook/Program.cs:82-83 | A card whose first phone entry is null yields no contact, even when a later entry is a phone |
| `Discovery.VisitChild` | CardDavToYealinkAddressBook/Program.cs:63 | A child is skipped if and only if its URI is null or equals the requested URI |
| `Discovery.IsVCardResource` | CardDavToYealinkAddressBook/Program.cs:72 | A resource is taken as a card if and only if its content type is non-null and is `text/vcard` followed by anything |
| `Discovery.VCardTypeIsCaseSensitive` | CardDavToYealinkAddressBook/Program.cs:72 | `Text/VCard` is not taken; `text/vcard; charset=utf-8` is |
| `Sequences.Collect` | CardDavToYealinkAddressBook/Program.cs:77-90 | The card loop's shape: what a step yields is kept in order and a step that yields nothing is skipped, so there are never more results than inputs (at most one contact per card) |
| `Discovery.ContactsOfCardsHavePhones` | CardDavToYealinkAddressBook/Program.cs:82-88 | Every contact taken from a resource has at least one phone number |
| `Discovery.ContactsOfCardsAppend` | CardDavToYealinkAddressBook/Program.cs:77-90 | Contacts keep the order of their cards and are not deduplicated: the contacts of a concatenation of cards are the concatenated contacts |
| `Discovery.ContactsOfCardsSound` | CardDavToYealinkAddressBook/Program.cs:77-90 | Every contact of a resource is the contact of one of its cards |
| `Discovery.ContactsOfCardsComplete` | CardDavToYealinkAddressBook/Program.cs:77-90 | Every card that yields a contact contributes it |
| `Discovery.ContactsOfBookSound` | CardDavToYealinkAddressBook/Program.cs:70-76 | Every contact of a collection comes from one of its resources that passes the content-type filter |
| `Discovery.ContactsOfBookComplete` | CardDavToYealinkAddressBook/Program.cs:70-76 | Every contact of every resource that passes the content-type filter is among the collection's contacts |
| `Discovery.ContactsOfChildrenSound` | CardDavToYealinkAddressBook/Program.cs:61-68 | Every contact found comes from a child whose URI is non-null and differs from the requested URI, and whose listing succeeded |
| `Discovery.ContactsOfChildrenComplete` | CardDavToYealinkAddressBook/Program.cs:61-68 | Every contact of every such child is found |
| `Discovery.ContactsFromCards` | CardDavToYealinkAddressBook/Program.cs:77-90 | The card loop returns exactly the contacts `ContactsOfCards` gives, in card order |
| `Discovery.ContactsFromBook` | CardDavToYealinkAddressBook/Program.cs:70-91 | The resource loop returns exactly the contacts of the vCard resources, in listing order |
| `Discovery.CollectContacts` | CardDavToYealinkAddressBook/Program.cs:54-92 | Nothing when the requested listing fails; otherwise exactly `Harvest`, the contacts of all visited children in listing order |
| `Phonebook.TelephoneLines` | CardDavToYealinkAddressBook/Program.cs:108-112 | One `Telephone` line per phone number, the j-th holding the j-th number escaped |
| `Phonebook.WriteDirectoryEntry` | CardDavToYealinkAddressBook/Program.cs:105-114 | Appends exactly the entry block of one contact to the lines written so far |
| `Phonebook.GenerateYealinkPhonebookXml` | CardDavToYealinkAddressBook/Program.cs:98-118 | The lines written are exactly `Document` of the contacts |
| `Phonebook.DocumentShape` | CardDavToYealinkAddressBook/Program.cs:101-117 | The document begins with `<YealinkIPPhoneDirectory>`, ends with `</YealinkIPPhoneDirectory>`, and has 2 + Σ(3 + number of phones) lines |
| `Phonebook.EntriesLinesAppend` | CardDavToYealinkAddressBook/Program.cs:103-115 | The blocks of a concatenation of contacts are the concatenated blocks, and line counts add up |
| `Phonebook.DocumentEntry` | CardDavToYealinkAddressBook/Program.cs:103-115 | The block of contact k stands whole and contiguous right after the blocks of contacts 0..k-1: one block per contact, in list order |
| `Phonebook.EntryShape` | CardDavToYealinkAddressBook/Program.cs:105-114 | A block is `  <DirectoryEntry>`, one `Name` line, one `Telephone` line per phone in the contact's order, then `  </DirectoryEntry>` |
| `Phonebook.ReadNameLine` | CardDavToYealinkAddressBook/Program.cs:106 | The `Name` line reads back to the contact's name, whatever characters it holds |
| `Phonebook.ReadTelephoneLine` | CardDavToYealinkAddressBook/Program.cs:111 | A `Telephone` line reads back to its number |
| `Phonebook.ReadDocumentOf` | CardDavToYealinkAddressBook/Program.cs:101-117 | Reading the document gives back every contact's name and numbers, in order |
| `Program.Run` | CardDavToYealinkAddressBook/Program.cs:53-95 | No output if and only if the requested listing fails; otherwise the document of the harvested contacts, which reads back to their names and numbers |
| `Program.ExampleCardContact` | CardDavToYealinkAddressBook/Program.cs:79-89 | The card "Max Müller" with one voice/work phone yields one contact with label `" Geschäftl."` |
| `Program.ExampleCardsContacts` | CardDavToYealinkAddressBook/Program.cs:77-90 | A resource holding only the example card yields exactly its contact |
| `Program.ExampleBook` | CardDavToYealinkAddressBook/Program.cs:70-91 | A book listing itself and one vCard yields only the card's contact: the self-entry has no content type and is skipped |
| `Program.ExampleHarvest` | CardDavToYealinkAddressBook/Program.cs:61-91 | A root listing itself and one book, and a book listing itself and one vCard, yield exactly that card's contact |
| `Program.SingleEntryDocument` | CardDavToYealinkAddressBook/Program.cs:101-117 | A single contact with one phone gives six lines: root, entry, name, telephone, end of entry, end of root |
| `Program.ExampleNamePlain` | CardDavToYealinkAddressBook/Program.cs:106 | "Max Müller" is written unchanged, since it has no character to escape |
| `Program.ExampleNumberPlain` | CardDavToYealinkAddressBook/Program.cs:111 | The example number "0301234567" is written unchanged, since it has no character to escape |

## Left out

- Command-line parsing (Program.cs:15-45) and the WebDAV client's construction and credentials (47-51) are plumbing. The requested URI is a parameter.
- WebDAV requests (`Propfind`, `GetProcessedFile`) are inputs. The root listing is a value, and `propfind` and `fetchCards` are functions. Network failures are not modelled, and neither are exceptions thrown by `GetProcessedFile` or `Vcf.Deserialize` (in the source such an exception ends the whole run).
- `Vcf.Deserialize` and the vCard library's types are foreign code. A decoded card is only its display-name values and its phones. The `Tel` and `PCl` flag parameters are reduced to exactly-Voice, exactly-Cell, other and exactly-Home, exactly-Work, other, which is all the label switch tells apart.
- Values are taken to be non-null strings. The case where `SecurityElement.Escape` is given `null` is not modelled.
- The file is modelled as its list of lines. Creating the file, line terminators and the stream's text encoding are left out.
- Phonebook.DocumentShape, Phonebook.ReadNameLine: these hold for the list of lines passed to `WriteLine`, not for the file's physical lines. `SecurityElement.Escape` keeps `\n` and `\r`, so a name or number that holds a line break is written across several physical lines.
- The `--webdav-endpoint` option is built at Program.cs:35-38 but is not added to the root command at 40-44. So `GetRequiredValue` at 53 has no parsed value to read and may throw before the first request. `Run` takes the requested URI as a parameter and does not show this.
- Discovery.IsVCardResource: compares the prefix character by character (ordinally). The one-argument `String.StartsWith` in the source uses the current culture's comparison, which is not modelled.
- `Configuration.cs` holds settings with defaults and no behaviour, and nothing in `Program.cs` reads it.
- Country-code number rewriting, one entry per number, bounded concurrent fetching, several endpoints and a completion ping are not in this source, so they are not modelled.
