/**
 * The flow of `Program.Main` after its command line is read: list the
 * requested collection and stop without output if that fails, otherwise
 * collect the contacts and write the phonebook document.
 */
module Program {
  import opened Wrappers
  import opened XmlEscape
  import opened Cards
  import opened Discovery
  import opened Phonebook

  /**
   * `Main`: no output when the requested collection cannot be listed;
   * otherwise the phonebook of every contact found, which reads back to
   * those contacts' names and numbers in the order they were found.
   */
  method Run(reqUri: string, root: Listing, propfind: string -> Listing, fetchCards: Option<string> -> seq<Card>)
    returns (output: Option<seq<string>>)
    ensures output.None? <==> root.Unsuccessful?
    ensures output.Some? ==> output == Some(Document(Harvest(reqUri, root, propfind, fetchCards).value))
    ensures output.Some? ==> ReadDocument(output.value) == Some(Shown(Harvest(reqUri, root, propfind, fetchCards).value))
  {
    var contacts := CollectContacts(reqUri, root, propfind, fetchCards);
    if contacts.None? {
      return None;
    }
    var lines := GenerateYealinkPhonebookXml(contacts.value);
    ReadDocumentOf(contacts.value);
    output := Some(lines);
  }

  // A server with one address book holding one card.

  const ExampleRoot := Successful([Resource(Some("/dav/"), None), Resource(Some("/dav/book/"), None)])

  function ExamplePropfind(uri: string): (r: Listing)
  {
    if uri == "/dav/book/"
    then Successful([Resource(Some("/dav/book/"), None), Resource(Some("/dav/book/max.vcf"), Some("text/vcard"))])
    else Unsuccessful
  }

  const ExampleCard := Card(Some([Some("Max Müller")]), Some([Some(Phone("0301234567", Voice, Work))]))

  function ExampleFetch(uri: Option<string>): (r: seq<Card>)
  {
    if uri == Some("/dav/book/max.vcf") then [ExampleCard] else []
  }

  const ExampleContact := Contact("Max Müller", [PhoneNumber("0301234567", " Geschäftl.")])

  /** The card has a name and a phone, so it yields one contact; voice/work is labelled " Geschäftl.". */
  lemma ExampleCardContact()
    ensures ContactOf(ExampleCard) == Some(ExampleContact)
  {
    var phones := ExampleCard.phones.value;
    assert Label(Voice, Work) == " Geschäftl.";
    assert phones[1..] == [];
    assert ConvertPhones(phones) == [PhoneNumber("0301234567", " Geschäftl.")];
  }

  /** The resource holding the card yields the card's contact. */
  lemma ExampleCardsContacts()
    ensures ContactsOfCards([ExampleCard]) == [ExampleContact]
  {
    ExampleCardContact();
    assert [ExampleCard][..0] == [];
  }

  /** The address book lists itself, which is not a vCard, and one vCard: only the card's contact is taken. */
  lemma ExampleBook()
    ensures ContactsOfBook(ExamplePropfind("/dav/book/").resources, ExampleFetch) == [ExampleContact]
  {
    var books := ExamplePropfind("/dav/book/").resources;
    assert ContactsOfResource(books[0], ExampleFetch) == [];
    assert IsVCardResource(books[1]) by {
      assert "text/vcard" == VCardType + "";
    }
    ExampleCardsContacts();
    assert ContactsOfResource(books[1], ExampleFetch) == [ExampleContact];
    assert books[..1][..0] == [];
    ContactsOfBookLast(books[..1], ExampleFetch);
    ContactsOfBookLast(books, ExampleFetch);
  }

  /**
   * The root lists itself and one address book, the address book lists
   * itself and one vCard: the card's contact is the only contact found.
   */
  lemma ExampleHarvest()
    ensures Harvest("/dav/", ExampleRoot, ExamplePropfind, ExampleFetch) == Some([ExampleContact])
  {
    var children := ExampleRoot.resources;
    assert ContactsOfChild("/dav/", children[0], ExamplePropfind, ExampleFetch) == [];
    ExampleBook();
    assert ContactsOfChild("/dav/", children[1], ExamplePropfind, ExampleFetch) == [ExampleContact];
    assert children[..1][..0] == [];
    ContactsOfChildrenLast("/dav/", children[..1], ExamplePropfind, ExampleFetch);
    assert ContactsOfChildren("/dav/", children[..1], ExamplePropfind, ExampleFetch) == [];
    ContactsOfChildrenLast("/dav/", children, ExamplePropfind, ExampleFetch);
    assert ContactsOfChildren("/dav/", children, ExamplePropfind, ExampleFetch) == [ExampleContact];
  }

  /** The phonebook of one contact with one phone: one entry with its name and its number. */
  lemma SingleEntryDocument(c: Contact)
    requires |c.phones| == 1
    ensures Document([c])
         == [RootOpen, EntryOpen, NameLine(c.name), TelephoneLine(c.phones[0].number), EntryClose, RootClose]
  {
    assert c.phones[1..] == [];
    assert TelephoneLines(c.phones) == [TelephoneLine(c.phones[0].number)];
    assert EntriesLines([c]) == EntryLines(c) + EntriesLines([]);
  }

  /** Neither the name nor the number holds a character that needs escaping, so both are written unchanged. */
  lemma ExampleNamePlain()
    ensures Escape(ExampleContact.name) == ExampleContact.name
  {
    var s := ExampleContact.name;
    assert forall i :: 0 <= i < |s| ==> !IsSpecial(s[i]);
    EscapeIdentity(s);
  }

  lemma ExampleNumberPlain()
    ensures Escape(ExampleContact.phones[0].number) == ExampleContact.phones[0].number
  {
    var s := ExampleContact.phones[0].number;
    assert forall i :: 0 <= i < |s| ==> !IsSpecial(s[i]);
    EscapeIdentity(s);
  }
}
