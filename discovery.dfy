/**
 * The discovery and collection loops of `Program.Main`: list the requested
 * collection, list every child collection other than the requested one, take
 * every grandchild whose content type is a vCard type, decode it into cards
 * and keep the contacts the cards yield, all in listing order.
 *
 * The WebDAV requests are inputs: the root listing, `propfind` (the listing
 * of a child collection by its URI) and `fetchCards` (the cards decoded from
 * the resource at a URI).
 */
module Discovery {
  import opened Wrappers
  import opened Cards
  import opened Sequences

  /** A resource of a listing: its URI and its declared content type, either possibly null. */
  datatype Resource = Resource(uri: Option<string>, contentType: Option<string>)

  /** The outcome of a PROPFIND request. */
  datatype Listing = Unsuccessful | Successful(resources: seq<Resource>)

  const VCardType := "text/vcard"

  /** A child of the requested collection is listed in turn only if its URI is known and is not the requested URI. */
  predicate VisitChild(reqUri: string, res: Resource): (b: bool)
    ensures !b <==> res.uri == None || res.uri == Some(reqUri)
  {
    res.uri.Some? && res.uri.value != reqUri
  }

  /**
   * A resource is fetched as a card only if its content type is known and
   * begins with `text/vcard`, character for character (so upper case does
   * not match).
   */
  predicate IsVCardResource(res: Resource): (b: bool)
    ensures b <==> exists parameters: string :: res.contentType == Some(VCardType + parameters)
  {
    if res.contentType.Some? && StartsWith(res.contentType.value, VCardType) then
      var ct := res.contentType.value;
      assert ct == VCardType + ct[|VCardType|..];
      true
    else
      false
  }

  /** Content-type prefixes are compared case-sensitively. */
  lemma VCardTypeIsCaseSensitive()
    ensures !IsVCardResource(Resource(Some("/book/a.vcf"), Some("Text/VCard")))
    ensures IsVCardResource(Resource(Some("/book/a.vcf"), Some("text/vcard; charset=utf-8")))
  {
    assert "text/vcard; charset=utf-8" == VCardType + "; charset=utf-8";
    assert "Text/VCard"[0] != VCardType[0];
  }

  /** The contacts the cards of one resource yield, in card order. */
  function ContactsOfCards(cards: seq<Card>): (r: seq<Contact>)
  {
    Collect(cards, ContactOf)
  }

  /** The contacts a resource of a collection contributes: none unless it is a vCard resource. */
  function ContactsOfResource(res: Resource, fetchCards: Option<string> -> seq<Card>): (r: seq<Contact>)
  {
    if IsVCardResource(res) then ContactsOfCards(fetchCards(res.uri)) else []
  }

  /** The contacts of the card resources among `books`, in listing order. */
  function ContactsOfBook(books: seq<Resource>, fetchCards: Option<string> -> seq<Card>): (r: seq<Contact>)
  {
    Gather(books, res => ContactsOfResource(res, fetchCards))
  }

  /** A child that is visited and listed successfully. */
  predicate ListedChild(reqUri: string, res: Resource, propfind: string -> Listing)
  {
    VisitChild(reqUri, res) && propfind(res.uri.value).Successful?
  }

  /** The contacts a child of the requested collection contributes: none unless it is visited and listed. */
  function ContactsOfChild(reqUri: string, res: Resource, propfind: string -> Listing,
                           fetchCards: Option<string> -> seq<Card>): (r: seq<Contact>)
  {
    if ListedChild(reqUri, res, propfind) then ContactsOfBook(propfind(res.uri.value).resources, fetchCards) else []
  }

  /** The contacts found under the children of the requested collection, in listing order. */
  function ContactsOfChildren(reqUri: string, children: seq<Resource>, propfind: string -> Listing,
                              fetchCards: Option<string> -> seq<Card>): (r: seq<Contact>)
  {
    Gather(children, res => ContactsOfChild(reqUri, res, propfind, fetchCards))
  }

  /** The last resource of a listing contributes its contacts after those of the resources before it. */
  lemma ContactsOfBookLast(books: seq<Resource>, fetchCards: Option<string> -> seq<Card>)
    requires books != []
    ensures ContactsOfBook(books, fetchCards)
         == ContactsOfBook(books[..|books| - 1], fetchCards) + ContactsOfResource(books[|books| - 1], fetchCards)
  {
  }

  /** The last child contributes its contacts after those of the children before it. */
  lemma ContactsOfChildrenLast(reqUri: string, children: seq<Resource>, propfind: string -> Listing,
                               fetchCards: Option<string> -> seq<Card>)
    requires children != []
    ensures ContactsOfChildren(reqUri, children, propfind, fetchCards)
         == ContactsOfChildren(reqUri, children[..|children| - 1], propfind, fetchCards)
            + ContactsOfChild(reqUri, children[|children| - 1], propfind, fetchCards)
  {
  }

  /** All contacts, or nothing when the requested collection cannot be listed. */
  function Harvest(reqUri: string, root: Listing, propfind: string -> Listing,
                   fetchCards: Option<string> -> seq<Card>): (r: Option<seq<Contact>>)
  {
    match root
    case Unsuccessful => None
    case Successful(children) => Some(ContactsOfChildren(reqUri, children, propfind, fetchCards))
  }

  /** The innermost loop of `Main`: the contacts of the cards of one resource. */
  method ContactsFromCards(vCards: seq<Card>) returns (contacts: seq<Contact>)
    ensures contacts == ContactsOfCards(vCards)
  {
    contacts := [];
    for k := 0 to |vCards|
      invariant contacts == ContactsOfCards(vCards[..k])
    {
      assert vCards[..k + 1][..k] == vCards[..k];
      var card := vCards[k];
      if !HasFirst(card.displayNames) {
        continue;
      }
      if !HasFirst(card.phones) {
        continue;
      }
      var phones := VCardPhonesToPhoneNumbers(card.phones);
      contacts := contacts + [Contact(First(card.displayNames), phones)];
    }
    assert vCards[..|vCards|] == vCards;
  }

  /** The middle loop of `Main`: the contacts of the vCard resources of one collection. */
  method ContactsFromBook(books: seq<Resource>, fetchCards: Option<string> -> seq<Card>) returns (contacts: seq<Contact>)
    ensures contacts == ContactsOfBook(books, fetchCards)
  {
    contacts := [];
    for j := 0 to |books|
      invariant contacts == ContactsOfBook(books[..j], fetchCards)
    {
      assert books[..j + 1][..j] == books[..j];
      var bookRes := books[j];
      if !IsVCardResource(bookRes) {
        continue;
      }
      var vCards := fetchCards(bookRes.uri);
      var found := ContactsFromCards(vCards);
      contacts := contacts + found;
    }
    assert books[..|books|] == books;
  }

  /**
   * The discovery loops of `Main`: nothing when the requested collection
   * cannot be listed, otherwise the contacts of every visited child
   * collection that is listed successfully, in listing order.
   */
  method CollectContacts(reqUri: string, root: Listing, propfind: string -> Listing,
                         fetchCards: Option<string> -> seq<Card>)
    returns (contacts: Option<seq<Contact>>)
    ensures contacts == Harvest(reqUri, root, propfind, fetchCards)
  {
    if root.Unsuccessful? {
      return None;
    }
    var children := root.resources;
    var acc: seq<Contact> := [];
    for i := 0 to |children|
      invariant acc == ContactsOfChildren(reqUri, children[..i], propfind, fetchCards)
    {
      assert children[..i + 1][..i] == children[..i];
      var res := children[i];
      if !VisitChild(reqUri, res) {
        continue;
      }
      var bookResponse := propfind(res.uri.value);
      if bookResponse.Unsuccessful? {
        continue;
      }
      var found := ContactsFromBook(bookResponse.resources, fetchCards);
      acc := acc + found;
    }
    assert children[..|children|] == children;
    contacts := Some(acc);
  }

  /** Contacts keep the order of their cards: the contacts of a concatenation are the concatenated contacts. */
  lemma ContactsOfCardsAppend(a: seq<Card>, b: seq<Card>)
    ensures ContactsOfCards(a + b) == ContactsOfCards(a) + ContactsOfCards(b)
  {
    CollectAppend(a, b, ContactOf);
  }

  /** Every contact of a resource comes from one of its cards. */
  lemma ContactsOfCardsSound(cards: seq<Card>, c: Contact)
    requires c in ContactsOfCards(cards)
    ensures exists k :: 0 <= k < |cards| && ContactOf(cards[k]) == Some(c)
  {
    CollectSound(cards, ContactOf, c);
  }

  /** Every contact taken from a resource has at least one phone number. */
  lemma ContactsOfCardsHavePhones(cards: seq<Card>, c: Contact)
    requires c in ContactsOfCards(cards)
    ensures |c.phones| >= 1
  {
    ContactsOfCardsSound(cards, c);
  }

  /** Every card that has a first name and a first phone contributes its contact. */
  lemma ContactsOfCardsComplete(cards: seq<Card>, k: nat, c: Contact)
    requires k < |cards| && ContactOf(cards[k]) == Some(c)
    ensures c in ContactsOfCards(cards)
  {
    CollectComplete(cards, ContactOf, k, c);
  }

  /** The contacts of a collection come from its vCard resources. */
  lemma ContactsOfBookSound(books: seq<Resource>, fetchCards: Option<string> -> seq<Card>, c: Contact)
    requires c in ContactsOfBook(books, fetchCards)
    ensures exists j :: 0 <= j < |books| && IsVCardResource(books[j]) && c in ContactsOfCards(fetchCards(books[j].uri))
  {
    GatherSound(books, res => ContactsOfResource(res, fetchCards), c);
  }

  /** Every contact of every vCard resource of a collection is among the collection's contacts. */
  lemma ContactsOfBookComplete(books: seq<Resource>, fetchCards: Option<string> -> seq<Card>, j: nat, c: Contact)
    requires j < |books| && IsVCardResource(books[j]) && c in ContactsOfCards(fetchCards(books[j].uri))
    ensures c in ContactsOfBook(books, fetchCards)
  {
    GatherComplete(books, res => ContactsOfResource(res, fetchCards), j, c);
  }

  /**
   * The contacts found come only from child collections that are visited
   * (known URI, not the requested one) and listed successfully.
   */
  lemma ContactsOfChildrenSound(reqUri: string, children: seq<Resource>, propfind: string -> Listing,
                                fetchCards: Option<string> -> seq<Card>, c: Contact)
    requires c in ContactsOfChildren(reqUri, children, propfind, fetchCards)
    ensures exists i :: 0 <= i < |children| && ListedChild(reqUri, children[i], propfind)
                        && c in ContactsOfBook(propfind(children[i].uri.value).resources, fetchCards)
  {
    GatherSound(children, res => ContactsOfChild(reqUri, res, propfind, fetchCards), c);
  }

  /** Every contact of every visited, successfully listed child collection is found. */
  lemma ContactsOfChildrenComplete(reqUri: string, children: seq<Resource>, propfind: string -> Listing,
                                   fetchCards: Option<string> -> seq<Card>, i: nat, c: Contact)
    requires i < |children| && ListedChild(reqUri, children[i], propfind)
    requires c in ContactsOfBook(propfind(children[i].uri.value).resources, fetchCards)
    ensures c in ContactsOfChildren(reqUri, children, propfind, fetchCards)
  {
    GatherComplete(children, res => ContactsOfChild(reqUri, res, propfind, fetchCards), i, c);
  }
}
