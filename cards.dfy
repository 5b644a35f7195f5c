/**
 * The records of the program (`Program.Contact`, `Program.PhoneNumber`), the
 * decoded contact cards they are built from, the phone label derivation of
 * `VCardPhonesToPhoneNumbers` and the rule that turns one decoded card into at
 * most one contact.
 */
module Cards {
  import opened Wrappers

  /**
   * The phone-type parameter of a telephone property, reduced to what the
   * label derivation tells apart: exactly `Voice`, exactly `Cell`, and
   * anything else (absent, another type, or a combination of flags).
   */
  datatype PhoneKind = Voice | Cell | OtherKind

  /** The property-class parameter: exactly `Home`, exactly `Work`, or anything else. */
  datatype PropertyClass = Home | Work | OtherClass

  /** A decoded telephone property: its value and its two parameters. */
  datatype Phone = Phone(value: string, kind: PhoneKind, propertyClass: PropertyClass)

  /**
   * A decoded card, as far as the program looks at it: the display-name
   * values and the telephone properties. Either list may be absent, and any
   * entry of either list may be null.
   */
  datatype Card = Card(displayNames: Option<seq<Option<string>>>, phones: Option<seq<Option<Phone>>>)

  datatype PhoneNumber = PhoneNumber(number: string, phoneType: string)

  datatype Contact = Contact(name: string, phones: seq<PhoneNumber>)

  /** The first part of a label, chosen by the phone type. */
  function KindToken(k: PhoneKind): (r: string)
  {
    match k
    case Voice => ""
    case Cell => "Mobil"
    case OtherKind => ""
  }

  /** The second part of a label, chosen by the property class. */
  function ClassToken(c: PropertyClass): (r: string)
  {
    match c
    case Home => "Privat"
    case Work => "Geschäftl."
    case OtherClass => ""
  }

  /**
   * The label of a phone: the type token, then always one space, then the
   * class token. It is never empty and has exactly one space, right after
   * the type token.
   */
  function Label(k: PhoneKind, c: PropertyClass): (l: string)
    ensures |l| >= 1
    ensures forall i :: 0 <= i < |l| ==> (l[i] == ' ' <==> i == |KindToken(k)|)
  {
    KindToken(k) + " " + ClassToken(c)
  }

  /** The label table at the corners of the Cartesian product. */
  lemma LabelTable()
    ensures Label(Voice, Home) == " Privat"
    ensures Label(Cell, Work) == "Mobil Geschäftl."
    ensures Label(OtherKind, OtherClass) == " "
    ensures Label(Cell, OtherClass) == "Mobil "
  {
  }

  /**
   * Two phones get the same label exactly when both or neither are cells
   * and their property classes agree: the label loses only the difference
   * between `Voice` and the other kinds.
   */
  lemma LabelSameIff(k1: PhoneKind, c1: PropertyClass, k2: PhoneKind, c2: PropertyClass)
    ensures Label(k1, c1) == Label(k2, c2) <==> ((k1 == Cell) == (k2 == Cell) && c1 == c2)
  {
    var l1, l2 := Label(k1, c1), Label(k2, c2);
    if l1 == l2 {
      var n1, n2 := |KindToken(k1)|, |KindToken(k2)|;
      assert l1[n1] == ' ';
      assert n1 == n2;
      assert l1[..n1] == KindToken(k1) && l2[..n2] == KindToken(k2);
      assert l1[n1 + 1..] == ClassToken(c1) && l2[n2 + 1..] == ClassToken(c2);
    }
  }

  /** One phone property converted to a phone number. */
  function ToPhoneNumber(p: Phone): (r: PhoneNumber)
    ensures r.number == p.value
    ensures |KindToken(p.kind)| < |r.phoneType| && r.phoneType[|KindToken(p.kind)|] == ' '
  {
    PhoneNumber(p.value, Label(p.kind, p.propertyClass))
  }

  /**
   * Two phones become the same phone number exactly when they have the same
   * value, both or neither are cells, and their property classes agree.
   */
  lemma ToPhoneNumberSameIff(p: Phone, q: Phone)
    ensures ToPhoneNumber(p) == ToPhoneNumber(q)
        <==> p.value == q.value && (p.kind == Cell) == (q.kind == Cell) && p.propertyClass == q.propertyClass
  {
    LabelSameIff(p.kind, p.propertyClass, q.kind, q.propertyClass);
  }

  /** The non-null entries of `xs`, in their order. */
  function Present<T>(xs: seq<Option<T>>): (r: seq<T>)
  {
    if xs == [] then []
    else (if xs[0].Some? then [xs[0].value] else []) + Present(xs[1..])
  }

  lemma {:induction false} PresentAppend<T>(a: seq<Option<T>>, b: seq<Option<T>>)
    ensures Present(a + b) == Present(a) + Present(b)
  {
    if a == [] {
      assert a + b == b;
    } else {
      var head := if a[0].Some? then [a[0].value] else [];
      assert (a + b)[0] == a[0];
      assert (a + b)[1..] == a[1..] + b;
      assert Present(a + b) == head + Present(a[1..] + b);
      PresentAppend(a[1..], b);
      assert Present(a) == head + Present(a[1..]);
    }
  }

  /** `Present` keeps exactly the non-null entries. */
  lemma {:induction false} PresentMembers<T>(xs: seq<Option<T>>, x: T)
    ensures x in Present(xs) <==> Some(x) in xs
  {
    if xs != [] {
      PresentMembers(xs[1..], x);
      assert xs == [xs[0]] + xs[1..];
    }
  }

  /** Converts every non-null phone of `ps`, in order. */
  function ConvertPhones(ps: seq<Option<Phone>>): (r: seq<PhoneNumber>)
    ensures |r| == |Present(ps)|
    ensures forall i :: 0 <= i < |r| ==> r[i] == ToPhoneNumber(Present(ps)[i])
  {
    if ps == [] then []
    else (if ps[0].Some? then [ToPhoneNumber(ps[0].value)] else []) + ConvertPhones(ps[1..])
  }

  /**
   * The phone numbers of a card: none when its phone list is absent,
   * otherwise one per non-null phone, in order, with that phone's value
   * as number and its label as type.
   */
  function PhoneNumbersOf(phones: Option<seq<Option<Phone>>>): (r: seq<PhoneNumber>)
    ensures phones.None? ==> r == []
    ensures phones.Some? ==> |r| == |Present(phones.value)|
    ensures phones.Some? ==> forall i :: 0 <= i < |r| ==>
              r[i].number == Present(phones.value)[i].value
              && r[i].phoneType == Label(Present(phones.value)[i].kind, Present(phones.value)[i].propertyClass)
  {
    match phones
    case None => []
    case Some(ps) => ConvertPhones(ps)
  }

  /**
   * `VCardPhonesToPhoneNumbers`: one phone number per non-null phone of the
   * card, in the card's order, each carrying the phone's value and label.
   */
  method VCardPhonesToPhoneNumbers(phones: Option<seq<Option<Phone>>>) returns (r: seq<PhoneNumber>)
    ensures r == PhoneNumbersOf(phones)
  {
    r := [];
    if phones.None? {
      return;
    }
    var ps := phones.value;
    for i := 0 to |ps|
      invariant |r| == |Present(ps[..i])|
      invariant forall j :: 0 <= j < |r| ==> r[j] == ToPhoneNumber(Present(ps[..i])[j])
    {
      PresentAppend(ps[..i], [ps[i]]);
      assert ps[..i + 1] == ps[..i] + [ps[i]];
      if ps[i].None? {
        continue;
      }
      var phone := ps[i].value;
      var phoneType := KindToken(phone.kind);
      phoneType := phoneType + " ";
      phoneType := phoneType + ClassToken(phone.propertyClass);
      r := r + [PhoneNumber(phone.value, phoneType)];
    }
    assert ps[..|ps|] == ps;
  }

  /**
   * `xs?.FirstOrDefault()`: null when the list is absent or empty, otherwise
   * its first entry (which may itself be null).
   */
  function FirstOrDefault<T>(xs: Option<seq<Option<T>>>): (r: Option<T>)
  {
    match xs
    case None => None
    case Some(entries) => if entries == [] then None else entries[0]
  }

  /** The list exists, is not empty, and its first entry is not null. */
  predicate HasFirst<T>(xs: Option<seq<Option<T>>>): (b: bool)
    ensures b <==> FirstOrDefault(xs) != None
  {
    xs.Some? && |xs.value| > 0 && xs.value[0].Some?
  }

  /** `xs.First()!`, where the test before it has ruled out null. */
  function First<T>(xs: Option<seq<Option<T>>>): (r: T)
    requires HasFirst(xs)
    ensures FirstOrDefault(xs) == Some(r)
  {
    xs.value[0].value
  }

  /**
   * The contact a card yields, if any: none unless the card has a first
   * display name and a first phone; otherwise one contact named by the first
   * display name, whose phones are the card's non-null phones in order, and
   * so at least one, led by the first phone.
   */
  function ContactOf(card: Card): (r: Option<Contact>)
    ensures r.Some? <==> HasFirst(card.displayNames) && HasFirst(card.phones)
    ensures r.Some? ==> r.value.name == First(card.displayNames)
    ensures r.Some? ==> r.value.phones == PhoneNumbersOf(card.phones)
    ensures r.Some? ==> |r.value.phones| >= 1 && r.value.phones[0] == ToPhoneNumber(First(card.phones))
  {
    if !HasFirst(card.displayNames) || !HasFirst(card.phones) then None
    else
      var ps := card.phones.value;
      assert ps == [ps[0]] + ps[1..];
      PresentAppend([ps[0]], ps[1..]);
      Some(Contact(First(card.displayNames), PhoneNumbersOf(card.phones)))
  }

  /**
   * The filter looks at the first phone entry only: a card whose first phone
   * entry is null yields no contact even when a later entry is a phone.
   */
  lemma NullFirstPhoneDropsCard(name: string, p: Phone)
    ensures ContactOf(Card(Some([Some(name)]), Some([None, Some(p)]))).None?
  {
  }
}
