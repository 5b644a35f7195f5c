/**
 * `GenerateYealinkPhonebookXml`: the phonebook document for a Yealink desk
 * phone, as the sequence of lines the program writes, and a reader for such
 * documents that shows the text written can be read back.
 */
module Phonebook {
  import opened Wrappers
  import opened XmlEscape
  import opened Cards

  const RootOpen := "<YealinkIPPhoneDirectory>"
  const RootClose := "</YealinkIPPhoneDirectory>"
  const EntryOpen := "  <DirectoryEntry>"
  const EntryClose := "  </DirectoryEntry>"
  const NameOpen := "    <Name>"
  const NameClose := "</Name>"
  const TelephoneOpen := "    <Telephone>"
  const TelephoneClose := "</Telephone>"

  function NameLine(name: string): (r: string)
  {
    NameOpen + Escape(name) + NameClose
  }

  function TelephoneLine(number: string): (r: string)
  {
    TelephoneOpen + Escape(number) + TelephoneClose
  }

  /** One `Telephone` line per phone number, in order. */
  function TelephoneLines(phones: seq<PhoneNumber>): (lines: seq<string>)
    ensures |lines| == |phones|
    ensures forall j :: 0 <= j < |phones| ==> lines[j] == TelephoneLine(phones[j].number)
  {
    if phones == [] then [] else [TelephoneLine(phones[0].number)] + TelephoneLines(phones[1..])
  }

  /** The block of one contact: its opening tag, one `Name` line, its `Telephone` lines, its closing tag. */
  function EntryLines(c: Contact): (lines: seq<string>)
  {
    [EntryOpen, NameLine(c.name)] + TelephoneLines(c.phones) + [EntryClose]
  }

  /** The blocks of all contacts, in list order. */
  function EntriesLines(contacts: seq<Contact>): (r: seq<string>)
  {
    if contacts == [] then [] else EntryLines(contacts[0]) + EntriesLines(contacts[1..])
  }

  function Document(contacts: seq<Contact>): (r: seq<string>)
  {
    [RootOpen] + EntriesLines(contacts) + [RootClose]
  }

  /** The number of lines between the root tags: three per contact plus one per phone. */
  function LineCount(contacts: seq<Contact>): (r: nat)
  {
    if contacts == [] then 0 else 3 + |contacts[0].phones| + LineCount(contacts[1..])
  }

  lemma AppendAssoc<T>(a: seq<T>, b: seq<T>, c: seq<T>)
    ensures a + b + c == a + (b + c)
  {
  }

  /** The layout of an entry block followed by more lines, for any element type. */
  lemma BlockLayout<T>(a: T, b: T, t: seq<T>, d: T, e: seq<T>)
    ensures var s := [a, b] + t + [d] + e;
            |s| == 3 + |t| + |e| && s[0] == a && s[1] == b && s[2..] == t + ([d] + e)
            && (forall j :: 0 <= j < |t| ==> s[2 + j] == t[j]) && s[2 + |t|] == d
  {
    var s := [a, b] + t + [d] + e;
    assert s[2..] == t + ([d] + e);
  }

  /** The layout of a block of two lines, some lines and a last line, for any element type. */
  lemma BlockShape<T>(a: T, b: T, t: seq<T>, d: T)
    ensures var s := [a, b] + t + [d];
            |s| == 3 + |t| && s[0] == a && s[1] == b
            && (forall j :: 0 <= j < |t| ==> s[2 + j] == t[j]) && s[2 + |t|] == d
  {
  }

  /** Where the middle part of x + p + b + q + y stands, for any element type. */
  lemma MiddleLayout<T>(x: T, p: seq<T>, b: seq<T>, q: seq<T>, y: T)
    ensures var s := [x] + p + b + q + [y];
            |s| == 2 + |p| + |b| + |q| && s[1 + |p|..1 + |p| + |b|] == b
  {
    var s := [x] + p + b + q + [y];
    assert s == ([x] + p) + b + (q + [y]);
  }

  lemma {:induction false} EntriesLinesAppend(a: seq<Contact>, b: seq<Contact>)
    ensures EntriesLines(a + b) == EntriesLines(a) + EntriesLines(b)
    ensures LineCount(a + b) == LineCount(a) + LineCount(b)
  {
    if a == [] {
      assert a + b == b;
    } else {
      assert (a + b)[1..] == a[1..] + b;
      EntriesLinesAppend(a[1..], b);
    }
  }

  lemma {:induction false} EntriesLinesLength(contacts: seq<Contact>)
    ensures |EntriesLines(contacts)| == LineCount(contacts)
  {
    if contacts != [] {
      EntriesLinesLength(contacts[1..]);
    }
  }

  lemma EntriesLinesSnoc(contacts: seq<Contact>, i: nat)
    requires i < |contacts|
    ensures EntriesLines(contacts[..i + 1]) == EntriesLines(contacts[..i]) + EntryLines(contacts[i])
  {
    EntriesLinesAppend(contacts[..i], [contacts[i]]);
    assert contacts[..i + 1] == contacts[..i] + [contacts[i]];
    assert EntriesLines([contacts[i]]) == EntryLines(contacts[i]) + EntriesLines([]);
  }

  lemma TelephoneLinesSnoc(phones: seq<PhoneNumber>, j: nat)
    requires j < |phones|
    ensures TelephoneLines(phones[..j + 1]) == TelephoneLines(phones[..j]) + [TelephoneLine(phones[j].number)]
  {
  }

  lemma EntryLinesAfter(pre: seq<string>, c: Contact)
    ensures pre + [EntryOpen] + [NameLine(c.name)] + TelephoneLines(c.phones) + [EntryClose] == pre + EntryLines(c)
  {
  }

  /**
   * The body of the contact loop of `GenerateYealinkPhonebookXml`: appends
   * the entry of one contact to the lines written so far.
   */
  method WriteDirectoryEntry(written: seq<string>, contact: Contact) returns (lines: seq<string>)
    ensures lines == written + EntryLines(contact)
  {
    lines := written + [EntryOpen];
    lines := lines + [NameLine(contact.name)];
    ghost var head := lines;
    for j := 0 to |contact.phones|
      invariant lines == head + TelephoneLines(contact.phones[..j])
    {
      TelephoneLinesSnoc(contact.phones, j);
      lines := lines + [TelephoneLine(contact.phones[j].number)];
    }
    assert contact.phones[..|contact.phones|] == contact.phones;
    lines := lines + [EntryClose];
    EntryLinesAfter(written, contact);
  }

  /**
   * `GenerateYealinkPhonebookXml`: writes the root tag, then per contact an
   * entry with its name and one telephone per phone number, then the
   * closing root tag.
   */
  method GenerateYealinkPhonebookXml(contacts: seq<Contact>) returns (lines: seq<string>)
    ensures lines == Document(contacts)
  {
    lines := [RootOpen];
    for i := 0 to |contacts|
      invariant lines == [RootOpen] + EntriesLines(contacts[..i])
    {
      lines := WriteDirectoryEntry(lines, contacts[i]);
      EntriesLinesSnoc(contacts, i);
      AppendAssoc([RootOpen], EntriesLines(contacts[..i]), EntryLines(contacts[i]));
    }
    assert contacts[..|contacts|] == contacts;
    lines := lines + [RootClose];
  }

  /**
   * The document opens and closes with the root tags and has
   * 2 + the sum over the contacts of (3 + number of phones) lines.
   */
  lemma DocumentShape(contacts: seq<Contact>)
    ensures |Document(contacts)| == 2 + LineCount(contacts)
    ensures Document(contacts)[0] == RootOpen
    ensures Document(contacts)[|Document(contacts)| - 1] == RootClose
  {
    EntriesLinesLength(contacts);
  }

  /** The blocks of the contacts before `k`, then the block of contact `k`, then the rest. */
  lemma EntriesLinesSplit(contacts: seq<Contact>, k: nat)
    requires k < |contacts|
    ensures EntriesLines(contacts)
         == EntriesLines(contacts[..k]) + (EntryLines(contacts[k]) + EntriesLines(contacts[k + 1..]))
  {
    var c := contacts[k];
    var before, after := contacts[..k], contacts[k + 1..];
    SeqSplit(contacts, k);
    EntriesLinesAppend(before, [c] + after);
    EntriesLinesCons(c, after);
  }

  lemma SeqSplit<T>(s: seq<T>, k: nat)
    requires k < |s|
    ensures s == s[..k] + ([s[k]] + s[k + 1..])
  {
  }

  lemma EntriesLinesCons(c: Contact, after: seq<Contact>)
    ensures EntriesLines([c] + after) == EntryLines(c) + EntriesLines(after)
  {
    assert ([c] + after)[1..] == after;
  }

  lemma Regroup<T>(x: T, p: seq<T>, q: seq<T>, r: seq<T>, y: T)
    ensures [x] + (p + (q + r)) + [y] == [x] + p + q + r + [y]
  {
  }

  lemma DocumentSplit(contacts: seq<Contact>, k: nat)
    requires k < |contacts|
    ensures Document(contacts) == [RootOpen] + EntriesLines(contacts[..k]) + EntryLines(contacts[k])
                                  + EntriesLines(contacts[k + 1..]) + [RootClose]
    ensures |EntriesLines(contacts[..k])| == LineCount(contacts[..k])
  {
    EntriesLinesSplit(contacts, k);
    EntriesLinesLength(contacts[..k]);
    Regroup(RootOpen, EntriesLines(contacts[..k]), EntryLines(contacts[k]), EntriesLines(contacts[k + 1..]), RootClose);
  }

  /**
   * The block of contact `k` stands, complete and contiguous, right after the
   * blocks of the contacts before it: one entry per contact, in list order.
   */
  lemma DocumentEntry(contacts: seq<Contact>, k: nat)
    requires k < |contacts|
    ensures var start := 1 + LineCount(contacts[..k]);
            start + 3 + |contacts[k].phones| <= |Document(contacts)|
            && Document(contacts)[start..start + 3 + |contacts[k].phones|] == EntryLines(contacts[k])
  {
    var before, block, after := EntriesLines(contacts[..k]), EntryLines(contacts[k]), EntriesLines(contacts[k + 1..]);
    DocumentSplit(contacts, k);
    assert |block| == 3 + |contacts[k].phones|;
    MiddleLayout(RootOpen, before, block, after, RootClose);
  }

  /**
   * Inside an entry block the `Name` line comes first and then one
   * `Telephone` line per phone, in the contact's order.
   */
  lemma EntryShape(c: Contact)
    ensures var block := EntryLines(c);
            |block| == 3 + |c.phones|
            && block[0] == EntryOpen
            && block[1] == NameLine(c.name)
            && (forall j :: 0 <= j < |c.phones| ==> block[2 + j] == TelephoneLine(c.phones[j].number))
            && block[2 + |c.phones|] == EntryClose
  {
    BlockShape(EntryOpen, NameLine(c.name), TelephoneLines(c.phones), EntryClose);
  }

  /** What a reader of the document sees of a contact: its name and its numbers (labels are not written). */
  datatype Entry = Entry(name: string, numbers: seq<string>)

  function Numbers(phones: seq<PhoneNumber>): (r: seq<string>)
    ensures |r| == |phones| && forall j :: 0 <= j < |phones| ==> r[j] == phones[j].number
  {
    if phones == [] then [] else [phones[0].number] + Numbers(phones[1..])
  }

  function Shown(contacts: seq<Contact>): (r: seq<Entry>)
    ensures |r| == |contacts|
    ensures forall k :: 0 <= k < |contacts| ==> r[k] == Entry(contacts[k].name, Numbers(contacts[k].phones))
  {
    if contacts == [] then [] else [Entry(contacts[0].name, Numbers(contacts[0].phones))] + Shown(contacts[1..])
  }

  /** The text between `open` and `close` on a line of the form open + text + close. */
  function Between(line: string, open: string, close: string): (r: Option<string>)
  {
    if |open| + |close| <= |line| && line[..|open|] == open && line[|line| - |close|..] == close
    then Some(line[|open|..|line| - |close|])
    else None
  }

  lemma BetweenOf(open: string, text: string, close: string)
    ensures Between(open + text + close, open, close) == Some(text)
  {
    var line := open + text + close;
    assert line[..|open|] == open;
    assert line[|line| - |close|..] == close;
    assert line[|open|..|line| - |close|] == text;
  }

  function ReadName(line: string): (r: Option<string>)
  {
    match Between(line, NameOpen, NameClose)
    case None => None
    case Some(text) => Some(Unescape(text))
  }

  function ReadTelephone(line: string): (r: Option<string>)
  {
    match Between(line, TelephoneOpen, TelephoneClose)
    case None => None
    case Some(text) => Some(Unescape(text))
  }

  /** The numbers of the leading `Telephone` lines, and the lines after them. */
  function ReadTelephones(lines: seq<string>): (r: (seq<string>, seq<string>))
    ensures |r.1| <= |lines|
  {
    if lines == [] || ReadTelephone(lines[0]).None? then ([], lines)
    else
      var rest := ReadTelephones(lines[1..]);
      ([ReadTelephone(lines[0]).value] + rest.0, rest.1)
  }

  /** Reads a sequence of entry blocks; None if the lines are not such a sequence. */
  function ReadEntries(lines: seq<string>): (r: Option<seq<Entry>>)
    decreases |lines|
  {
    if lines == [] then Some([])
    else if |lines| < 2 || lines[0] != EntryOpen || ReadName(lines[1]).None? then None
    else
      var (numbers, rest) := ReadTelephones(lines[2..]);
      if rest == [] || rest[0] != EntryClose then None
      else match ReadEntries(rest[1..])
        case None => None
        case Some(entries) => Some([Entry(ReadName(lines[1]).value, numbers)] + entries)
  }

  /** Reads a phonebook document; None if the lines are not one. */
  function ReadDocument(lines: seq<string>): (r: Option<seq<Entry>>)
  {
    if |lines| >= 2 && lines[0] == RootOpen && lines[|lines| - 1] == RootClose
    then ReadEntries(lines[1..|lines| - 1])
    else None
  }

  lemma ReadNameLine(name: string)
    ensures ReadName(NameLine(name)) == Some(name)
  {
    BetweenOf(NameOpen, Escape(name), NameClose);
    UnescapeEscape(name);
  }

  lemma ReadTelephoneLine(number: string)
    ensures ReadTelephone(TelephoneLine(number)) == Some(number)
  {
    BetweenOf(TelephoneOpen, Escape(number), TelephoneClose);
    UnescapeEscape(number);
  }

  lemma ReadTelephonesStep(line: string, more: seq<string>)
    requires ReadTelephone(line).Some?
    ensures ReadTelephones([line] + more)
         == ([ReadTelephone(line).value] + ReadTelephones(more).0, ReadTelephones(more).1)
  {
    assert ([line] + more)[1..] == more;
  }

  lemma {:induction false} ReadTelephonesOf(phones: seq<PhoneNumber>, rest: seq<string>)
    requires rest != [] && rest[0] == EntryClose
    ensures ReadTelephones(TelephoneLines(phones) + rest) == (Numbers(phones), rest)
  {
    var lines := TelephoneLines(phones) + rest;
    if phones == [] {
      assert lines == rest;
      assert ReadTelephone(EntryClose).None?;
    } else {
      ReadTelephoneLine(phones[0].number);
      assert lines == [TelephoneLine(phones[0].number)] + (TelephoneLines(phones[1..]) + rest);
      ReadTelephonesStep(TelephoneLine(phones[0].number), TelephoneLines(phones[1..]) + rest);
      ReadTelephonesOf(phones[1..], rest);
    }
  }

  /** Reading one entry block off the front of `lines`. */
  lemma ReadEntriesStep(lines: seq<string>, name: string, numbers: seq<string>, after: seq<string>)
    requires |lines| >= 2 && lines[0] == EntryOpen && ReadName(lines[1]) == Some(name)
    requires ReadTelephones(lines[2..]) == (numbers, [EntryClose] + after)
    requires ReadEntries(after).Some?
    ensures ReadEntries(lines) == Some([Entry(name, numbers)] + ReadEntries(after).value)
  {
    assert ([EntryClose] + after)[1..] == after;
  }

  lemma {:induction false} ReadEntriesOf(contacts: seq<Contact>)
    ensures ReadEntries(EntriesLines(contacts)) == Some(Shown(contacts))
  {
    if contacts != [] {
      var c := contacts[0];
      var after := EntriesLines(contacts[1..]);
      var lines := EntriesLines(contacts);
      var rest := [EntryClose] + after;
      BlockLayout(EntryOpen, NameLine(c.name), TelephoneLines(c.phones), EntryClose, after);
      ReadNameLine(c.name);
      ReadTelephonesOf(c.phones, rest);
      ReadEntriesOf(contacts[1..]);
      ReadEntriesStep(lines, c.name, Numbers(c.phones), after);
      assert Shown(contacts) == [Entry(c.name, Numbers(c.phones))] + Shown(contacts[1..]);
    }
  }

  /**
   * The document can be read back: every contact's name and every number,
   * whatever characters they hold, in their order.
   */
  lemma ReadDocumentOf(contacts: seq<Contact>)
    ensures ReadDocument(Document(contacts)) == Some(Shown(contacts))
  {
    var doc := Document(contacts);
    assert doc[1..|doc| - 1] == EntriesLines(contacts);
    ReadEntriesOf(contacts);
  }
}
