/**
 * `parse_contacts`: every line of the contacts file that splits on commas
 * into exactly two pieces becomes `"<name> <<email>>"`; every other line is
 * dropped without a word.
 */
module Contacts {
  import opened Wrappers
  import opened Text

  /** What one line contributes: the formatted address, or nothing when the unpack fails. */
  function ContactOf(line: string): Option<string> {
    var parts := Split(line);
    if |parts| == 2 then Some(Strip(parts[0]) + " <" + Strip(parts[1]) + ">") else None
  }

  function Contribution(line: string): seq<string> {
    match ContactOf(line)
    case Some(c) => [c]
    case None => []
  }

  /** The list built by the parser's loop over `lines`, in line order. */
  function ContactsOf(lines: seq<string>): (contacts: seq<string>)
    ensures |contacts| <= |lines|
  {
    if lines == [] then []
    else ContactsOf(lines[..|lines| - 1]) + Contribution(lines[|lines| - 1])
  }

  /** `parse_contacts(contacts_file)`, given the text of the file. */
  method ParseContacts(text: string) returns (contacts: seq<string>)
    ensures contacts == ContactsOf(ReadLines(text))
    ensures |contacts| <= |ReadLines(text)|
  {
    var lines := ReadLines(text);
    contacts := [];
    for i := 0 to |lines|
      invariant contacts == ContactsOf(lines[..i])
    {
      var line := lines[i];
      ContactsOfStep(lines, i);
      if line == "" {
        BlankLinesDropped();
        continue;
      }
      var parts := Split(line);
      if |parts| == 2 {
        contacts := contacts + [Strip(parts[0]) + " <" + Strip(parts[1]) + ">"];
      }
    }
    assert lines[..|lines|] == lines;
  }

  /** One more line adds that line's contribution at the end. */
  lemma ContactsOfStep(lines: seq<string>, i: int)
    requires 0 <= i < |lines|
    ensures ContactsOf(lines[..i + 1]) == ContactsOf(lines[..i]) + Contribution(lines[i])
  {
    assert lines[..i + 1][..i] == lines[..i];
  }

  /** A line yields a contact exactly when it holds one comma. */
  lemma ContactIffOneComma(line: string)
    ensures ContactOf(line).Some? <==> Count(line, ',') == 1
  {
    SplitCount(line);
  }

  /**
   * A line `name + "," + email` with no other comma yields
   * `"<name stripped> <<email stripped>>"`.
   */
  lemma ContactFormat(name: string, email: string)
    requires ',' !in name && ',' !in email
    ensures ContactOf(name + "," + email) == Some(Strip(name) + " <" + Strip(email) + ">")
  {
    SplitAfterHead(name, email);
    SplitNoComma(email);
  }

  /** A blank line, with or without its newline, contributes nothing. */
  lemma BlankLinesDropped()
    ensures ContactOf("\n") == None
    ensures ContactOf("") == None
  {
    assert Split("\n") == ["\n"] by { SplitNoComma("\n"); }
    assert Split("") == [""];
  }

  /** A contact never holds a comma, so the comma-joined recipient list splits back into it. */
  lemma ContactHasNoComma(line: string)
    requires ContactOf(line).Some?
    ensures ',' !in ContactOf(line).value
  {
    var parts := Split(line);
    SplitPiecesHaveNoComma(line);
    NoCommaInSlice(parts[0]);
    NoCommaInSlice(parts[1]);
  }

  lemma NoCommaInSlice(s: string)
    requires ',' !in s
    ensures ',' !in Strip(s)
  {
  }

  /** The parser handles lines one by one: the result for a concatenation is the concatenation. */
  lemma {:induction false} ContactsOfAppend(a: seq<string>, b: seq<string>)
    ensures ContactsOf(a + b) == ContactsOf(a) + ContactsOf(b)
    decreases |b|
  {
    if b != [] {
      var b' := b[..|b| - 1];
      assert (a + b)[..|a + b| - 1] == a + b';
      ContactsOfAppend(a, b');
    } else {
      assert a + b == a;
    }
  }

  /** Every contact comes from a line, so none holds a comma. */
  lemma {:induction false} ContactsHaveNoComma(lines: seq<string>)
    ensures forall k :: 0 <= k < |ContactsOf(lines)| ==> ',' !in ContactsOf(lines)[k]
  {
    if lines != [] {
      ContactsHaveNoComma(lines[..|lines| - 1]);
      var last := lines[|lines| - 1];
      if ContactOf(last).Some? {
        ContactHasNoComma(last);
      }
    }
  }

  /**
   * The recipient string `",".join(contacts)` names exactly the contacts:
   * splitting it on commas gives them back, in order.
   */
  lemma RecipientsRoundTrip(lines: seq<string>)
    requires ContactsOf(lines) != []
    ensures Split(Join(ContactsOf(lines))) == ContactsOf(lines)
  {
    ContactsHaveNoComma(lines);
    SplitJoin(ContactsOf(lines));
  }

  /**
   * A line that does not hold exactly one comma (no comma at all, or several)
   * is dropped, not passed through: the contacts are those of the other lines.
   */
  lemma MalformedLineDropped(before: seq<string>, bad: string, after: seq<string>)
    requires Count(bad, ',') != 1
    ensures ContactsOf(before + [bad] + after) == ContactsOf(before) + ContactsOf(after)
  {
    DroppedAlone(bad);
    ContactsOfAppend(before + [bad], after);
    ContactsOfAppend(before, [bad]);
  }

  lemma DroppedAlone(bad: string)
    requires Count(bad, ',') != 1
    ensures ContactsOf([bad]) == []
  {
    ContactIffOneComma(bad);
    assert [bad][..0] == [];
  }
}
