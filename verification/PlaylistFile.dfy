/**
 A whole playlist file (common/playlist.hpp, host/make_playlist.py): the board reads its
 bytes in any pieces through one line buffer, the host splits the whole text; both give
 the same items or name the same first refusal and line.
 */
module PlaylistFile {
  import opened Words
  import opened Texts
  import opened PlaylistLine

  const MAX_ITEMS: nat := 256
  const MAX_FILE_BYTES: nat := 262144
  const LINE_FEED: char := '\n'
  const CARRIAGE_RETURN: char := '\r'

  datatype FileResult = Items(items: seq<Item>) | Refusal(code: Code, line: nat)

  /** The characters of a file's bytes. */
  function Chars(bytes: Bytes): (text: string)
    ensures |text| == |bytes|
  {
    seq(|bytes|, i requires 0 <= i < |bytes| => bytes[i] as char)
  }

  function DropReturn(line: string): string {
    if line != "" && line[|line| - 1] == CARRIAGE_RETURN then line[..|line| - 1] else line
  }

  predicate HasTag(items: seq<Item>, item: Item) {
    item.tag.Some? && exists i :: 0 <= i < |items| && items[i].tag == item.tag
  }

  /** One more item, unless there are too many or its label is another's. */
  function AddItem(items: seq<Item>, item: Item): Outcome<seq<Item>> {
    if |items| >= MAX_ITEMS then Bad(TooMany) else if HasTag(items, item) then Bad(LabelDuplicate) else Fine(items + [item])
  }

  /** What line `number` makes of the items before it. */
  ghost function TakeLine(items: seq<Item>, raw: string, number: nat, usb: bool): FileResult {
    if |raw| > MAX_LINE_CHARS then Refusal(LineTooLong, number)
    else
      match ParseLine(DropReturn(raw), number, usb)
      case Nothing => Items(items)
      case Refused(code) => Refusal(code, number)
      case Got(item) =>
        match AddItem(items, item)
        case Fine(more) => Items(more)
        case Bad(code) => Refusal(code, number)
  }

  /** The lines in their order, up to the first refusal. */
  ghost function TakeLines(lines: seq<string>, usb: bool): FileResult {
    if lines == [] then Items([])
    else
      match TakeLines(lines[..|lines| - 1], usb)
      case Items(items) => TakeLine(items, lines[|lines| - 1], |lines|, usb)
      case refusal => refusal
  }

  /** parse_bytes: the whole text split at its line feeds, an empty last piece left out. */
  ghost function ParseFile(text: string, usb: bool): FileResult {
    if |text| > MAX_FILE_BYTES then Refusal(TooLarge, 0)
    else
      var pieces := Split(text, LINE_FEED);
      var lines := if pieces[|pieces| - 1] == "" then pieces[..|pieces| - 1] else pieces;
      var result := TakeLines(lines, usb);
      if result == Items([]) then Refusal(Empty, 0) else result
  }

  // Lines, one character at a time.

  /** The lines a text has completed, and what it has of the next. */
  function Complete(text: string): seq<string> {
    var pieces := Split(text, LINE_FEED);
    pieces[..|pieces| - 1]
  }

  function Tail(text: string): string {
    var pieces := Split(text, LINE_FEED);
    pieces[|pieces| - 1]
  }

  lemma {:induction false} SplitGrows(text: string, c: char)
    ensures var pieces, more := Split(text, LINE_FEED), Split(text + [c], LINE_FEED);
            more == if c == LINE_FEED then pieces + [""] else pieces[..|pieces| - 1] + [pieces[|pieces| - 1] + [c]]
    decreases |text|
  {
    var at := Find(text, LINE_FEED);
    var longer := text + [c];
    hide Find, Split;
    if at.None? {
      SplitWhole(text, LINE_FEED);
      if c == LINE_FEED {
        SplitAt(longer, LINE_FEED, |text|);
        assert longer[..|text|] == text && longer[|text| + 1..] == "";
        SplitWhole("", LINE_FEED);
      } else {
        SplitWhole(longer, LINE_FEED);
      }
    } else {
      var rest := text[at.value + 1..];
      SplitGrows(rest, c);
      SplitAt(text, LINE_FEED, at.value);
      assert longer[..at.value] == text[..at.value] && longer[at.value + 1..] == rest + [c];
      SplitAt(longer, LINE_FEED, at.value);
    }
  }

  /** Another character ends the line, or joins it. */
  lemma NextChar(text: string, c: char)
    ensures c == LINE_FEED ==> Complete(text + [c]) == Complete(text) + [Tail(text)] && Tail(text + [c]) == ""
    ensures c != LINE_FEED ==> Complete(text + [c]) == Complete(text) && Tail(text + [c]) == Tail(text) + [c]
  {
    hide Split;
    SplitGrows(text, c);
  }

  lemma {:induction false} CompleteGrows(a: string, b: string)
    ensures Complete(a) <= Complete(a + b)
    decreases |b|
  {
    hide Complete, Tail;
    if b == "" {
      assert a + b == a;
    } else {
      CompleteGrows(a, b[..|b| - 1]);
      NextChar(a + b[..|b| - 1], b[|b| - 1]);
      assert (a + b[..|b| - 1]) + [b[|b| - 1]] == a + b;
    }
  }

  /** A refusal is the last word on every longer list of lines. */
  lemma {:induction false} RefusalStays(lines: seq<string>, more: seq<string>, usb: bool)
    requires lines <= more && TakeLines(lines, usb).Refusal?
    ensures TakeLines(more, usb) == TakeLines(lines, usb)
    decreases |more|
  {
    hide TakeLine;
    if |lines| == |more| {
      assert lines == more;
    } else {
      RefusalStays(lines, more[..|more| - 1], usb);
    }
  }

  lemma OneMoreLine(lines: seq<string>, line: string, items: seq<Item>, usb: bool)
    requires TakeLines(lines, usb) == Items(items)
    ensures TakeLines(lines + [line], usb) == TakeLine(items, line, |lines| + 1, usb)
  {
    hide TakeLine;
    assert (lines + [line])[..|lines|] == lines;
  }

  // The board's table and parser.

  const BLANK: Item := Item("", 0, Codec, 0, None, None, None, [], 0, None)

  class ItemTable {
    const slots: array<Item>
    var count: nat

    ghost predicate Valid()
      reads this
    {
      slots.Length == MAX_ITEMS && count <= MAX_ITEMS
    }

    ghost function Contents(): seq<Item>
      requires Valid()
      reads this, slots
    {
      slots[..count]
    }

    constructor ()
      ensures Valid() && fresh(slots) && Contents() == []
    {
      slots := new Item[MAX_ITEMS](_ => BLANK);
      count := 0;
    }

    /** push: a refusal changes nothing. */
    method Push(item: Item) returns (fault: Option<Code>)
      requires Valid()
      modifies this, slots
      ensures Valid()
      ensures match AddItem(old(Contents()), item)
              case Fine(items) => fault.None? && Contents() == items
              case Bad(code) => fault == Some(code) && Contents() == old(Contents())
    {
      if count == MAX_ITEMS {
        return Some(TooMany);
      }
      if item.tag.Some? {
        for k := 0 to count
          invariant forall i :: 0 <= i < k ==> slots[i].tag != item.tag
        {
          if slots[k].tag == item.tag {
            assert Contents()[k].tag == item.tag;
            return Some(LabelDuplicate);
          }
        }
      }
      assert !HasTag(Contents(), item);
      slots[count] := item;
      count := count + 1;
      fault := None;
    }
  }

  class FileParser {
    const text: array<char>
    const usb: bool
    var size: nat
    var overflow: bool
    var line: nat
    ghost var fed: string

    ghost predicate Valid()
      reads this, text
    {
      && text.Length == MAX_LINE_CHARS && size <= MAX_LINE_CHARS
      && line == |Complete(fed)| + 1
      && overflow == (|Tail(fed)| > MAX_LINE_CHARS)
      && size == Min(|Tail(fed)|, MAX_LINE_CHARS) && text[..size] == Tail(fed)[..size]
    }

    constructor (usb: bool)
      ensures Valid() && fresh(text) && fed == "" && this.usb == usb
    {
      text := new char[MAX_LINE_CHARS];
      this.usb := usb;
      size, overflow, line := 0, false, 1;
      fed := "";
      new;
      SplitWhole("", LINE_FEED);
    }

    method Append(c: char)
      requires Valid() && c != LINE_FEED
      modifies this`size, `overflow, `fed, text
      ensures Valid() && fed == old(fed) + [c]
    {
      hide Complete, Tail;
      NextChar(fed, c);
      fed := fed + [c];
      if size == MAX_LINE_CHARS {
        overflow := true;
        return;
      }
      text[size] := c;
      size := size + 1;
    }

    /** The line's text, without the carriage return that may end it. */
    method Text() returns (line: string)
      requires Valid() && !overflow
      ensures line == DropReturn(Tail(fed))
    {
      hide Complete, Tail;
      line := text[..size];
      assert Tail(fed)[..size] == Tail(fed);
      if line != "" && line[|line| - 1] == CARRIAGE_RETURN {
        line := line[..|line| - 1];
      }
    }

    /** end_line: the line into the table; only a line taken moves the parser on. */
    method EndLine(table: ItemTable) returns (fault: Option<Code>)
      requires Valid() && table.Valid()
      modifies this`size, `line, `fed, table, table.slots
      ensures table.Valid()
      ensures match TakeLine(old(table.Contents()), Tail(old(fed)), old(line), usb)
              case Items(items) => fault.None? && table.Contents() == items && Valid() && fed == old(fed) + [LINE_FEED]
              case Refusal(code, number) => fault == Some(code) && line == old(line) == number
    {
      hide Complete, Tail, ParseLine, AddItem;
      if overflow {
        return Some(LineTooLong);
      }
      var content := Text();
      var parsed := ReadLine(content, line, usb);
      match parsed {
        case Nothing => fault := None;
        case Refused(code) => fault := Some(code);
        case Got(item) => fault := table.Push(item);
      }
      if fault.None? {
        NextChar(fed, LINE_FEED);
        fed := fed + [LINE_FEED];
        line := line + 1;
        size := 0;
      }
    }

    /** feed: any stretch of the file. */
    method Feed(bytes: Bytes, table: ItemTable) returns (fault: Option<Code>)
      requires Valid() && table.Valid() && TakeLines(Complete(fed), usb) == Items(table.Contents())
      modifies this, text, table, table.slots
      ensures table.Valid()
      ensures fault.None? ==> Valid() && fed == old(fed) + Chars(bytes) && TakeLines(Complete(fed), usb) == Items(table.Contents())
      ensures fault.Some? ==> TakeLines(Complete(old(fed) + Chars(bytes)), usb) == Refusal(fault.value, line)
    {
      hide Complete, Tail, TakeLines, TakeLine, Chars;
      ghost var start := fed;
      NoChars(start, bytes);
      for k := 0 to |bytes|
        invariant Valid() && table.Valid() && TakeLines(Complete(fed), usb) == Items(table.Contents())
        invariant fed == start + Chars(bytes)[..k]
      {
        ghost var before := fed;
        CharAt(start, bytes, k);
        NextChar(before, bytes[k] as char);
        if bytes[k] as char != LINE_FEED {
          Append(bytes[k] as char);
          continue;
        }
        OneMoreLine(Complete(before), Tail(before), table.Contents(), usb);
        fault := EndLine(table);
        if fault.Some? {
          Extends(start, bytes, k + 1);
          RefusalStays(Complete(before + [LINE_FEED]), Complete(start + Chars(bytes)), usb);
          return;
        }
      }
      assert Chars(bytes)[..|bytes|] == Chars(bytes);
      fault := None;
    }

    /** finish: the last line when no line feed ended it, then at least one item. */
    method Finish(table: ItemTable) returns (fault: Option<Code>)
      requires Valid() && table.Valid() && TakeLines(Complete(fed), usb) == Items(table.Contents())
      modifies this, table, table.slots
      ensures table.Valid()
      ensures |old(fed)| <= MAX_FILE_BYTES ==>
                ParseFile(old(fed), usb) == if fault.Some? then Refusal(fault.value, line) else Items(table.Contents())
    {
      hide Tail, TakeLine;
      WholeFile(fed);
      OneMoreLine(Complete(fed), Tail(fed), table.Contents(), usb);
      hide Complete, TakeLines;
      ghost var all := fed;
      if size != 0 || overflow {
        fault := EndLine(table);
        if fault.Some? {
          return;
        }
      }
      if table.count == 0 {
        line := 0;
        return Some(Empty);
      }
      fault := None;
    }
  }

  lemma NoChars(start: string, bytes: Bytes)
    ensures start == start + Chars(bytes)[..0]
  {
  }

  lemma CharAt(start: string, bytes: Bytes, k: nat)
    requires k < |bytes|
    ensures start + Chars(bytes)[..k + 1] == start + Chars(bytes)[..k] + [bytes[k] as char]
  {
    assert Chars(bytes)[..k + 1] == Chars(bytes)[..k] + [Chars(bytes)[k]];
  }

  lemma Extends(start: string, bytes: Bytes, k: nat)
    requires k <= |bytes|
    ensures Complete(start + Chars(bytes)[..k]) <= Complete(start + Chars(bytes))
  {
    hide Complete;
    CompleteGrows(start + Chars(bytes)[..k], Chars(bytes)[k..]);
    assert start + Chars(bytes)[..k] + Chars(bytes)[k..] == start + Chars(bytes);
  }

  lemma WholeFile(text: string)
    ensures var lines := if Tail(text) == "" then Complete(text) else Complete(text) + [Tail(text)];
            ParseFile(text, true) == ParseLines(text, lines, true) && ParseFile(text, false) == ParseLines(text, lines, false)
  {
    hide TakeLines;
    var pieces := Split(text, LINE_FEED);
    hide Split;
    assert pieces == pieces[..|pieces| - 1] + [pieces[|pieces| - 1]];
  }

  ghost function ParseLines(text: string, lines: seq<string>, usb: bool): FileResult {
    if |text| > MAX_FILE_BYTES then Refusal(TooLarge, 0)
    else
      var result := TakeLines(lines, usb);
      if result == Items([]) then Refusal(Empty, 0) else result
  }

  /** Reading a file in any pieces gives what the host's parser gives for the whole of it. */
  method ReadFile(chunks: seq<Bytes>, usb: bool) returns (result: FileResult)
    requires |Joined(chunks)| <= MAX_FILE_BYTES
    ensures result == ParseFile(Chars(Joined(chunks)), usb)
  {
    hide TakeLines, ParseFile, Complete, Tail, Chars;
    var table := new ItemTable();
    var parser := new FileParser(usb);
    NothingRead(usb);
    assert chunks[..0] == [];
    for k := 0 to |chunks|
      invariant parser.Valid() && table.Valid() && parser.usb == usb
      invariant fresh(table) && fresh(table.slots) && fresh(parser) && fresh(parser.text)
      invariant parser.fed == Chars(Joined(chunks[..k]))
      invariant TakeLines(Complete(parser.fed), usb) == Items(table.Contents())
    {
      CharsJoin(chunks, k);
      ghost var before := parser.fed;
      var fault := parser.Feed(chunks[k], table);
      if fault.Some? {
        RefusedFile(before + Chars(chunks[k]), Chars(Joined(chunks)), usb);
        return Refusal(fault.value, parser.line);
      }
    }
    assert chunks[..|chunks|] == chunks;
    var fault := parser.Finish(table);
    result := if fault.Some? then Refusal(fault.value, parser.line) else Items(table.slots[..table.count]);
  }

  lemma NothingRead(usb: bool)
    ensures TakeLines(Complete(""), usb) == Items([]) && Chars(Joined([])) == ""
  {
    SplitWhole("", LINE_FEED);
    assert Complete("") == [];
  }

  lemma CharsJoin(chunks: seq<Bytes>, k: nat)
    requires k < |chunks|
    ensures Chars(Joined(chunks[..k + 1])) == Chars(Joined(chunks[..k])) + Chars(chunks[k])
    ensures Chars(Joined(chunks[..k + 1])) <= Chars(Joined(chunks))
  {
    hide Chars;
    assert chunks[..k + 1][..k] == chunks[..k];
    CharsAppend(Joined(chunks[..k]), chunks[k]);
    JoinedUpTo(chunks, k + 1);
    CharsPrefix(Joined(chunks[..k + 1]), Joined(chunks));
  }

  lemma CharsPrefix(part: Bytes, whole: Bytes)
    requires part <= whole
    ensures Chars(part) <= Chars(whole)
  {
  }

  lemma CharsAppend(a: Bytes, b: Bytes)
    ensures Chars(a + b) == Chars(a) + Chars(b)
  {
  }

  /** A refusal among a prefix's lines is the whole file's. */
  lemma RefusedFile(text: string, whole: string, usb: bool)
    requires text <= whole && TakeLines(Complete(text), usb).Refusal? && |whole| <= MAX_FILE_BYTES
    ensures ParseFile(whole, usb) == TakeLines(Complete(text), usb)
  {
    hide TakeLine, TakeLines, ParseFile;
    CompleteGrows(text, whole[|text|..]);
    assert text + whole[|text|..] == whole;
    WholeFile(whole);
    hide Complete, Tail;
    var lines := if Tail(whole) == "" then Complete(whole) else Complete(whole) + [Tail(whole)];
    RefusalStays(Complete(text), lines, usb);
  }
}
