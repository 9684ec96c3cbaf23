/**
 The spelling of a cut list (common/cut_schedule.hpp, host/cut_schedule.py):
 <offset>:<length>:<drop|zero>, comma separated, one to sixteen entries.
 */
module CutText {
  import opened Words
  import opened Texts
  import opened CutRules

  const COMMAND: string := "CUT"
  const PREFIX: string := "CUT:"

  function KindText(kind: Kind): string {
    match kind
    case Drop => "drop"
    case Zero => "zero"
  }

  function ParseKind(text: string): Option<Kind> {
    if text == "drop" then Some(Drop) else if text == "zero" then Some(Zero) else None
  }

  function EntryText(e: Entry): string {
    Decimal(e.offset) + ":" + Decimal(e.length) + ":" + KindText(e.kind)
  }

  /** Both numbers fit the 32 bits of a spelling. */
  predicate Fits(e: Entry) {
    e.offset <= UINT32_MAX && e.length <= UINT32_MAX
  }

  /** An entry, as the host takes it apart. */
  function ParseEntry(text: string): (entry: Option<Entry>)
    ensures entry.Some? ==> Fits(entry.value)
  {
    var fields := Split(text, ':');
    if |fields| != 3 then None
    else
      var offset, length, kind := Number(fields[0]), Number(fields[1]), ParseKind(fields[2]);
      if offset.None? || length.None? || kind.None? then None else Some(Entry(offset.value, length.value, kind.value))
  }

  function EntriesOf(items: seq<string>): (entries: Option<seq<Entry>>)
    ensures entries.Some? ==> |entries.value| == |items|
  {
    if items == [] then Some([])
    else
      var first, rest := ParseEntry(items[0]), EntriesOf(items[1..]);
      if first.None? || rest.None? then None else Some([first.value] + rest.value)
  }

  /** A list of entries, as the host takes it apart. */
  function ParseEntries(text: string): Option<seq<Entry>> {
    var entries := EntriesOf(Split(text, ','));
    if entries.Some? && |entries.value| > MAX_ENTRIES then None else entries
  }

  // Spelling and parsing.

  lemma KindRoundTrip(text: string, kind: Kind)
    ensures ParseKind(text) == Some(kind) <==> text == KindText(kind)
    ensures ':' !in KindText(kind) && ',' !in KindText(kind)
  {
  }

  lemma ThreeFields(a: string, b: string, c: string)
    requires ':' !in a && ':' !in b && ':' !in c
    ensures Split(a + ":" + b + ":" + c, ':') == [a, b, c]
  {
    hide Find, Split;
    var text := a + ":" + b + ":" + c;
    SplitAt(text, ':', |a|);
    assert text[..|a|] == a && text[|a| + 1..] == b + ":" + c;
    var rest := b + ":" + c;
    SplitAt(rest, ':', |b|);
    assert rest[..|b|] == b && rest[|b| + 1..] == c;
    SplitWhole(c, ':');
  }

  lemma JoinThree(a: string, b: string, c: string)
    ensures Join([a, b, c], ':') == a + ":" + b + ":" + c
  {
    assert [a, b, c][1..] == [b, c] && [b, c][1..] == [c];
    assert Join([c], ':') == c;
    assert Join([b, c], ':') == b + ":" + c;
    assert a + [':'] + (b + ":" + c) == a + ":" + b + ":" + c;
  }

  /** An entry's spelling parses to it, and nothing else does. */
  lemma EntryRoundTrip(text: string, e: Entry)
    ensures ParseEntry(text) == Some(e) <==> Fits(e) && text == EntryText(e)
  {
    hide Find, Split, Decimal, Number, ParseKind, KindText;
    DecimalIsCanonical(e.offset);
    DecimalIsCanonical(e.length);
    KindRoundTrip(KindText(e.kind), e.kind);
    if Fits(e) && text == EntryText(e) {
      ThreeFields(Decimal(e.offset), Decimal(e.length), KindText(e.kind));
      NumberRoundTrip(Decimal(e.offset), e.offset);
      NumberRoundTrip(Decimal(e.length), e.length);
    }
    if ParseEntry(text) == Some(e) {
      var fields := Split(text, ':');
      NumberRoundTrip(fields[0], e.offset);
      NumberRoundTrip(fields[1], e.length);
      KindRoundTrip(fields[2], e.kind);
      JoinSplit(text, ':');
      assert fields == [fields[0], fields[1], fields[2]];
      JoinThree(fields[0], fields[1], fields[2]);
    }
  }

  /** The grammar's two words: a DROP is spelt "drop", a ZERO "zero", after the two decimals. */
  lemma TheTwoWords(text: string, offset: nat, length: nat)
    ensures ParseEntry(text) == Some(Entry(offset, length, Drop))
       <==> offset <= UINT32_MAX && length <= UINT32_MAX && text == Decimal(offset) + ":" + Decimal(length) + ":drop"
    ensures ParseEntry(text) == Some(Entry(offset, length, Zero))
       <==> offset <= UINT32_MAX && length <= UINT32_MAX && text == Decimal(offset) + ":" + Decimal(length) + ":zero"
  {
    hide Decimal, ParseEntry;
    EntryRoundTrip(text, Entry(offset, length, Drop));
    EntryRoundTrip(text, Entry(offset, length, Zero));
    assert ":" + "drop" == ":drop" && ":" + "zero" == ":zero";
    var numbers := Decimal(offset) + ":" + Decimal(length);
    assert numbers + ":" + "drop" == numbers + ":drop" && numbers + ":" + "zero" == numbers + ":zero";
  }

  function EntryTexts(es: seq<Entry>): (texts: seq<string>)
    ensures |texts| == |es|
  {
    seq(|es|, i requires 0 <= i < |es| => EntryText(es[i]))
  }

  ghost predicate AllFit(es: seq<Entry>) {
    forall i :: 0 <= i < |es| ==> Fits(es[i])
  }

  lemma NoComma(e: Entry)
    ensures ',' !in EntryText(e)
  {
    hide Decimal;
    DecimalIsCanonical(e.offset);
    DecimalIsCanonical(e.length);
  }

  lemma {:induction false} EntriesRoundTrip(items: seq<string>, es: seq<Entry>)
    ensures EntriesOf(items) == Some(es) <==> AllFit(es) && items == EntryTexts(es)
    decreases |items|
  {
    hide ParseEntry, EntryText;
    if items != [] && es != [] {
      EntryRoundTrip(items[0], es[0]);
      EntriesRoundTrip(items[1..], es[1..]);
      assert items == [items[0]] + items[1..] && es == [es[0]] + es[1..];
      assert EntryTexts(es) == [EntryText(es[0])] + EntryTexts(es[1..]);
    }
  }

  /** A list's spelling parses to it, and nothing else does. */
  lemma ListRoundTrip(text: string, es: seq<Entry>)
    ensures ParseEntries(text) == Some(es)
       <==> 1 <= |es| <= MAX_ENTRIES && AllFit(es) && text == Join(EntryTexts(es), ',')
  {
    hide Split, Join, EntriesOf, EntryText;
    var items := Split(text, ',');
    EntriesRoundTrip(items, es);
    JoinSplit(text, ',');
    if 1 <= |es| <= MAX_ENTRIES && AllFit(es) && text == Join(EntryTexts(es), ',') {
      forall i | 0 <= i < |es|
        ensures ',' !in EntryTexts(es)[i]
      {
        NoComma(es[i]);
      }
      SplitJoined(EntryTexts(es), ',');
    }
  }

  /** The CUT command for a schedule. */
  function RenderCommand(es: seq<Entry>): string {
    if es == [] then COMMAND else PREFIX + Join(EntryTexts(es), ',')
  }

  function ParseCommand(text: string): Option<seq<Entry>> {
    if text == COMMAND then Some([])
    else if PREFIX <= text then ParseEntries(text[|PREFIX|..])
    else None
  }

  /** A schedule's command gives the schedule back, and no other text does. */
  lemma CommandRoundTrip(text: string, es: seq<Entry>)
    ensures ParseCommand(text) == Some(es) <==> |es| <= MAX_ENTRIES && AllFit(es) && text == RenderCommand(es)
  {
    hide Join, ParseEntries, EntryText;
    if PREFIX <= text {
      ListRoundTrip(text[|PREFIX|..], es);
      assert text == PREFIX + text[|PREFIX|..];
    }
    if es != [] && text == RenderCommand(es) {
      assert text[|PREFIX|..] == Join(EntryTexts(es), ',');
      ListRoundTrip(text[|PREFIX|..], es);
    }
  }

  // The board's parsers.

  /** parse_entry: the first two colons, and no third. */
  method ReadEntry(text: string) returns (entry: Option<Entry>)
    ensures entry == ParseEntry(text)
  {
    hide Find, Split, Number, ParseKind;
    var first := Find(text, ':');
    if first.None? {
      SplitWhole(text, ':');
      return None;
    }
    SplitAt(text, ':', first.value);
    var rest := text[first.value + 1..];
    var second := Find(rest, ':');
    if second.None? {
      SplitWhole(rest, ':');
      return None;
    }
    SplitAt(rest, ':', second.value);
    var offset := ParseUint32(text[..first.value]);
    var length := ParseUint32(rest[..second.value]);
    var last := rest[second.value + 1..];
    var kind := ParseKind(last);
    if kind.Some? {
      KindRoundTrip(last, kind.value);
      SplitWhole(last, ':');
    } else {
      LastField(last);
    }
    if offset.None? || length.None? || kind.None? {
      return None;
    }
    entry := Some(Entry(offset.value, length.value, kind.value));
  }

  /** More than three fields, or a third that is no kind. */
  lemma LastField(last: string)
    ensures |Split(last, ':')| == 1 ==> Split(last, ':') == [last]
  {
  }

  /** parse_entries: at most seventeen passes, the seventeenth refused by the full list. */
  method ReadEntries(text: string) returns (entries: Option<seq<Entry>>)
    ensures entries == ParseEntries(text)
  {
    hide Find, Split, ParseEntry;
    var list := new CutList();
    var rest := text;
    NothingBefore(EntriesOf(Split(text, ',')));
    for parsed := 0 to MAX_ENTRIES + 1
      invariant list.Valid() && |list.entries| == parsed
      invariant EntriesOf(Split(text, ',')) == Before(list.entries, EntriesOf(Split(rest, ',')))
    {
      var separator := Find(rest, ',');
      var item := if separator.Some? then rest[..separator.value] else rest;
      var entry := ReadEntry(item);
      SplitHead(rest);
      ghost var listed := list.entries;
      if entry.None? {
        return None;
      }
      var pushed := list.Push(entry.value);
      if !pushed.Accepted? {
        return None;
      }
      if separator.None? {
        return Some(list.entries);
      }
      rest := rest[separator.value + 1..];
      BeforeOne(listed, entry.value, EntriesOf(Split(rest, ',')));
    }
    entries := None;
  }

  /** Entries already read, and then the rest. */
  function Before(list: seq<Entry>, rest: Option<seq<Entry>>): Option<seq<Entry>> {
    if rest.None? then None else Some(list + rest.value)
  }

  lemma NothingBefore(rest: Option<seq<Entry>>)
    ensures Before([], rest) == rest
  {
    if rest.Some? {
      assert [] + rest.value == rest.value;
    }
  }

  lemma BeforeOne(list: seq<Entry>, entry: Entry, rest: Option<seq<Entry>>)
    ensures Before(list, Before([entry], rest)) == Before(list + [entry], rest)
  {
    if rest.Some? {
      assert list + ([entry] + rest.value) == (list + [entry]) + rest.value;
    }
  }

  lemma SplitHead(rest: string)
    ensures Find(rest, ',').None? ==>
              EntriesOf(Split(rest, ',')) == if ParseEntry(rest).None? then None else Some([ParseEntry(rest).value])
    ensures Find(rest, ',').Some? ==>
              var at := Find(rest, ',').value;
              EntriesOf(Split(rest, ','))
              == if ParseEntry(rest[..at]).None? then None
                 else Before([ParseEntry(rest[..at]).value], EntriesOf(Split(rest[at + 1..], ',')))
  {
    hide ParseEntry;
    var at := Find(rest, ',');
    hide Find, Split;
    if at.Some? {
      SplitAt(rest, ',', at.value);
      var tail := Split(rest[at.value + 1..], ',');
      assert ([rest[..at.value]] + tail)[1..] == tail;
    } else {
      SplitWhole(rest, ',');
      OneItem(rest);
    }
  }

  lemma OneItem(item: string)
    ensures EntriesOf([item]) == if ParseEntry(item).None? then None else Some([ParseEntry(item).value])
  {
    hide ParseEntry;
    assert [item][1..] == [];
    assert EntriesOf([item][1..]) == Some([]);
    if ParseEntry(item).Some? {
      assert [ParseEntry(item).value] + [] == [ParseEntry(item).value];
    }
  }
}
