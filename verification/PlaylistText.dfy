/**
 The spelling of a playlist item (host/make_playlist.py, Item.spelling) and its way back
 through the parser.
 */
module PlaylistText {
  import opened Words
  import opened Texts
  import opened CutRules
  import opened PlaylistLine
  import CutText
  import Attenuation
  import Seconds

  /** An item some line spells. */
  ghost predicate IsItem(item: Item) {
    && IsShortName(item.file, "WAV") && Seconds.IsGap(item.gapFrames)
    && (item.tag.Some? ==> IsLabel(item.tag.value))
    && (item.scenario.Some? ==> IsShortName(item.scenario.value, "SCN"))
    && (item.seed.Some? ==> item.scenario.Some?)
    && Judge(item.cuts).Accepted? && |item.cuts| <= MAX_ENTRIES && CutText.AllFit(item.cuts)
    && item.tenths <= Attenuation.MAX_TENTHS
    && (item.duration.Some? ==> Seconds.IsDuration(item.duration.value))
  }

  function RouteText(route: Route): string {
    if route.Usb? then "USB" else "CODEC"
  }

  /** The options an item needs, in their order. */
  function OptionWords(item: Item): seq<string> {
    (if item.tag.Some? then ["label=" + item.tag.value] else [])
    + (if item.scenario.Some? then ["scn=" + item.scenario.value] else [])
    + (if item.seed.Some? then ["seed=" + Decimal(item.seed.value)] else [])
    + (if item.cuts != [] then ["cut=" + Join(CutText.EntryTexts(item.cuts), ',')] else [])
    + (if item.tenths != 0 then ["att=" + Attenuation.Spelling(item.tenths)] else [])
    + (if item.duration.Some? then ["dur=" + Seconds.Format(item.duration.value)] else [])
  }

  function ItemWords(item: Item): (words: seq<string>)
    ensures |words| >= 3
  {
    [item.file, Seconds.Format(item.gapFrames), RouteText(item.route)] + OptionWords(item)
  }

  function Spelling(item: Item): string {
    Join(ItemWords(item), ' ')
  }

  // Words joined by spaces come apart again.

  /** A word no separator or comment breaks. */
  ghost predicate IsWord(word: string) {
    word != "" && word[0] != '#' && forall i :: 0 <= i < |word| ==> '!' <= word[i] <= '~'
  }

  lemma FirstWord(word: string, rest: string)
    requires IsWord(word) && (rest == "" || IsSeparator(rest[0]))
    ensures Tokens(word + rest) == [word] + Tokens(rest)
  {
    hide Tokens, Skip, WordEnd;
    var text := word + rest;
    NoSkip(text);
    EndOfWord(text, |word|);
    FirstToken(text);
    assert text[..|word|] == word && text[|word|..] == rest;
  }

  lemma NoSkip(text: string)
    requires text != "" && !IsSeparator(text[0])
    ensures Skip(text) == 0 && text[Skip(text)..] == text
  {
  }

  lemma EndOfWord(text: string, at: nat)
    requires at <= |text| && (forall i :: 0 <= i < at ==> !IsSeparator(text[i]))
    requires at < |text| ==> IsSeparator(text[at])
    ensures WordEnd(text) == at
  {
    hide WordEnd;
  }

  lemma LeadingSpace(text: string)
    requires text != "" && !IsSeparator(text[0])
    ensures Tokens(" " + text) == Tokens(text)
  {
    var spaced := " " + text;
    assert spaced[1..] == text;
    assert Skip(spaced) == 1 && Skip(text) == 0;
    assert spaced[1..] == text && text[0..] == text;
  }

  lemma {:induction false} TokensOfJoined(words: seq<string>)
    requires words != [] && forall i :: 0 <= i < |words| ==> IsWord(words[i])
    ensures Tokens(Join(words, ' ')) == words
    ensures Join(words, ' ') != "" && !IsSeparator(Join(words, ' ')[0])
    ensures forall c :: c in Join(words, ' ') ==> IsLineChar(c)
    decreases |words|
  {
    hide Tokens;
    if |words| == 1 {
      FirstWord(words[0], "");
      assert words[0] + "" == words[0];
      NoTokens();
      assert words == [words[0]] + [];
    } else {
      var rest := Join(words[1..], ' ');
      TokensOfJoined(words[1..]);
      LeadingSpace(rest);
      FirstWord(words[0], " " + rest);
      assert Join(words, ' ') == words[0] + (" " + rest);
      assert words == [words[0]] + words[1..];
    }
  }

  // Every option reads back.

  ghost function Combine(first: Outcome<Given>, tokens: seq<string>): Outcome<Given> {
    match first
    case Fine(given) => AddOptions(tokens, given)
    case Bad(code) => Bad(code)
  }

  lemma {:induction false} OptionsInParts(a: seq<string>, b: seq<string>, given: Given)
    ensures AddOptions(a + b, given) == Combine(AddOptions(a, given), b)
    decreases |a|
  {
    hide AddOption;
    if a == [] {
      assert a + b == b;
    } else {
      var first := AddOption(a[0], given);
      assert (a + b)[1..] == a[1..] + b;
      if first.Fine? {
        OptionsInParts(a[1..], b, first.value);
      }
    }
  }

  /** One option under its key, if it is there at all. */
  function Optional(there: bool, key: string, value: string): seq<string> {
    if there then [key + value] else []
  }

  lemma OneOption(there: bool, index: nat, value: string, given: Given, after: Given)
    requires index < 6
    requires there ==> !SeenAt(index, given) && Added(index, value, given) == Fine(after)
    requires !there ==> after == given
    ensures AddOptions(Optional(there, KEYS[index], value), given) == Fine(after)
  {
    hide AddOption, Added, SeenAt;
    if there {
      var token := KEYS[index] + value;
      OptionByKey(token, given, index);
      assert token[|KEYS[index]|..] == value;
      var alone: seq<string> := [token];
      assert alone[1..] == [];
    }
  }

  function GivenOf(item: Item): Given {
    Given(item.tag, item.scenario, item.seed, if item.cuts != [] then Some(item.cuts) else None,
          if item.tenths != 0 then Some(item.tenths) else None, item.duration)
  }

  function ValueText(index: nat, item: Item): string
    requires index < 6
  {
    match index
    case 0 => if item.tag.Some? then item.tag.value else ""
    case 1 => if item.scenario.Some? then item.scenario.value else ""
    case 2 => if item.seed.Some? then Decimal(item.seed.value) else ""
    case 3 => if item.cuts != [] then Join(CutText.EntryTexts(item.cuts), ',') else ""
    case 4 => Attenuation.Spelling(item.tenths)
    case _ => if item.duration.Some? then Seconds.Format(item.duration.value) else ""
  }

  function Has(index: nat, item: Item): bool
    requires index < 6
  {
    match index
    case 0 => item.tag.Some?
    case 1 => item.scenario.Some?
    case 2 => item.seed.Some?
    case 3 => item.cuts != []
    case 4 => item.tenths != 0
    case _ => item.duration.Some?
  }

  /** The options given by the first `count` kinds. */
  function GivenUpTo(count: nat, item: Item): Given
    requires count <= 6
  {
    var all := GivenOf(item);
    Given(if count > 0 then all.tag else None, if count > 1 then all.scenario else None, if count > 2 then all.seed else None,
          if count > 3 then all.cuts else None, if count > 4 then all.tenths else None, if count > 5 then all.duration else None)
  }

  function WordsUpTo(count: nat, item: Item): seq<string>
    requires count <= 6
  {
    if count == 0 then []
    else WordsUpTo(count - 1, item) + Optional(Has(count - 1, item), KEYS[count - 1], ValueText(count - 1, item))
  }

  /** The value of each kind of option reads back to what it spells. */
  lemma ValueReadsBack(index: nat, item: Item)
    requires index < 6 && IsItem(item) && Has(index, item)
    ensures Added(index, ValueText(index, item), GivenUpTo(index, item)) == Fine(GivenUpTo(index + 1, item))
    ensures !SeenAt(index, GivenUpTo(index, item))
  {
    hide IsShortName, IsLabel, Number, CutText.ParseEntries, Judge, Attenuation.Parse, Attenuation.Spelling, Seconds.ParseDuration,
         Seconds.Format, Join, CutText.EntryTexts, Decimal;
    match index {
      case 2 =>
        NumberRoundTrip(Decimal(item.seed.value), item.seed.value);
      case 3 =>
        CutText.ListRoundTrip(ValueText(3, item), item.cuts);
      case 4 =>
        Attenuation.SpellingParses(item.tenths);
      case 5 =>
        Seconds.DurationRoundTrip(item.duration.value);
      case _ =>
    }
  }

  lemma {:induction false} OptionsReadBack(count: nat, item: Item)
    requires count <= 6 && IsItem(item)
    ensures AddOptions(WordsUpTo(count, item), NONE_GIVEN) == Fine(GivenUpTo(count, item))
    decreases count
  {
    hide IsItem, Added, SeenAt, ValueText;
    if count > 0 {
      OptionsReadBack(count - 1, item);
      var part := Optional(Has(count - 1, item), KEYS[count - 1], ValueText(count - 1, item));
      OptionsInParts(WordsUpTo(count - 1, item), part, NONE_GIVEN);
      if Has(count - 1, item) {
        ValueReadsBack(count - 1, item);
      }
      OneOption(Has(count - 1, item), count - 1, ValueText(count - 1, item), GivenUpTo(count - 1, item), GivenUpTo(count, item));
    }
  }

  lemma WordsAreOptions(item: Item)
    ensures WordsUpTo(6, item) == OptionWords(item)
  {
    assert WordsUpTo(0, item) == [];
    assert WordsUpTo(1, item) == Optional(Has(0, item), KEYS[0], ValueText(0, item));
    assert WordsUpTo(2, item) == WordsUpTo(1, item) + Optional(Has(1, item), KEYS[1], ValueText(1, item));
    assert WordsUpTo(3, item) == WordsUpTo(2, item) + Optional(Has(2, item), KEYS[2], ValueText(2, item));
    assert WordsUpTo(4, item) == WordsUpTo(3, item) + Optional(Has(3, item), KEYS[3], ValueText(3, item));
    assert WordsUpTo(5, item) == WordsUpTo(4, item) + Optional(Has(4, item), KEYS[4], ValueText(4, item));
    assert WordsUpTo(6, item) == WordsUpTo(5, item) + Optional(Has(5, item), KEYS[5], ValueText(5, item));
  }

  // Every word is a word, and the line is short enough.

  /** Printable, and no separator. */
  ghost predicate Solid(text: string) {
    forall i :: 0 <= i < |text| ==> '!' <= text[i] <= '~'
  }

  lemma ValueIsSolid(index: nat, item: Item)
    requires index < 6 && IsItem(item) && Has(index, item)
    ensures Solid(ValueText(index, item))
    ensures |KEYS[index]| + |ValueText(index, item)| <= MostChars(index)
  {
    hide CutText.ParseEntries, Judge, Attenuation.Parse, Attenuation.Spelling, Seconds.ParseDuration, Seconds.Format, Join,
         CutText.EntryTexts, Decimal;
    match index {
      case 2 =>
        DecimalIsCanonical(item.seed.value);
        TenDigits();
        DecimalFits(item.seed.value, 10);
      case 3 =>
        CutsAreShort(item.cuts);
      case 4 =>
        LevelIsSolid(item.tenths);
        Attenuation.SpellingParses(item.tenths);
      case 5 =>
        Seconds.DurationRoundTrip(item.duration.value);
        TimeIsSolid(ValueText(5, item));
      case _ =>
    }
  }

  lemma TimeIsSolid(text: string)
    requires forall c :: c in text ==> IsDigit(c) || c == '.'
    ensures Solid(text) && (text != "" ==> text[0] != '#')
  {
    forall i | 0 <= i < |text|
      ensures '!' <= text[i] <= '~' && text[i] != '#'
    {
      assert text[i] in text;
    }
  }

  /** The most characters an option takes, its key included. */
  function MostChars(index: nat): nat {
    match index
    case 0 => 30
    case 1 => 16
    case 2 => 15
    case 3 => 339
    case 4 => 9
    case _ => 13
  }

  lemma TenDigits()
    ensures UINT32_MAX < Pow10(10) && 4800 < Pow10(4)
  {
    Seconds.Tens();
    assert Pow10(6) == 10 * Pow10(5) && Pow10(7) == 10 * Pow10(6) && Pow10(8) == 10 * Pow10(7);
    assert Pow10(9) == 10 * Pow10(8) && Pow10(10) == 10 * Pow10(9);
  }

  lemma LevelIsSolid(tenths: nat)
    ensures Solid(Attenuation.Spelling(tenths))
  {
    hide Decimal;
    DecimalIsCanonical(tenths / 10);
  }

  /** What several pieces take with a character after each. */
  function Room(pieces: seq<string>): nat {
    if pieces == [] then 0 else |pieces[0]| + 1 + Room(pieces[1..])
  }

  lemma {:induction false} RoomOfParts(a: seq<string>, b: seq<string>)
    ensures Room(a + b) == Room(a) + Room(b)
    decreases |a|
  {
    if a == [] {
      assert a + b == b;
    } else {
      RoomOfParts(a[1..], b);
      assert (a + b)[1..] == a[1..] + b;
    }
  }

  lemma {:induction false} JoinRoom(pieces: seq<string>, c: char)
    requires pieces != []
    ensures |Join(pieces, c)| + 1 == Room(pieces)
    decreases |pieces|
  {
    if |pieces| > 1 {
      JoinRoom(pieces[1..], c);
    } else {
      assert pieces[1..] == [];
    }
  }

  lemma {:induction false} JoinIsSolid(pieces: seq<string>, c: char)
    requires pieces != [] && '!' <= c <= '~' && forall i :: 0 <= i < |pieces| ==> Solid(pieces[i])
    ensures Solid(Join(pieces, c))
    decreases |pieces|
  {
    if |pieces| > 1 {
      JoinIsSolid(pieces[1..], c);
    }
  }

  lemma {:induction false} EntriesRoom(texts: seq<string>)
    requires forall i :: 0 <= i < |texts| ==> |texts[i]| <= 20
    ensures Room(texts) <= 21 * |texts|
    decreases |texts|
  {
    if texts != [] {
      EntriesRoom(texts[1..]);
    }
  }

  lemma EntryIsShort(e: Entry)
    requires CutText.Fits(e) && LengthInRange(e)
    ensures |CutText.EntryText(e)| <= 20 && Solid(CutText.EntryText(e))
  {
    hide Decimal;
    TenDigits();
    DecimalIsCanonical(e.offset);
    DecimalIsCanonical(e.length);
    DecimalFits(e.offset, 10);
    DecimalFits(e.length, 4);
  }

  lemma CutsAreShort(cuts: seq<Entry>)
    requires Judge(cuts).Accepted? && cuts != [] && CutText.AllFit(cuts)
    ensures |Join(CutText.EntryTexts(cuts), ',')| <= 335 && Solid(Join(CutText.EntryTexts(cuts), ','))
  {
    hide CutText.EntryText, Join, WindowsBounded, Solid;
    var texts := CutText.EntryTexts(cuts);
    forall i | 0 <= i < |texts|
      ensures |texts[i]| <= 20 && Solid(texts[i])
    {
      assert LengthInRange(cuts[i]);
      EntryIsShort(cuts[i]);
    }
    EntriesRoom(texts);
    JoinRoom(texts, ',');
    JoinIsSolid(texts, ',');
  }

  lemma KeyWord(index: nat, value: string)
    requires index < 6 && Solid(value)
    ensures IsWord(KEYS[index] + value)
  {
    KeysByName();
    assert Solid(KEYS[index]) && KEYS[index][0] != '#';
  }

  lemma {:induction false} OptionsAreWords(count: nat, item: Item)
    requires count <= 6 && IsItem(item)
    ensures forall i :: 0 <= i < |WordsUpTo(count, item)| ==> IsWord(WordsUpTo(count, item)[i])
    ensures Room(WordsUpTo(count, item)) <= MostRoom(count)
    decreases count
  {
    hide IsItem, ValueText, IsWord, Has, Solid;
    if count > 0 {
      OptionsAreWords(count - 1, item);
      var part := Optional(Has(count - 1, item), KEYS[count - 1], ValueText(count - 1, item));
      RoomOfParts(WordsUpTo(count - 1, item), part);
      if Has(count - 1, item) {
        ValueIsSolid(count - 1, item);
        KeyWord(count - 1, ValueText(count - 1, item));
        assert part[1..] == [];
        assert Room(part) == |part[0]| + 1 + Room([]);
      }
    }
  }

  function MostRoom(count: nat): nat {
    if count == 0 then 0 else MostRoom(count - 1) + MostChars(count - 1) + 1
  }

  lemma ItemWordsAreWords(item: Item)
    requires IsItem(item)
    ensures forall i :: 0 <= i < |ItemWords(item)| ==> IsWord(ItemWords(item)[i])
    ensures Room(ItemWords(item)) <= 456
  {
    hide OptionWords, Seconds.Format, Judge, Seconds.IsGap, Seconds.IsDuration, CutText.AllFit;
    var head := [item.file, Seconds.Format(item.gapFrames), RouteText(item.route)];
    OptionsAreWords(6, item);
    WordsAreOptions(item);
    Seconds.GapRoundTrip(item.gapFrames);
    FileIsWord(item.file);
    RoomOfParts(head, OptionWords(item));
    ThreeRooms(head[0], head[1], head[2]);
    assert MostRoom(6) == 30 + 16 + 15 + 339 + 9 + 13 + 6 by {
      assert MostRoom(0) == 0 && MostRoom(1) == 31 && MostRoom(2) == 48 && MostRoom(3) == 64 && MostRoom(4) == 404 && MostRoom(5) == 414;
    }
    GapIsWord(item.gapFrames);
  }

  lemma ThreeRooms(a: string, b: string, c: string)
    ensures Room([a, b, c]) == |a| + |b| + |c| + 3
  {
    assert [a, b, c][1..] == [b, c] && [b, c][1..] == [c] && [c][1..] == [];
    assert Room([c]) == |c| + 1;
    assert Room([b, c]) == |b| + 1 + Room([c]);
  }

  lemma GapIsWord(frames: nat)
    requires Seconds.IsGap(frames)
    ensures IsWord(Seconds.Format(frames))
  {
    hide Seconds.ParseGap, Decimal;
    Seconds.GapRoundTrip(frames);
    TimeIsSolid(Seconds.Format(frames));
  }

  lemma FileIsWord(file: string)
    requires IsShortName(file, "WAV")
    ensures IsWord(file) && |file| <= 12
  {
    var at: nat := |file| - 4;
    assert forall i :: 0 <= i < at ==> IsNameChar(file[..at][i]);
    assert file == file[..at] + ".WAV";
  }

  /** A line spelt from an item is never too long. */
  lemma SpellingFits(item: Item)
    requires IsItem(item)
    ensures |Spelling(item)| <= 455 < MAX_LINE_CHARS
  {
    hide ItemWords, IsItem, Join, Room;
    ItemWordsAreWords(item);
    JoinRoom(ItemWords(item), ' ');
  }

  /** Printer and parser undo each other: the spelling of every item parses to that item. */
  lemma SpellingReadsBack(item: Item, usb: bool)
    requires IsItem(item) && (item.route.Usb? ==> usb)
    ensures ParseLine(Spelling(item), item.line, usb) == Got(item)
  {
    hide OptionWords, Join, Tokens, AddOptions, Seconds.Format, Seconds.ParseGap, IsShortName, IsLabel, CutText.AllFit, Judge,
         IsLineChar, IsWord;
    var words := ItemWords(item);
    ItemWordsAreWords(item);
    TokensOfJoined(words);
    var text := Spelling(item);
    assert forall i :: 0 <= i < |text| ==> text[i] in text;
    OptionsReadBack(6, item);
    WordsAreOptions(item);
    Seconds.GapRoundTrip(item.gapFrames);
    assert words[3..] == OptionWords(item);
    assert GivenUpTo(6, item) == GivenOf(item);
  }

  // And every parsed line is an item with a spelling.

  ghost predicate GivenIsSound(given: Given) {
    && (given.tag.Some? ==> IsLabel(given.tag.value))
    && (given.scenario.Some? ==> IsShortName(given.scenario.value, "SCN"))
    && (given.cuts.Some? ==> Judge(given.cuts.value).Accepted? && |given.cuts.value| <= MAX_ENTRIES && CutText.AllFit(given.cuts.value))
    && (given.tenths.Some? ==> given.tenths.value <= Attenuation.MAX_TENTHS)
    && (given.duration.Some? ==> Seconds.IsDuration(given.duration.value))
  }

  lemma OptionKeepsSound(token: string, given: Given)
    requires GivenIsSound(given) && AddOption(token, given).Fine?
    ensures GivenIsSound(AddOption(token, given).value)
  {
    hide AddOption, GivenIsSound, SeenAt, Added;
    if forall i :: 0 <= i < 6 ==> !(KEYS[i] <= token) {
      NoKey(token, given);
    } else {
      var index :| 0 <= index < 6 && KEYS[index] <= token;
      OptionByKey(token, given, index);
      ValueKeepsSound(index, token[|KEYS[index]|..], given);
    }
  }

  lemma ValueKeepsSound(index: nat, value: string, given: Given)
    requires index < 6 && GivenIsSound(given) && Added(index, value, given).Fine?
    ensures GivenIsSound(Added(index, value, given).value)
  {
    hide IsShortName, IsLabel, Number, Seconds.ParseDuration, Seconds.IsDuration, CutText.ParseEntries, Judge, CutText.AllFit,
         Attenuation.Parse;
    match index {
      case 3 =>
        CutText.ListRoundTrip(value, CutText.ParseEntries(value).value);
      case 4 =>
        ParsedLevel(value);
      case 5 =>
        Seconds.ParsedTimes(value);
      case _ =>
    }
  }

  lemma ParsedLevel(text: string)
    ensures Attenuation.Parse(text).Some? ==> Attenuation.Parse(text).value <= Attenuation.MAX_TENTHS
  {
  }

  lemma {:induction false} OptionsKeepSound(tokens: seq<string>, given: Given)
    requires GivenIsSound(given) && AddOptions(tokens, given).Fine?
    ensures GivenIsSound(AddOptions(tokens, given).value)
    decreases |tokens|
  {
    hide AddOption, GivenIsSound;
    if tokens != [] {
      OptionKeepsSound(tokens[0], given);
      OptionsKeepSound(tokens[1..], AddOption(tokens[0], given).value);
    }
  }

  /** Whatever line gave an item, the item's own spelling gives the same item. */
  lemma ParsedReadsBack(text: string, line: nat, usb: bool)
    requires ParseLine(text, line, usb).Got?
    ensures var item := ParseLine(text, line, usb).item;
            IsItem(item) && ParseLine(Spelling(item), line, usb) == Got(item)
  {
    var item := ParseLine(text, line, usb).item;
    NothingGivenIsSound();
    Seconds.ParsedTimes(Tokens(text)[1]);
    OptionsKeepSound(Tokens(text)[3..], NONE_GIVEN);
    hide Tokens, AddOptions, Seconds.ParseGap, IsShortName, IsLabel, CutText.AllFit, Judge, Spelling, Seconds.IsGap, Seconds.IsDuration;
    NoCutsAccepted();
    assert item.line == line && (item.route.Usb? ==> usb);
    SpellingReadsBack(item, usb);
  }

  lemma NothingGivenIsSound()
    ensures GivenIsSound(NONE_GIVEN)
  {
  }

  lemma NoCutsAccepted()
    ensures Judge([]).Accepted? && CutText.AllFit([])
  {
    AcceptedIsValid([]);
    forall a: nat, b: nat | a <= b
      ensures Excess([], a, b) <= MAX_DROP_BALANCE
    {
      NothingDropped(a, b);
    }
  }

  lemma {:induction false} NothingDropped(a: nat, b: nat)
    ensures Excess([], a, b) <= 0
    decreases b
  {
    if a < b {
      NothingDropped(a, b - 1);
    }
  }
}
