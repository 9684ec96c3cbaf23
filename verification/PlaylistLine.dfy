/**
 One line of a playlist (common/playlist.hpp, host/make_playlist.py): the host's reading
 of it as functions over the line's words, the board's as loops over its characters.
 */
module PlaylistLine {
  import opened Words
  import opened Texts
  import opened CutRules
  import CutText
  import Attenuation
  import Seconds

  const NAME_STEM: nat := 8
  const LABEL_CHARS: nat := 24
  const MAX_LINE_CHARS: nat := 511
  const SEPARATORS: string := " \t"

  datatype Route = Codec | Usb

  datatype Item = Item(file: string, gapFrames: nat, route: Route, line: nat, tag: Option<string>, scenario: Option<string>,
                       seed: Option<Uint32>, cuts: seq<Entry>, tenths: nat, duration: Option<nat>)

  datatype Code =
    | Syntax | BadFile | BadGap | BadRoute | RouteUnavailable | BadLabel | LabelDuplicate | BadScenario | BadSeed
    | SeedNoScenario | BadCut | CutRule(verdict: Verdict) | BadAttenuation | BadDuration | LineTooLong | TooMany | Empty | TooLarge

  /** What a line gives: nothing, an item, or the first refusal. */
  datatype Parsed = Nothing | Got(item: Item) | Refused(code: Code)

  // Characters and names.

  predicate IsNameChar(c: char) {
    'A' <= c <= 'Z' || '0' <= c <= '9' || c == '_'
  }

  predicate IsLabelChar(c: char) {
    IsNameChar(c) || 'a' <= c <= 'z' || c == '-' || c == '.'
  }

  predicate IsLineChar(c: char) {
    ' ' <= c <= '~' || c == '\t'
  }

  predicate IsStem(stem: string) {
    1 <= |stem| <= NAME_STEM && forall i :: 0 <= i < |stem| ==> IsNameChar(stem[i])
  }

  /** An upper-case 8.3 name, as a pattern: a stem and the extension after its point. */
  predicate IsShortName(text: string, extension: string) {
    && |extension| + 1 < |text| && text[|text| - |extension| - 1..] == "." + extension
    && IsStem(text[..|text| - |extension| - 1])
  }

  predicate IsLabel(text: string) {
    1 <= |text| <= LABEL_CHARS && forall i :: 0 <= i < |text| ==> IsLabelChar(text[i])
  }

  /** is_short_name: split at the first point. */
  predicate NamedAtPoint(text: string, extension: string) {
    var dot := Find(text, '.');
    dot.Some? && IsStem(text[..dot.value]) && text[dot.value + 1..] == extension
  }

  lemma NamesAgree(text: string, extension: string)
    requires '.' !in extension
    ensures NamedAtPoint(text, extension) == IsShortName(text, extension)
  {
    var dot := Find(text, '.');
    if IsShortName(text, extension) {
      var at: nat := |text| - |extension| - 1;
      assert text[at..][0] == '.';
      assert forall i :: 0 <= i < at ==> text[..at][i] != '.';
      FindIs(text, '.', at);
      assert text[at + 1..] == text[at..][1..] == extension;
    }
    hide Find;
    if NamedAtPoint(text, extension) {
      assert text == text[..dot.value] + ("." + extension);
    }
  }

  // Words of a line.

  predicate IsSeparator(c: char) {
    c == ' ' || c == '\t'
  }

  /** Where the first character that is not a separator stands, or the end. */
  function Skip(text: string): (at: nat)
    ensures at <= |text| && forall i :: 0 <= i < at ==> IsSeparator(text[i])
    ensures at < |text| ==> !IsSeparator(text[at])
  {
    if text == "" || !IsSeparator(text[0]) then 0 else 1 + Skip(text[1..])
  }

  /** Where the first separator stands, or the end. */
  function WordEnd(text: string): (at: nat)
    ensures at <= |text| && forall i :: 0 <= i < at ==> !IsSeparator(text[i])
    ensures at < |text| ==> IsSeparator(text[at])
  {
    if text == "" || IsSeparator(text[0]) then 0 else 1 + WordEnd(text[1..])
  }

  /** The runs of characters between separators. */
  function WordsOf(text: string): (words: seq<string>)
    ensures forall i :: 0 <= i < |words| ==> words[i] != ""
    decreases |text|
  {
    var word := text[Skip(text)..];
    if word == "" then []
    else
      var end := WordEnd(word);
      [word[..end]] + WordsOf(word[end..])
  }

  /** Words up to one that begins a comment. */
  function UpToComment(words: seq<string>): seq<string> {
    if words == [] || words[0] == "" || words[0][0] == '#' then [] else [words[0]] + UpToComment(words[1..])
  }

  function Tokens(text: string): seq<string> {
    UpToComment(WordsOf(text))
  }

  // Options.

  /** The options a line has given so far. */
  datatype Given = Given(tag: Option<string>, scenario: Option<string>, seed: Option<Uint32>, cuts: Option<seq<Entry>>,
                         tenths: Option<nat>, duration: Option<nat>)

  const NONE_GIVEN: Given := Given(None, None, None, None, None, None)

  datatype Outcome<T> = Fine(value: T) | Bad(code: Code)

  /** cut=: the grammar, and then the rules. */
  ghost function ParseCuts(value: string): Outcome<seq<Entry>> {
    var entries := CutText.ParseEntries(value);
    if entries.None? then Bad(BadCut)
    else if Judge(entries.value).Accepted? then Fine(entries.value)
    else Bad(CutRule(Judge(entries.value)))
  }

  /** One option as the host reads it: split at the first '=', looked up by its key. */
  ghost function AddOption(token: string, given: Given): Outcome<Given> {
    var mark := Find(token, '=');
    if mark.None? then Bad(Syntax)
    else
      var key, value := token[..mark.value], token[mark.value + 1..];
      if key == "label" then
        if given.tag.Some? then Bad(Syntax) else AddLabel(value, given)
      else if key == "scn" then
        if given.scenario.Some? then Bad(Syntax) else AddScenario(value, given)
      else if key == "seed" then
        if given.seed.Some? then Bad(Syntax) else AddSeed(value, given)
      else if key == "cut" then
        if given.cuts.Some? then Bad(Syntax) else AddCuts(value, given)
      else if key == "att" then
        if given.tenths.Some? then Bad(Syntax) else AddTenths(value, given)
      else if key == "dur" then
        if given.duration.Some? then Bad(Syntax) else AddDuration(value, given)
      else Bad(Syntax)
  }

  function AddLabel(value: string, given: Given): Outcome<Given> {
    if IsLabel(value) then Fine(given.(tag := Some(value))) else Bad(BadLabel)
  }

  function AddScenario(value: string, given: Given): Outcome<Given> {
    if IsShortName(value, "SCN") then Fine(given.(scenario := Some(value))) else Bad(BadScenario)
  }

  function AddSeed(value: string, given: Given): Outcome<Given> {
    if Number(value).Some? then Fine(given.(seed := Some(Number(value).value))) else Bad(BadSeed)
  }

  ghost function AddCuts(value: string, given: Given): Outcome<Given> {
    match ParseCuts(value)
    case Fine(cuts) => Fine(given.(cuts := Some(cuts)))
    case Bad(code) => Bad(code)
  }

  function AddTenths(value: string, given: Given): Outcome<Given> {
    var tenths := Attenuation.Parse(value);
    if tenths.Some? then Fine(given.(tenths := tenths)) else Bad(BadAttenuation)
  }

  function AddDuration(value: string, given: Given): Outcome<Given> {
    var duration := Seconds.ParseDuration(value);
    if duration.Some? then Fine(given.(duration := duration)) else Bad(BadDuration)
  }

  /** The options in their order, up to the first refusal. */
  ghost function AddOptions(tokens: seq<string>, given: Given): Outcome<Given> {
    if tokens == [] then Fine(given)
    else
      match AddOption(tokens[0], given)
      case Fine(more) => AddOptions(tokens[1..], more)
      case Bad(code) => Bad(code)
  }

  function ItemOf(file: string, gap: nat, route: Route, line: nat, given: Given): Item {
    Item(file, gap, route, line, given.tag, given.scenario, given.seed,
         if given.cuts.Some? then given.cuts.value else [], if given.tenths.Some? then given.tenths.value else 0, given.duration)
  }

  /** The file, gap and route every item starts with: the first refusal, if any. */
  function CheckFields(file: string, gap: string, route: string, usb: bool): Option<Code> {
    if !IsShortName(file, "WAV") then Some(BadFile)
    else if Seconds.ParseGap(gap).None? then Some(BadGap)
    else if route != "USB" && route != "CODEC" then Some(BadRoute)
    else if route == "USB" && !usb then Some(RouteUnavailable)
    else None
  }

  function RouteOf(text: string): Route {
    if text == "USB" then Usb else Codec
  }

  /** A line as the host reads it. */
  ghost function ParseLine(text: string, line: nat, usb: bool): Parsed {
    if exists i :: 0 <= i < |text| && !IsLineChar(text[i]) then Refused(Syntax)
    else
      var tokens := Tokens(text);
      if tokens == [] then Nothing
      else if |tokens| < 3 then Refused(Syntax)
      else
        var fault := CheckFields(tokens[0], tokens[1], tokens[2], usb);
        if fault.Some? then Refused(fault.value)
        else
          match AddOptions(tokens[3..], NONE_GIVEN)
          case Bad(code) => Refused(code)
          case Fine(given) =>
            if given.seed.Some? && given.scenario.None? then Refused(SeedNoScenario)
            else Got(ItemOf(tokens[0], Seconds.ParseGap(tokens[1]).value, RouteOf(tokens[2]), line, given))
  }

  // The board's reading.

  /** The token reader: what is left of the line. */
  class TokenReader {
    var rest: string

    constructor (line: string)
      ensures rest == line
    {
      rest := line;
    }

    /** The next token, or none at the line's end or its comment, and from then on. */
    method Next() returns (token: Option<string>)
      modifies this
      ensures Tokens(old(rest)) == [] ==> token.None? && Tokens(rest) == []
      ensures Tokens(old(rest)) != [] ==> token == Some(Tokens(old(rest))[0]) && Tokens(rest) == Tokens(old(rest))[1..]
      ensures Tokens(old(rest)) != [] ==> |rest| < |old(rest)|
    {
      hide Skip, WordEnd;
      FirstToken(rest);
      var start := Skip(rest);
      if start == |rest| || rest[start] == '#' {
        rest := "";
        NoTokens();
        return None;
      }
      rest := rest[start..];
      var word := rest[..WordEnd(rest)];
      rest := rest[|word|..];
      token := Some(word);
    }
  }

  lemma NoTokens()
    ensures Tokens("") == []
  {
    assert Skip("") == 0;
    assert WordsOf("") == [];
  }

  lemma FirstToken(rest: string)
    ensures Skip(rest) == |rest| || rest[Skip(rest)] == '#' ==> Tokens(rest) == []
    ensures Skip(rest) < |rest| && rest[Skip(rest)] != '#' ==>
              var word := rest[Skip(rest)..];
              WordEnd(word) > 0 && Tokens(rest) == [word[..WordEnd(word)]] + Tokens(word[WordEnd(word)..])
  {
    hide Skip, WordEnd;
    var word := rest[Skip(rest)..];
    if word != "" {
      var words := WordsOf(word[WordEnd(word)..]);
      assert WordsOf(rest) == [word[..WordEnd(word)]] + words;
      assert WordsOf(rest)[1..] == words;
    }
  }

  /** The item being filled in and the options seen, as the options given. */
  ghost predicate Agrees(item: Item, seen: seq<bool>, base: Item, given: Given) {
    && |seen| == 6
    && seen[0] == given.tag.Some? && seen[1] == given.scenario.Some? && seen[2] == given.seed.Some?
    && seen[3] == given.cuts.Some? && seen[4] == given.tenths.Some? && seen[5] == given.duration.Some?
    && item == ItemOf(base.file, base.gapFrames, base.route, base.line, given)
  }

  const KEYS: seq<string> := ["label=", "scn=", "seed=", "cut=", "att=", "dur="]

  /** Starting with a key and its '=' is having that key before the first '='. */
  lemma KeyIsPrefix(token: string, key: string)
    requires '=' !in key
    ensures key + "=" <= token <==> Find(token, '=') == Some(|key|) && token[..|key|] == key
    ensures key + "=" <= token ==> token[|key| + 1..] == token[|key + "="|..]
  {
    if key + "=" <= token {
      assert token[..|key|] == key && token[|key|] == (key + "=")[|key|];
      FindIs(token, '=', |key|);
    }
    hide Find;
    if Find(token, '=') == Some(|key|) && token[..|key|] == key {
      assert token[..|key| + 1] == key + "=";
    }
  }

  /** parse_label and its kind: the option of rule `index` into the item. */
  method ReadValue(index: nat, value: string, item: Item, ghost base: Item, ghost seen: seq<bool>, ghost given: Given)
    returns (fault: Option<Code>, filled: Item, ghost after: Given)
    requires index < 6 && Agrees(item, seen, base, given) && !seen[index]
    ensures fault.Some? ==> Added(index, value, given) == Bad(fault.value)
    ensures fault.None? ==> Added(index, value, given) == Fine(after) && Agrees(filled, seen[index := true], base, after)
  {
    hide IsLabel, IsShortName, Number, ParseCuts, Attenuation.Parse, Seconds.ParseDuration, Find;
    fault, filled := None, item;
    after := given;
    match index {
      case 0 =>
        if !IsLabel(value) {
          return Some(BadLabel), item, given;
        }
        filled := item.(tag := Some(value));
      case 1 =>
        NamesAgree(value, "SCN");
        if !NamedAtPoint(value, "SCN") {
          return Some(BadScenario), item, given;
        }
        filled := item.(scenario := Some(value));
      case 2 =>
        var seed := ParseUint32(value);
        if seed.None? {
          return Some(BadSeed), item, given;
        }
        filled := item.(seed := seed);
      case 3 =>
        var code, cuts := ReadCuts(value);
        if code.Some? {
          return code, item, given;
        }
        filled := item.(cuts := cuts);
      case 4 =>
        var tenths := Attenuation.ParseLevel(value);
        if tenths.None? {
          return Some(BadAttenuation), item, given;
        }
        filled := item.(tenths := tenths.value);
      case _ =>
        var duration := Seconds.ReadDuration(value);
        if duration.None? {
          return Some(BadDuration), item, given;
        }
        filled := item.(duration := duration);
    }
    after := Added(index, value, given).value;
  }

  /** What the host does with the value of rule `index`. */
  ghost function Added(index: nat, value: string, given: Given): Outcome<Given>
    requires index < 6
  {
    match index
    case 0 => AddLabel(value, given)
    case 1 => AddScenario(value, given)
    case 2 => AddSeed(value, given)
    case 3 => AddCuts(value, given)
    case 4 => AddTenths(value, given)
    case _ => AddDuration(value, given)
  }

  /** parse_cuts: the list, then its rules. */
  method ReadCuts(value: string) returns (code: Option<Code>, cuts: seq<Entry>)
    ensures code.Some? ==> ParseCuts(value) == Bad(code.value)
    ensures code.None? ==> ParseCuts(value) == Fine(cuts)
  {
    hide CutText.ParseEntries, Judge;
    var entries := CutText.ReadEntries(value);
    if entries.None? {
      return Some(BadCut), [];
    }
    var verdict := BoardJudges(entries.value);
    if !verdict.Accepted? {
      return Some(CutRule(verdict)), [];
    }
    code, cuts := None, entries.value;
  }

  ghost predicate SeenAt(index: nat, given: Given)
    requires index < 6
  {
    match index
    case 0 => given.tag.Some?
    case 1 => given.scenario.Some?
    case 2 => given.seed.Some?
    case 3 => given.cuts.Some?
    case 4 => given.tenths.Some?
    case _ => given.duration.Some?
  }

  /** The host's option, by the number of its key. */
  lemma OptionByKey(token: string, given: Given, index: nat)
    requires index < 6 && KEYS[index] <= token
    ensures AddOption(token, given) == if SeenAt(index, given) then Bad(Syntax) else Added(index, token[|KEYS[index]|..], given)
  {
    hide Find, AddLabel, AddScenario, AddSeed, AddCuts, AddTenths, AddDuration;
    KeysByName();
    match index {
      case 0 => KeyIsPrefix(token, "label");
      case 1 => KeyIsPrefix(token, "scn");
      case 2 => KeyIsPrefix(token, "seed");
      case 3 => KeyIsPrefix(token, "cut");
      case 4 => KeyIsPrefix(token, "att");
      case _ => KeyIsPrefix(token, "dur");
    }
  }

  lemma NoKey(token: string, given: Given)
    requires forall i :: 0 <= i < 6 ==> !(KEYS[i] <= token)
    ensures AddOption(token, given) == Bad(Syntax)
  {
    hide Find, AddLabel, AddScenario, AddSeed, AddCuts, AddTenths, AddDuration;
    KeysByName();
    KeyIsPrefix(token, "label");
    KeyIsPrefix(token, "scn");
    KeyIsPrefix(token, "seed");
    KeyIsPrefix(token, "cut");
    KeyIsPrefix(token, "att");
    KeyIsPrefix(token, "dur");
  }

  lemma KeysByName()
    ensures KEYS[0] == "label" + "=" && KEYS[1] == "scn" + "=" && KEYS[2] == "seed" + "="
    ensures KEYS[3] == "cut" + "=" && KEYS[4] == "att" + "=" && KEYS[5] == "dur" + "="
  {
  }

  /** parse_option: the first rule whose key starts the token, each at most once. */
  method ReadOption(token: string, item: Item, seen: seq<bool>, ghost base: Item, ghost given: Given)
    returns (fault: Option<Code>, filled: Item, marked: seq<bool>, ghost after: Given)
    requires Agrees(item, seen, base, given)
    ensures fault.Some? ==> AddOption(token, given) == Bad(fault.value)
    ensures fault.None? ==> AddOption(token, given) == Fine(after) && Agrees(filled, marked, base, after)
  {
    hide AddOption, Added;
    after := given;
    for index := 0 to |KEYS|
      invariant forall i :: 0 <= i < index ==> !(KEYS[i] <= token)
    {
      if KEYS[index] <= token {
        OptionByKey(token, given, index);
        assert SeenAt(index, given) == seen[index];
        if seen[index] {
          return Some(Syntax), item, seen, given;
        }
        fault, filled, after := ReadValue(index, token[|KEYS[index]|..], item, base, seen, given);
        marked := seen[index := true];
        return;
      }
    }
    NoKey(token, given);
    fault, filled, marked := Some(Syntax), item, seen;
  }

  method ReadOptions(reader: TokenReader, base: Item) returns (fault: Option<Code>, item: Item, ghost given: Given)
    requires base == ItemOf(base.file, base.gapFrames, base.route, base.line, NONE_GIVEN)
    modifies reader
    ensures fault.Some? ==> AddOptions(Tokens(old(reader.rest)), NONE_GIVEN) == Bad(fault.value)
    ensures fault.None? ==> AddOptions(Tokens(old(reader.rest)), NONE_GIVEN) == Fine(given)
    ensures fault.None? ==> item == ItemOf(base.file, base.gapFrames, base.route, base.line, given)
  {
    hide AddOption, Tokens;
    ghost var all := Tokens(reader.rest);
    item := base;
    given := NONE_GIVEN;
    var seen := [false, false, false, false, false, false];
    ghost var left := Tokens(reader.rest);
    var token := reader.Next();
    while token.Some?
      invariant Agrees(item, seen, base, given)
      invariant token.Some? <==> left != []
      invariant left != [] ==> token.value == left[0] && Tokens(reader.rest) == left[1..]
      invariant AddOptions(all, NONE_GIVEN) == AddOptions(left, given)
      decreases |left|
    {
      ghost var after;
      fault, item, seen, after := ReadOption(token.value, item, seen, base, given);
      if fault.Some? {
        return;
      }
      given := after;
      left := left[1..];
      token := reader.Next();
    }
    fault := None;
  }

  method AllLineChars(text: string) returns (all: bool)
    ensures all <==> !exists i :: 0 <= i < |text| && !IsLineChar(text[i])
  {
    for k := 0 to |text|
      invariant forall i :: 0 <= i < k ==> IsLineChar(text[i])
    {
      if !IsLineChar(text[k]) {
        return false;
      }
    }
    all := true;
  }

  /** parse_fields. */
  method ReadFields(file: string, gap: string, route: string, usb: bool) returns (fault: Option<Code>, frames: nat)
    ensures fault == CheckFields(file, gap, route, usb)
    ensures fault.None? ==> Seconds.ParseGap(gap) == Some(frames)
  {
    hide IsShortName, Seconds.ParseGap;
    NamesAgree(file, "WAV");
    frames := 0;
    if !NamedAtPoint(file, "WAV") {
      return Some(BadFile), 0;
    }
    var length := Seconds.ReadGap(gap);
    if length.None? {
      return Some(BadGap), 0;
    }
    frames := length.value;
    if route == "CODEC" {
      return None, frames;
    }
    if route != "USB" {
      return Some(BadRoute), frames;
    }
    fault := if !usb then Some(RouteUnavailable) else None;
  }

  /** parse_line of the board: the same item, or the same first refusal, as the host's. */
  method ReadLine(text: string, line: nat, usb: bool) returns (parsed: Parsed)
    ensures parsed == ParseLine(text, line, usb)
  {
    hide Tokens, CheckFields, AddOptions, Seconds.ParseGap;
    var printable := AllLineChars(text);
    if !printable {
      return Refused(Syntax);
    }
    ghost var tokens := Tokens(text);
    var reader := new TokenReader(text);
    var file := reader.Next();
    if file.None? {
      return Nothing;
    }
    var gap := reader.Next();
    var route := reader.Next();
    if gap.None? || route.None? {
      return Refused(Syntax);
    }
    assert tokens[1..][1..] == tokens[2..] && tokens[2..][1..] == tokens[3..];
    var fault, frames := ReadFields(file.value, gap.value, route.value, usb);
    if fault.Some? {
      return Refused(fault.value);
    }
    var code, item, given := ReadOptions(reader, ItemOf(file.value, frames, RouteOf(route.value), line, NONE_GIVEN));
    if code.Some? {
      return Refused(code.value);
    }
    if item.seed.Some? && item.scenario.None? {
      return Refused(SeedNoScenario);
    }
    parsed := Got(item);
  }
}
