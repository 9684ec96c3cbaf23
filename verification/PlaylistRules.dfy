/**
 What a playlist means, apart from how it is read (host/make_playlist.py, common/playlist.hpp):
 which words a line has, what each of them is refused for, and which items a file gives.
 */
module PlaylistRules {
  import opened Words
  import opened Texts
  import opened CutRules
  import opened PlaylistLine
  import opened PlaylistFile
  import CutText
  import Attenuation
  import Seconds

  // The words of a line.

  lemma SkipsOver(spaces: string, text: string)
    requires forall i :: 0 <= i < |spaces| ==> IsSeparator(spaces[i])
    ensures Skip(spaces + text) == |spaces| + Skip(text) && (spaces + text)[Skip(spaces + text)..] == text[Skip(text)..]
    decreases |spaces|
  {
    if spaces == "" {
      assert spaces + text == text;
    } else {
      SkipsOver(spaces[1..], text);
      assert (spaces + text)[1..] == spaces[1..] + text;
    }
  }

  lemma WordEndIs(text: string, at: nat)
    requires at <= |text| && (forall i :: 0 <= i < at ==> !IsSeparator(text[i]))
    requires at < |text| ==> IsSeparator(text[at])
    ensures WordEnd(text) == at
  {
    hide WordEnd;
  }

  lemma WordsAfterSpaces(spaces: string, text: string)
    requires forall i :: 0 <= i < |spaces| ==> IsSeparator(spaces[i])
    ensures WordsOf(spaces + text) == WordsOf(text)
  {
    hide Skip, WordEnd;
    SkipsOver(spaces, text);
  }

  lemma NoWords()
    ensures WordsOf("") == []
  {
    assert Skip("") == 0;
  }

  /** Characters without a separator are one word. */
  lemma OneWord(word: string)
    requires word != "" && forall i :: 0 <= i < |word| ==> !IsSeparator(word[i])
    ensures WordsOf(word) == [word]
  {
    WordEndIs(word, |word|);
    NoWords();
    hide WordEnd;
    assert Skip(word) == 0 && word[0..] == word && word[..|word|] == word && word[|word|..] == "";
  }

  /** The word a text begins with, and the rest. */
  lemma WordFirst(word: string, rest: string)
    requires word != "" && forall i :: 0 <= i < |word| ==> !IsSeparator(word[i])
    requires rest != "" ==> IsSeparator(rest[0])
    ensures WordsOf(word + rest) == [word] + WordsOf(rest)
  {
    var text := word + rest;
    WordEndIs(text, |word|);
    hide WordEnd;
    assert Skip(text) == 0 && text[0..] == text && text[..|word|] == word && text[|word|..] == rest;
  }

  /** A separator parts a line: the words of both sides, one after the other. */
  lemma {:induction false} WordsInParts(a: string, separator: char, b: string)
    requires IsSeparator(separator)
    ensures WordsOf(a + [separator] + b) == WordsOf(a) + WordsOf(b)
    decreases |a|
  {
    hide WordsOf, Skip, WordEnd;
    var spaces, text := a[..Skip(a)], a[Skip(a)..];
    assert a == spaces + text;
    WordsAfterSpaces(spaces, text);
    if text == "" {
      assert a + [separator] + b == (spaces + [separator]) + b;
      WordsAfterSpaces(spaces + [separator], b);
      NoWords();
    } else {
      var word, rest := text[..WordEnd(text)], text[WordEnd(text)..];
      assert a + [separator] + b == spaces + (word + (rest + [separator] + b));
      WordsAfterSpaces(spaces, word + (rest + [separator] + b));
      assert word != "" by {
        StartsAWord(a);
      }
      WordFirst(word, rest + [separator] + b);
      WordFirst(word, rest);
      assert text == word + rest;
      WordsInParts(rest, separator, b);
    }
  }

  lemma StartsAWord(text: string)
    ensures Skip(text) < |text| ==> WordEnd(text[Skip(text)..]) > 0
  {
  }

  lemma {:induction false} CommentCutsOff(words: seq<string>, comment: seq<string>)
    requires forall i :: 0 <= i < |words| ==> words[i] != ""
    requires comment != [] && comment[0] != "" && comment[0][0] == '#'
    ensures UpToComment(words + comment) == UpToComment(words)
  {
    if words == [] {
      assert words + comment == comment;
    } else {
      CommentCutsOff(words[1..], comment);
      assert (words + comment)[1..] == words[1..] + comment;
    }
  }

  /** A comment begins where a word would begin with '#', and nothing from there on counts. */
  lemma CommentIsIgnored(line: string, comment: string)
    requires line == "" || IsSeparator(line[|line| - 1])
    ensures Tokens(line + "#" + comment) == Tokens(line)
  {
    hide WordsOf, Skip, UpToComment;
    var rest := "#" + comment;
    var word := rest[..WordEnd(rest)];
    assert rest == word + rest[WordEnd(rest)..];
    assert WordEnd(rest) > 0 && word[0] == '#';
    WordFirst(word, rest[WordEnd(rest)..]);
    if line == "" {
      assert line + "#" + comment == rest;
      NoWords();
      CommentCutsOff([], WordsOf(rest));
      assert [] + WordsOf(rest) == WordsOf(rest);
    } else {
      var front, separator := line[..|line| - 1], line[|line| - 1];
      assert line + "#" + comment == front + [separator] + rest;
      WordsInParts(front, separator, rest);
      WordsInParts(front, separator, "");
      NoWords();
      assert line == front + [separator] + "" && WordsOf(front) + [] == WordsOf(front);
      CommentCutsOff(WordsOf(front), WordsOf(rest));
    }
  }

  /** Without a word that begins with '#', every word counts. */
  lemma {:induction false} AllWordsCount(words: seq<string>)
    requires forall i :: 0 <= i < |words| ==> words[i] != "" && words[i][0] != '#'
    ensures UpToComment(words) == words
  {
    if words != [] {
      AllWordsCount(words[1..]);
    }
  }

  // What each word is refused for.

  /** The first three words of an item: which of them is named. */
  lemma FieldsAreNamed(file: string, gap: string, route: string, usb: bool)
    ensures var fault := CheckFields(file, gap, route, usb);
            var named, timed := IsShortName(file, "WAV"), Seconds.ParseGap(gap).Some?;
            && (fault == Some(BadFile) <==> !named)
            && (fault == Some(BadGap) <==> named && !timed)
            && (fault == Some(BadRoute) <==> named && timed && route !in {"USB", "CODEC"})
            && (fault == Some(RouteUnavailable) <==> named && timed && route == "USB" && !usb)
            && (fault.None? <==> named && timed && (route == "CODEC" || (route == "USB" && usb)))
  {
    hide IsShortName, Seconds.ParseGap;
  }

  /** What a value is refused for under each key; a key given before, or no key at all, is a fault of syntax. */
  lemma OptionsAreNamed(value: string, given: Given)
    ensures given.tag.None? ==> (AddOption("label=" + value, given) == Bad(BadLabel) <==> !IsLabel(value))
    ensures given.scenario.None? ==> (AddOption("scn=" + value, given) == Bad(BadScenario) <==> !IsShortName(value, "SCN"))
    ensures given.seed.None? ==> (AddOption("seed=" + value, given) == Bad(BadSeed) <==> Number(value).None?)
    ensures given.cuts.None? ==> (AddOption("cut=" + value, given) == Bad(BadCut) <==> CutText.ParseEntries(value).None?)
    ensures given.tenths.None? ==> (AddOption("att=" + value, given) == Bad(BadAttenuation) <==> Attenuation.Parse(value).None?)
    ensures given.duration.None? ==> (AddOption("dur=" + value, given) == Bad(BadDuration) <==> Seconds.ParseDuration(value).None?)
    ensures given.tag.Some? ==> AddOption("label=" + value, given) == Bad(Syntax)
    ensures given.scenario.Some? ==> AddOption("scn=" + value, given) == Bad(Syntax)
    ensures given.seed.Some? ==> AddOption("seed=" + value, given) == Bad(Syntax)
    ensures given.cuts.Some? ==> AddOption("cut=" + value, given) == Bad(Syntax)
    ensures given.tenths.Some? ==> AddOption("att=" + value, given) == Bad(Syntax)
    ensures given.duration.Some? ==> AddOption("dur=" + value, given) == Bad(Syntax)
  {
    hide AddOption, IsLabel, IsShortName, Number, CutText.ParseEntries, Attenuation.Parse, Seconds.ParseDuration, Judge;
    forall index: nat | index < 6
      ensures AddOption(KEYS[index] + value, given) == if SeenAt(index, given) then Bad(Syntax) else Added(index, value, given)
    {
      OptionByKey(KEYS[index] + value, given, index);
      assert (KEYS[index] + value)[|KEYS[index]|..] == value;
    }
    assert KEYS[0] == "label=" && KEYS[1] == "scn=" && KEYS[2] == "seed=" && KEYS[3] == "cut=" && KEYS[4] == "att=" && KEYS[5] == "dur=";
  }

  /** A cut list of the right form is refused for the rule that it breaks, and for no other. */
  lemma CutsAreNamed(value: string, given: Given, verdict: Verdict)
    requires given.cuts.None? && CutText.ParseEntries(value).Some?
    ensures AddOption("cut=" + value, given) == Bad(CutRule(verdict))
       <==> verdict != Accepted && NamesTheRule(CutText.ParseEntries(value).value, verdict)
  {
    hide AddOption, CutText.ParseEntries, Judge, NamesTheRule;
    var es := CutText.ParseEntries(value).value;
    assert KEYS[3] == "cut=";
    OptionByKey("cut=" + value, given, 3);
    assert ("cut=" + value)[|KEYS[3]|..] == value;
    VerdictNamesTheRule(es);
    OnlyOneRule(es, verdict, Judge(es));
  }

  /** A list breaks one rule first. */
  lemma OnlyOneRule(es: seq<Entry>, v: Verdict, w: Verdict)
    requires NamesTheRule(es, w)
    ensures NamesTheRule(es, v) <==> v == w
  {
    hide WindowsBounded;
    var ordered := forall i :: 0 < i < |es| ==> !Misplaced(es, i);
    forall i: nat, j: nat | FirstMisplaced(es, i) && FirstMisplaced(es, j)
      ensures i == j && !ordered
    {
    }
  }

  /** Which lines give an item, and what it takes from the words; any character but a printable or a tab is a fault of syntax. */
  lemma LineIsTaken(text: string, line: nat, usb: bool)
    ensures (exists i :: 0 <= i < |text| && !(' ' <= text[i] <= '~' || text[i] == '\t')) ==> ParseLine(text, line, usb) == Refused(Syntax)
    ensures ParseLine(text, line, usb).Nothing? <==> Tokens(text) == [] && forall i :: 0 <= i < |text| ==> IsLineChar(text[i])
    ensures var parsed, words := ParseLine(text, line, usb), Tokens(text);
            parsed.Got? ==>
              && |words| >= 3 && AddOptions(words[3..], NONE_GIVEN).Fine?
              && var item, given := parsed.item, AddOptions(words[3..], NONE_GIVEN).value;
                 && IsShortName(item.file, "WAV") && item.file == words[0] && Seconds.ParseGap(words[1]) == Some(item.gapFrames)
                 && words[2] == (if item.route.Usb? then "USB" else "CODEC") && (item.route.Usb? ==> usb) && item.line == line
                 && item.tag == given.tag && item.scenario == given.scenario && item.seed == given.seed && item.duration == given.duration
                 && item.cuts == (if given.cuts.Some? then given.cuts.value else [])
                 && item.tenths == (if given.tenths.Some? then given.tenths.value else 0)
                 && (item.seed.Some? ==> item.scenario.Some?)
    ensures ParseLine(text, line, usb) == Refused(SeedNoScenario) ==>
              && |Tokens(text)| > 3 && AddOptions(Tokens(text)[3..], NONE_GIVEN).Fine?
              && AddOptions(Tokens(text)[3..], NONE_GIVEN).value.seed.Some? && AddOptions(Tokens(text)[3..], NONE_GIVEN).value.scenario.None?
  {
    hide Tokens, IsShortName, Seconds.ParseGap, AddOption;
    if |Tokens(text)| >= 3 {
      var words := Tokens(text);
      FieldsAreNamed(words[0], words[1], words[2], usb);
      OptionsRefuse(words[3..], NONE_GIVEN);
    }
  }

  /** No option by itself is refused for a seed without a scenario. */
  lemma {:induction false} OptionsRefuse(tokens: seq<string>, given: Given)
    ensures AddOptions(tokens, given) != Bad(SeedNoScenario)
    ensures tokens == [] ==> AddOptions(tokens, given) == Fine(given)
    decreases |tokens|
  {
    hide Find, IsLabel, IsShortName, Number, CutText.ParseEntries, Attenuation.Parse, Seconds.ParseDuration, Judge;
    if tokens != [] && AddOption(tokens[0], given).Fine? {
      OptionsRefuse(tokens[1..], AddOption(tokens[0], given).value);
    }
  }

  // The items of a file.

  /** The text of a line: without one carriage return at its end. */
  lemma ReturnIsDropped(line: string)
    ensures DropReturn(line + "\r") == line
    ensures line == "" || line[|line| - 1] != '\r' ==> DropReturn(line) == line
  {
    assert (line + "\r")[..|line|] == line;
  }

  /** Line `number`, as a line alone. */
  ghost function LineAt(lines: seq<string>, number: nat, usb: bool): Parsed
    requires 1 <= number <= |lines|
  {
    ParseLine(DropReturn(lines[number - 1]), number, usb)
  }

  /** The items of the lines that give one, whatever else is among them. */
  ghost function ItemsOf(lines: seq<string>, usb: bool): seq<Item> {
    if lines == [] then []
    else
      var last := LineAt(lines, |lines|, usb);
      ItemsOf(lines[..|lines| - 1], usb) + if last.Got? then [last.item] else []
  }

  ghost predicate TagsApart(items: seq<Item>) {
    forall i, j :: 0 <= i < j < |items| && items[i].tag.Some? ==> items[i].tag != items[j].tag
  }

  /** A line alone can be read: it is not too long, and not refused. */
  ghost predicate CanRead(lines: seq<string>, number: nat, usb: bool)
    requires 1 <= number <= |lines|
  {
    |lines[number - 1]| <= 511 && !LineAt(lines, number, usb).Refused?
  }

  ghost predicate AllRead(lines: seq<string>, usb: bool) {
    forall k :: 1 <= k <= |lines| ==> CanRead(lines, k, usb)
  }

  /** Lines that can all be kept: each can be read, they give no more than 256 items, and no label twice. */
  ghost predicate Readable(lines: seq<string>, usb: bool) {
    AllRead(lines, usb) && |ItemsOf(lines, usb)| <= 256 && TagsApart(ItemsOf(lines, usb))
  }

  /** What the last line is refused for, on its own or after the items before it. */
  ghost predicate Offends(lines: seq<string>, usb: bool, code: Code)
    requires lines != []
  {
    var raw, before := lines[|lines| - 1], ItemsOf(lines[..|lines| - 1], usb);
    if |raw| > 511 then code == LineTooLong
    else
      match LineAt(lines, |lines|, usb)
      case Nothing => false
      case Refused(own) => code == own
      case Got(item) =>
        if |before| >= 256 then code == Code.TooMany
        else code == LabelDuplicate && item.tag.Some? && exists i :: 0 <= i < |before| && before[i].tag == item.tag
  }

  lemma AllReadFront(lines: seq<string>, usb: bool)
    requires lines != []
    ensures AllRead(lines, usb) <==> AllRead(lines[..|lines| - 1], usb) && CanRead(lines, |lines|, usb)
  {
    hide LineAt;
    var front := lines[..|lines| - 1];
    forall k | 1 <= k <= |front|
      ensures CanRead(front, k, usb) == CanRead(lines, k, usb)
    {
      SameLine(lines, k, usb);
    }
  }

  lemma SameLine(lines: seq<string>, k: nat, usb: bool)
    requires 1 <= k < |lines|
    ensures lines[..|lines| - 1][k - 1] == lines[k - 1] && LineAt(lines[..|lines| - 1], k, usb) == LineAt(lines, k, usb)
  {
    hide ParseLine, DropReturn;
  }

  lemma TagsInFront(items: seq<Item>, all: seq<Item>)
    requires items <= all && TagsApart(all)
    ensures TagsApart(items)
  {
    forall i, j | 0 <= i < j < |items| && items[i].tag.Some?
      ensures items[i].tag != items[j].tag
    {
      assert all[i] == items[i] && all[j] == items[j];
    }
  }

  lemma ReadableFront(lines: seq<string>, usb: bool)
    requires lines != []
    ensures Readable(lines, usb) <==>
            && Readable(lines[..|lines| - 1], usb) && CanRead(lines, |lines|, usb)
            && |ItemsOf(lines, usb)| <= 256 && TagsApart(ItemsOf(lines, usb))
  {
    hide LineAt, AllRead, CanRead, TagsApart;
    AllReadFront(lines, usb);
    var items, all := ItemsOf(lines[..|lines| - 1], usb), ItemsOf(lines, usb);
    assert items <= all;
    if TagsApart(all) {
      TagsInFront(items, all);
    }
  }

  /** Lines are kept exactly if they are readable, and then for their items. */
  lemma {:induction false} LinesMean(lines: seq<string>, usb: bool)
    ensures TakeLines(lines, usb) == Items(ItemsOf(lines, usb)) <==> Readable(lines, usb)
    ensures TakeLines(lines, usb).Items? ==> Readable(lines, usb)
    decreases |lines|
  {
    hide LineAt, CanRead, Readable, TagsApart;
    if lines == [] {
      NothingIsReadable(usb);
    } else {
      LinesMean(lines[..|lines| - 1], usb);
      ReadableFront(lines, usb);
      if Readable(lines[..|lines| - 1], usb) {
        LastLine(lines, usb);
      }
    }
  }

  lemma NothingIsReadable(usb: bool)
    ensures Readable([], usb)
  {
  }

  /** After readable lines, one more. */
  lemma LastLine(lines: seq<string>, usb: bool)
    requires lines != [] && Readable(lines[..|lines| - 1], usb)
    ensures var before, raw := ItemsOf(lines[..|lines| - 1], usb), lines[|lines| - 1];
            var taken := TakeLine(before, raw, |lines|, usb);
            && (taken.Items? <==> Readable(lines, usb))
            && (taken.Items? ==> taken.items == ItemsOf(lines, usb))
            && (taken.Refusal? ==> taken.line == |lines| && Offends(lines, usb, taken.code))
  {
    hide ParseLine, DropReturn, AllRead, TagsApart;
    ReadableFront(lines, usb);
    var before, line := ItemsOf(lines[..|lines| - 1], usb), LineAt(lines, |lines|, usb);
    assert |before| <= 256 && TagsApart(before);
    hide Readable;
    if line.Got? {
      OneMoreTag(before, line.item);
    } else {
      assert before + [] == before;
    }
  }

  lemma OneMoreTag(items: seq<Item>, item: Item)
    requires TagsApart(items)
    ensures TagsApart(items + [item]) <==> !HasTag(items, item)
  {
    if HasTag(items, item) {
      var i :| 0 <= i < |items| && items[i].tag == item.tag;
      assert (items + [item])[i].tag == (items + [item])[|items|].tag;
    }
  }

  lemma OffendsOnce(lines: seq<string>, usb: bool, a: Code, b: Code)
    requires lines != [] && Offends(lines, usb, a) && Offends(lines, usb, b)
    ensures a == b
  {
    hide ParseLine, DropReturn;
  }

  /** Lines are refused at the first that cannot be kept, and for what that one is refused. */
  lemma {:induction false} RefusalIsTheFirst(lines: seq<string>, usb: bool, code: Code, number: nat)
    ensures TakeLines(lines, usb) == Refusal(code, number) <==>
            && 1 <= number <= |lines| && Readable(lines[..number - 1], usb) && !Readable(lines[..number], usb)
            && Offends(lines[..number], usb, code)
    decreases |lines|
  {
    hide TakeLine, Readable, Offends, ItemsOf;
    if lines != [] {
      var front := lines[..|lines| - 1];
      LinesMean(front, usb);
      LinesMean(lines, usb);
      RefusalIsTheFirst(front, usb, code, number);
      if 1 <= number <= |front| {
        assert front[..number - 1] == lines[..number - 1] && front[..number] == lines[..number];
      }
      assert lines[..|lines|] == lines;
      if Readable(front, usb) {
        LastLine(lines, usb);
        forall other | Offends(lines, usb, code) && Offends(lines, usb, other)
          ensures other == code
        {
          OffendsOnce(lines, usb, code, other);
        }
        if 1 <= number <= |front| {
          ReadablePrefix(lines, number, usb);
        }
      } else if number == |lines| {
        assert lines[..number - 1] == front;
      }
    }
  }

  lemma {:induction false} ReadablePrefix(lines: seq<string>, k: nat, usb: bool)
    requires k < |lines| && Readable(lines[..|lines| - 1], usb)
    ensures Readable(lines[..k], usb)
    decreases |lines|
  {
    hide Readable;
    var front := lines[..|lines| - 1];
    if k == |front| {
      assert lines[..k] == front;
    } else {
      ReadableFront(front, usb);
      ReadablePrefix(front, k, usb);
      assert front[..k] == lines[..k];
    }
  }

  /** The lines of a text: what line feeds part, without an empty piece at the end. */
  function LinesOf(text: string): seq<string> {
    var pieces := Split(text, '\n');
    if pieces[|pieces| - 1] == "" then pieces[..|pieces| - 1] else pieces
  }

  /**
   Which files are taken, and for which items: those of at most 262144 characters whose lines can all
   be kept and give any item. Any other is refused as a whole, or at its first line that cannot be.
   */
  lemma FileMeans(text: string, usb: bool)
    ensures forall items :: ParseFile(text, usb) == Items(items) <==>
              |text| <= 262144 && Readable(LinesOf(text), usb) && items == ItemsOf(LinesOf(text), usb) && items != []
    ensures forall code, number: nat ::
              ParseFile(text, usb) == Refusal(code, number) && number > 0 <==>
                && |text| <= 262144 && 1 <= number <= |LinesOf(text)|
                && Readable(LinesOf(text)[..number - 1], usb) && !Readable(LinesOf(text)[..number], usb)
                && Offends(LinesOf(text)[..number], usb, code)
    ensures ParseFile(text, usb) == Refusal(TooLarge, 0) <==> |text| > 262144
    ensures ParseFile(text, usb) == Refusal(Empty, 0) <==>
              |text| <= 262144 && Readable(LinesOf(text), usb) && ItemsOf(LinesOf(text), usb) == []
  {
    hide Split, TakeLines, ItemsOf, Readable, Offends;
    var lines := LinesOf(text);
    LinesMean(lines, usb);
    var result := TakeLines(lines, usb);
    forall code, number: nat
      ensures result == Refusal(code, number) <==>
                && 1 <= number <= |lines| && Readable(lines[..number - 1], usb) && !Readable(lines[..number], usb)
                && Offends(lines[..number], usb, code)
    {
      RefusalIsTheFirst(lines, usb, code, number);
    }
  }
}
