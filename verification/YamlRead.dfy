/** What the loader reads back of a selection after the edits of YamlEdit. */
module YamlRead {
  import opened Basics
  import opened Text
  import opened YamlEdit
  import opened YamlLoad

  // ------------------------------------------------------------- one item

  /** A key that the text of a list item shows as it is: not empty, no blanks around it, no comment mark. */
  predicate Plain(text: string) {
    text != "" && Trimmed(text, IsSpace) && HashAt(" " + text) == |text| + 1
  }

  /** A key that the loader takes for the text it is: no mapping, no number, no quotes, no word of its own. */
  predicate Literal(key: string) {
    Plain(key) && !Nests(key) && Scalar(key) == Text(key)
  }

  predicate Blank(text: string) {
    RTrim(text, IsSpace) == ""
  }

  /** What a line shows behind its dash or colon. */
  function Shown(key: string): string {
    RTrim((" " + key)[..HashAt(" " + key)], IsSpace)
  }

  lemma RTrimShorter(s: string)
    ensures |RTrim(s, IsSpace)| <= |s| && (|RTrim(s, IsSpace)| == |s| ==> RTrim(s, IsSpace) == s)
    ensures RTrim(s, IsSpace) != "" ==> RTrim(s, IsSpace)[0] == s[0]
  {
    RTrimShape(s, IsSpace);
  }

  lemma PlainStays(key: string)
    ensures Plain(key) ==> HashAt(" " + key) == |key| + 1 && RTrim(" " + key, IsSpace) == " " + key && Strip(key) == key
    ensures Plain(key) ==> (" " + key)[..|key| + 1] == " " + key && (" " + key)[1..] == key
  {
    if Plain(key) { TrimShape(key, IsSpace); }
  }

  /** The shown text is the key exactly when the key is plain, and is no longer than the key otherwise. */
  lemma ShownExactly(key: string)
    ensures Shown(key) != "" ==> Shown(key)[0] == ' ' && |Strip(Shown(key)[1..])| <= |key|
    ensures Shown(key) != "" && Strip(Shown(key)[1..]) == key <==> Plain(key)
  {
    var text := " " + key;
    var g := HashAt(text);
    var shown := Shown(key);
    RTrimShorter(text[..g]);
    PlainStays(key);
    if shown != "" {
      assert |shown[1..]| <= g - 1 <= |key|;
      TrimShape(shown[1..], IsSpace);
      if Strip(shown[1..]) == key {
        assert g == |text| && shown == text && shown[1..] == key;
        TrimShape(key, IsSpace);
      }
    }
  }

  lemma ItemToken(key: string)
    ensures TokenOf(ItemLine(key)) == [Token(6, "-" + Shown(key))]
    ensures StartsWith("-" + Shown(key), "- ") <==> Shown(key) != ""
    ensures Shown(key) != "" ==> ItemText("-" + Shown(key)) == Strip(Shown(key)[1..])
    ensures Shown(key) == "" ==> !IsEntry(Token(6, "-" + Shown(key)))
  {
    var text, c := " " + key, "-" + Shown(key);
    assert ItemLine(key) == Pad(6) + "-" + text;
    assert HashAt("-") == 1;
    ContentWritten(6, "-", text);
    RTrimShorter(text[..HashAt(text)]);
    if Shown(key) != "" { assert c[2..] == Shown(key)[1..]; }
  }

  lemma ScalarText(text: string, key: string)
    requires |text| <= |key| && Scalar(text) == Text(key)
    ensures text == key
  {
    hide IsNumber, ZeroLed;
  }

  predicate ReadsAs(t: Token, key: string, ts: seq<Token>) {
    StartsWith(t.content, "- ") && ParseItem(ItemText(t.content), ts, 6) == Some((Text(key), ts))
  }

  /** An item line is read as the text of its key exactly when the key is literal; what follows it matters to other keys
      only. */
  lemma ItemReadsBack(key: string, ts: seq<Token>)
    ensures |TokenOf(ItemLine(key))| == 1
    ensures Literal(key) ==> ReadsAs(TokenOf(ItemLine(key))[0], key, ts)
    ensures Ends(ts, 6) && ReadsAs(TokenOf(ItemLine(key))[0], key, ts) ==> Literal(key)
  {
    ItemToken(key);
    ShownExactly(key);
    hide Strip, Shown, TokenOf, HashAt, Trimmed;
    if Shown(key) != "" {
      var text := Strip(Shown(key)[1..]);
      if Scalar(text) == Text(key) { ScalarText(text, key); }
      assert ItemText(TokenOf(ItemLine(key))[0].content) == text;
      if Plain(key) {
        assert text == key;
      } else if Ends(ts, 6) {
        assert Child(ts, 6) == Some((Null, ts));
        assert text != "" && Nests(text) ==> ParseItem(text, ts, 6).value.0.Map?;
      }
    }
  }

  // ------------------------------------------------------------- the items of a list

  function Texts(keys: seq<string>): (r: seq<Yaml>)
    ensures |r| == |keys| && forall i :: 0 <= i < |keys| ==> r[i] == Text(keys[i])
  {
    seq(|keys|, i requires 0 <= i < |keys| => Text(keys[i]))
  }

  ghost predicate AllLiteral(keys: seq<string>) {
    forall i :: 0 <= i < |keys| ==> Literal(keys[i])
  }

  lemma LiteralCons(keys: seq<string>)
    requires keys != []
    ensures AllLiteral(keys) <==> Literal(keys[0]) && AllLiteral(keys[1..])
  {
    hide Literal;
    assert keys == [keys[0]] + keys[1..];
  }

  lemma LinesCons(keys: seq<string>)
    requires keys != []
    ensures ItemLines(keys) == [ItemLine(keys[0])] + ItemLines(keys[1..])
    ensures Texts(keys) == [Text(keys[0])] + Texts(keys[1..])
  {
    hide ItemLine;
  }

  lemma KeysCons(keys: seq<string>)
    requires keys != []
    ensures Texts(keys) == [Text(keys[0])] + Texts(keys[1..])
    ensures Tokens(ItemLines(keys)) == TokenOf(ItemLine(keys[0])) + Tokens(ItemLines(keys[1..]))
    ensures AllLiteral(keys) <==> Literal(keys[0]) && AllLiteral(keys[1..])
  {
    hide *;
    LinesCons(keys);
    TokensCons(ItemLine(keys[0]), ItemLines(keys[1..]));
    LiteralCons(keys);
  }

  /** One item token in front of others. */
  lemma ItemStep(t: Token, ts: seq<Token>, items: seq<Yaml>)
    requires t.indent == 6
    ensures ParseList([t] + ts, 6, items) ==
      if !StartsWith(t.content, "- ") then Some((items, [t] + ts))
      else match ParseItem(ItemText(t.content), ts, 6)
           case None => None case Some(r) => ParseList(r.1, 6, items + [r.0])
  {
    assert ([t] + ts)[1..] == ts;
  }

  lemma ItemTokens(keys: seq<string>, more: seq<Token>)
    requires Ends(more, 6)
    ensures Ends(Tokens(ItemLines(keys)) + more, 6)
  {
    hide TokenOf, ItemLine, Shown;
    if keys == [] {
      assert Tokens(ItemLines(keys)) + more == more;
    } else {
      KeysCons(keys);
      ItemToken(keys[0]);
    }
  }

  /** Literal keys are read one by one, and the list goes on behind them. */
  lemma {:induction false} LiteralItems(keys: seq<string>, more: seq<Token>, items: seq<Yaml>)
    requires AllLiteral(keys)
    ensures ParseList(Tokens(ItemLines(keys)) + more, 6, items) == ParseList(more, 6, items + Texts(keys))
  {
    hide TokenOf, ItemLine, Literal, ParseItem, ParseList, ItemText;
    if keys == [] {
      assert Tokens(ItemLines(keys)) + more == more && items + Texts(keys) == items;
    } else {
      KeysCons(keys);
      var ts := Tokens(ItemLines(keys[1..])) + more;
      ItemReadsBack(keys[0], ts);
      ItemToken(keys[0]);
      var t := TokenOf(ItemLine(keys[0]))[0];
      ItemStep(t, ts, items);
      Regroup([t], Tokens(ItemLines(keys[1..])), more);
      LiteralItems(keys[1..], more, items + [Text(keys[0])]);
      Regroup(items, [Text(keys[0])], Texts(keys[1..]));
    }
  }

  /** What is read as the texts of the keys are literal keys. */
  lemma {:induction false} OnlyLiteral(keys: seq<string>, more: seq<Token>, items: seq<Yaml>)
    requires Ends(more, 6)
    requires var r := ParseList(Tokens(ItemLines(keys)) + more, 6, items); r.Some? && r.value.0 == items + Texts(keys)
    ensures AllLiteral(keys)
  {
    hide TokenOf, ItemLine, Literal, ParseItem, ParseList, ItemText, AllLiteral;
    if keys == [] {
      NoneLiteral(keys);
    } else {
      KeysCons(keys);
      var ts := Tokens(ItemLines(keys[1..])) + more;
      ItemTokens(keys[1..], more);
      ItemReadsBack(keys[0], ts);
      ItemToken(keys[0]);
      var t := TokenOf(ItemLine(keys[0]))[0];
      ItemStep(t, ts, items);
      Regroup([t], Tokens(ItemLines(keys[1..])), more);
      Regroup(items, [Text(keys[0])], Texts(keys[1..]));
      assert |items + Texts(keys)| > |items|;
      SameSize(ItemText(t.content), ts);
      var r := ParseItem(ItemText(t.content), ts, 6);
      ListOnto(r.value.1, 6, items + [r.value.0]);
      HeadRead(items, r.value.0, ParseList(r.value.1, 6, []).value.0, Text(keys[0]), Texts(keys[1..]));
      OnlyLiteral(keys[1..], more, items + [Text(keys[0])]);
    }
  }

  lemma NoneLiteral(keys: seq<string>)
    requires keys == []
    ensures AllLiteral(keys)
  {
  }

  lemma HeadRead(items: seq<Yaml>, v: Yaml, later: seq<Yaml>, w: Yaml, rest: seq<Yaml>)
    requires items + [v] + later == items + [w] + rest
    ensures v == w
  {
    assert (items + [v] + later)[|items|] == v && (items + [w] + rest)[|items|] == w;
  }

  /** An item with nothing deeper behind it takes one token. */
  lemma SameSize(text: string, ts: seq<Token>)
    requires Ends(ts, 6)
    ensures ParseItem(text, ts, 6).Some? && ParseItem(text, ts, 6).value.1 == ts
  {
  }

  // ------------------------------------------------------------- one key of a mapping

  /** A key of letters and the like. */
  predicate Word(w: string) {
    w != "" && w[0] != '-' && forall i :: 0 <= i < |w| ==> !IsSpace(w[i]) && w[i] != ':' && w[i] != '#'
  }

  lemma StripEmpty(s: string)
    requires s == "" || !IsSpace(s[|s| - 1])
    ensures Strip(s) == "" <==> s == ""
  {
    LTrimShape(s, IsSpace);
    RTrimShape(LTrim(s, IsSpace), IsSpace);
  }

  lemma KeySplit(word: string, rest: string)
    requires Word(word) && (rest == "" || !IsSpace(rest[|rest| - 1]))
    ensures var c := word + ":" + rest;
      ':' in c && KeyOf(c) == word && RestOf(c) == Strip(rest) && !StartsWith(c, "- ") && (Strip(rest) == "" <==> rest == "")
  {
    var c := word + ":" + rest;
    FindAt(word, ':', rest);
    assert c == word + [':'] + rest && c[|word|] == ':' && c[0] == word[0];
    assert c[..|word|] == word && c[|word| + 1..] == rest;
    TrimShape(word, IsSpace);
    StripEmpty(rest);
  }

  /** A line that begins with a word and a colon is an entry of that key. */
  lemma KeyToken(n: nat, word: string, text: string, line: string)
    requires Word(word) && line == Pad(n) + (word + ":") + text
    ensures var cut := RTrim(text[..HashAt(text)], IsSpace);
      && TokenOf(line) == [Token(n, word + ":" + cut)] && IsEntry(Token(n, word + ":" + cut))
      && KeyOf(word + ":" + cut) == word && RestOf(word + ":" + cut) == Strip(cut)
      && (Strip(cut) == "" <==> cut == "") && Content(line) == word + ":" + cut
  {
    hide Pad;
    var cut := RTrim(text[..HashAt(text)], IsSpace);
    RTrimShape(text[..HashAt(text)], IsSpace);
    KeySplit(word, cut);
    HashIs(word + ":", |word| + 1);
    ContentWritten(n, word + ":", text);
  }

  /** A line that begins as the header of a key is one, and holds nothing else if it is just that. */
  lemma HeadToken(word: string, prefix: string, line: string)
    requires Word(word) && prefix == Pad(4) + (word + ":") && Hits(Prefix(prefix), line)
    ensures TokenOf(line) == [Token(4, Content(line))] && IsEntry(Token(4, Content(line)))
    ensures KeyOf(Content(line)) == word && (RestOf(Content(line)) == "" <==> Content(line) == word + ":")
  {
    var text := line[|prefix|..];
    assert line == prefix + text;
    hide Pad, Content, HashAt, RTrim, Strip, TokenOf, KeyOf, RestOf, Word;
    KeyToken(4, word, text, line);
    var cut := RTrim(text[..HashAt(text)], IsSpace);
    assert word + ":" + cut == word + ":" <==> cut == "" by { assert |word + ":" + cut| == |word + ":"| + |cut|; }
  }

  // ------------------------------------------------------------- the block of a task

  /** The selection of a task, as the next run loads it. */
  function Selection(block: seq<string>): Option<Yaml>
    requires block != []
  {
    ValueIn(Tokens(block[1..]), "selection")
  }

  /** A selection line with nothing else on it. */
  predicate Bare(line: string) {
    Content(line) == "selection:"
  }

  /** The lines in front of the selection. */
  function Front(block: seq<string>): seq<string>
    requires block != [] && !Hits(Prefix(SELECTION), block[0])
  {
    var p := First(block, 0, Prefix(SELECTION));
    if p == |block| then [] else block[1..p]
  }

  /** The lines that will follow the items. */
  function Rear(block: seq<string>): seq<string>
    requires block != []
  {
    var p := First(block, 0, Prefix(SELECTION));
    if p == |block| then block[1..] else block[First(block, p + 1, NoItem)..]
  }

  function SelectionLine(block: seq<string>): string {
    var p := First(block, 0, Prefix(SELECTION));
    if p == |block| then SELECTION else block[p]
  }

  lemma NewLayout(head: seq<string>, line: string, items: seq<string>, rear: seq<string>)
    requires |head| == 1
    ensures (head + ([line] + items) + rear)[1..] == [] + ([line] + (items + rear))
  {
  }

  lemma OldLayout(block: seq<string>, p: nat, items: seq<string>, rear: seq<string>)
    requires 0 < p < |block|
    ensures (block[..p + 1] + items + rear)[1..] == block[1..p] + ([block[p]] + (items + rear))
  {
  }

  lemma Layout(block: seq<string>, keys: seq<string>)
    requires block != [] && !Hits(Prefix(SELECTION), block[0])
    ensures Select(block, keys)[1..] == Front(block) + ([SelectionLine(block)] + (ItemLines(keys) + Rear(block)))
    ensures Hits(Prefix(SELECTION), SelectionLine(block))
  {
    var p := First(block, 0, Prefix(SELECTION));
    SelectionBare();
    NewLayout(block[..1], SELECTION, ItemLines(keys), block[1..]);
    if p < |block| { OldLayout(block, p, ItemLines(keys), Rear(block)); }
    hide Hits, ItemLines, Bare, Pad;
  }

  /** Any selection line is a key of the mapping, and holds nothing else exactly when it is bare. */
  lemma SelectionToken(line: string)
    requires Hits(Prefix(SELECTION), line)
    ensures TokenOf(line) == [Token(4, Content(line))] && IsEntry(Token(4, Content(line)))
    ensures KeyOf(Content(line)) == "selection" && (RestOf(Content(line)) == "" <==> Bare(line))
  {
    HeadToken("selection", SELECTION, line);
  }

  /** A written line of one word reads as that word. */
  lemma WordRead(head: string, line: string)
    requires head != "" && head[0] != '#' && (forall i :: 0 <= i < |head| ==> !IsSpace(head[i])) && line == Pad(4) + head
    ensures Content(line) == head && Hits(Prefix(line), line)
  {
    HashIs(head, |head|);
    hide Pad;
    ContentWritten(4, head, "");
    assert Pad(4) + head + "" == line && head + "" == head;
    assert line[..|line|] == line;
  }

  lemma SelectionBare()
    ensures Bare(SELECTION) && Hits(Prefix(SELECTION), SELECTION)
  {
    hide Hits, Pad, Content;
    WordRead("selection:", SELECTION);
  }

  lemma Inserted(block: seq<string>, line: string, items: seq<string>)
    requires block != []
    ensures var once := block[..1] + ([line] + items) + block[1..];
      |once| >= 2 && once[0] == block[0] && once[1] == line && once == once[..2] + items + block[1..]
  {
  }

  lemma NewSplit(block: seq<string>, keys: seq<string>)
    requires block != [] && First(block, 0, Prefix(SELECTION)) == |block|
    ensures var once := Select(block, keys);
      && |once| >= 2 && First(once, 0, Prefix(SELECTION)) == 1 && Bare(once[1])
      && once == once[..2] + ItemLines(keys) + block[1..]
  {
    hide Hits, ItemLines, Bare, Pad;
    SelectionBare();
    Inserted(block, SELECTION, ItemLines(keys));
    FirstIs(Select(block, keys), 0, Prefix(SELECTION), 1);
  }

  lemma OldSplit(block: seq<string>, keys: seq<string>, p: nat)
    requires block != [] && First(block, 0, Prefix(SELECTION)) == p < |block|
    ensures var once, rest := Select(block, keys), block[First(block, p + 1, NoItem)..];
      && p < |once| && First(once, 0, Prefix(SELECTION)) == p && once[p] == block[p]
      && once == once[..p + 1] + ItemLines(keys) + rest
  {
    hide Hits, ItemLines;
    var once := Select(block, keys);
    assert once[..p + 1] == block[..p + 1];
    assert forall i :: 0 <= i <= p ==> once[i] == block[i];
    FirstIs(once, 0, Prefix(SELECTION), p);
  }

  /** Where the selection stands after an edit, and what follows its items. */
  lemma SelectionSplit(block: seq<string>, keys: seq<string>) returns (p: nat, rest: seq<string>)
    requires block != []
    ensures var once := Select(block, keys);
      && p < |once| && First(once, 0, Prefix(SELECTION)) == p && once == once[..p + 1] + ItemLines(keys) + rest
      && once[p + 1..] == ItemLines(keys) + rest
    ensures First(block, 0, Prefix(SELECTION)) == |block| ==> rest == block[1..] && Bare(Select(block, keys)[p])
    ensures First(block, 0, Prefix(SELECTION)) < |block| ==>
      p == First(block, 0, Prefix(SELECTION)) && Select(block, keys)[p] == block[p] && First(rest, 0, NoItem) == 0
  {
    hide Hits, ItemLines, Bare, Select;
    var once := Select(block, keys);
    p := First(block, 0, Prefix(SELECTION));
    if p == |block| {
      NewSplit(block, keys);
      p, rest := 1, block[1..];
    } else {
      OldSplit(block, keys, p);
      rest := block[First(block, p + 1, NoItem)..];
      FirstIs(rest, 0, NoItem, 0);
    }
    Behind(once[..p + 1], ItemLines(keys), rest);
  }

  lemma Behind(a: seq<string>, b: seq<string>, c: seq<string>)
    ensures (a + b + c)[|a|..] == b + c
  {
  }

  // ------------------------------------------------------------- reading back

  /** The block offers a clean place: its lines are a mapping of indent four in front of the items and behind them, with
      no second selection behind, and the selection line holds nothing else. */
  predicate Clean(block: seq<string>)
    requires block != [] && !Hits(Prefix(SELECTION), block[0])
  {
    var front, rear := ParseMap(Tokens(Front(block)), 4, map[]), ParseMap(Tokens(Rear(block)), 4, map[]);
    && Bare(SelectionLine(block))
    && front.Some? && front.value.1 == []
    && rear.Some? && Ends(rear.value.1, 2) && "selection" !in rear.value.0
  }

  lemma EditedTokens(block: seq<string>, keys: seq<string>)
    requires block != [] && !Hits(Prefix(SELECTION), block[0])
    ensures Tokens(Select(block, keys)[1..]) == Tokens(Front(block))
      + ([Token(4, Content(SelectionLine(block)))] + (Tokens(ItemLines(keys)) + Tokens(Rear(block))))
  {
    hide Hits, Select, Front, Rear, SelectionLine, ItemLines, TokenOf, Content, Tokens;
    Layout(block, keys);
    var line, tail := SelectionLine(block), ItemLines(keys) + Rear(block);
    SelectionToken(line);
    TokensAppend(Front(block), [line] + tail);
    TokensCons(line, tail);
    TokensAppend(ItemLines(keys), Rear(block));
  }

  lemma ItemsBelow(keys: seq<string>, more: seq<Token>)
    requires keys != []
    ensures Child(Tokens(ItemLines(keys)) + more, 4) ==
      if Shown(keys[0]) == "" then None
      else match ParseList(Tokens(ItemLines(keys)) + more, 6, [])
           case None => None case Some(r) => Some((List(r.0), r.1))
  {
    hide TokenOf, ItemLine, Shown, ParseList, IsEntry;
    KeysCons(keys);
    ItemToken(keys[0]);
    var ts := Tokens(ItemLines(keys)) + more;
    assert ts[0] == Token(6, "-" + Shown(keys[0]));
    if Shown(keys[0]) == "" { assert ParseMap(ts, 6, map[]).None?; }
  }

  /** Items with nothing deeper behind them leave what follows, or stop at a line that is none. */
  lemma {:induction false} ItemsEnd(keys: seq<string>, more: seq<Token>, items: seq<Yaml>)
    requires Ends(more, 5)
    ensures var r := ParseList(Tokens(ItemLines(keys)) + more, 6, items);
      r.Some? && (r.value.1 == more || !Ends(r.value.1, 5))
  {
    hide TokenOf, ItemLine, Shown, Literal, ParseItem, ItemText;
    if keys == [] {
      assert Tokens(ItemLines(keys)) + more == more;
    } else {
      hide ParseList;
      KeysCons(keys);
      var ts := Tokens(ItemLines(keys[1..])) + more;
      ItemTokens(keys[1..], more);
      ItemToken(keys[0]);
      var t := TokenOf(ItemLine(keys[0]))[0];
      ItemStep(t, ts, items);
      Regroup([t], Tokens(ItemLines(keys[1..])), more);
      if StartsWith(t.content, "- ") {
        SameSize(ItemText(t.content), ts);
        ItemsEnd(keys[1..], more, items + [ParseItem(ItemText(t.content), ts, 6).value.0]);
      }
    }
  }

  /** The selection after an edit comes from the lines in front alone, if they break off, and else from the edited place
      and the lines behind it. */
  lemma EditedReads(block: seq<string>, keys: seq<string>)
    requires block != [] && !Hits(Prefix(SELECTION), block[0])
    ensures ':' in Content(SelectionLine(block))
    ensures Selection(Select(block, keys))
         == match ParseMap(Tokens(Front(block)), 4, map[])
            case None => None
            case Some(f) =>
              if f.1 != [] then Held(f, "selection")
              else Outcome(ParseEntry(RestOf(Content(SelectionLine(block))),
                                      Tokens(ItemLines(keys)) + Tokens(Rear(block)), 4), "selection")
  {
    Layout(block, keys);
    SelectionToken(SelectionLine(block));
    EditedTokens(block, keys);
    ValueBehind(Tokens(Front(block)), Content(SelectionLine(block)), Tokens(ItemLines(keys)) + Tokens(Rear(block)));
    hide Hits, Select, Front, Rear, SelectionLine, ItemLines, TokenOf, Content, Tokens, ParseEntry, KeyOf, RestOf,
      ParseMap, Outcome, ValueIn, Held;
  }

  lemma LiteralShown(keys: seq<string>)
    requires keys != [] && AllLiteral(keys)
    ensures Shown(keys[0]) != ""
  {
    assert Literal(keys[0]);
    ShownExactly(keys[0]);
  }

  /** With nothing but other keys behind them, items are read as the texts of the keys exactly when there are some and
      all are literal. */
  lemma UnderReads(keys: seq<string>, rear: seq<Token>)
    requires var m := ParseMap(rear, 4, map[]); m.Some? && Ends(m.value.1, 2) && "selection" !in m.value.0
    ensures Outcome(Child(Tokens(ItemLines(keys)) + rear, 4), "selection") == Some(List(Texts(keys)))
      <==> keys != [] && AllLiteral(keys)
  {
    hide ParseEntry, AllLiteral, ItemLines, Shown, Tokens;
    assert Ends(rear, 4);
    var ts := Tokens(ItemLines(keys)) + rear;
    if keys == [] {
      NoTokens(keys);
      assert ts == rear;
    } else {
      ItemsBelow(keys, rear);
      ItemsEnd(keys, rear, []);
      var r := ParseList(ts, 6, []).value;
      assert [] + Texts(keys) == Texts(keys);
      if AllLiteral(keys) {
        LiteralShown(keys);
        LiteralItems(keys, rear, []);
      } else if r.0 == Texts(keys) {
        OnlyLiteral(keys, rear, []);
      }
    }
  }

  lemma NoTokens(keys: seq<string>)
    requires keys == []
    ensures Tokens(ItemLines(keys)) == []
  {
  }

  lemma BareEntry(block: seq<string>, under: seq<Token>)
    requires block != [] && !Hits(Prefix(SELECTION), block[0])
    ensures var c := Content(SelectionLine(block)); ':' in c && (RestOf(c) == "" <==> Bare(SelectionLine(block)))
  {
    hide Content, TokenOf, Hits;
    Layout(block, []);
    SelectionToken(SelectionLine(block));
  }

  /** The next run loads exactly the given keys. */
  ghost predicate ReadsBack(block: seq<string>, keys: seq<string>)
    requires block != []
  {
    Selection(Select(block, keys)) == Some(List(Texts(keys)))
  }

  /** In a block with a clean place the loader reads exactly the given keys after the edit, if and only if there is one
      at least and every one is literal. */
  lemma SelectionReadsBack(block: seq<string>, keys: seq<string>)
    requires block != [] && !Hits(Prefix(SELECTION), block[0]) && Clean(block)
    ensures ReadsBack(block, keys) <==> keys != [] && AllLiteral(keys)
  {
    EditedReads(block, keys);
    BareEntry(block, []);
    UnderReads(keys, Tokens(Rear(block)));
    hide Hits, Select, Front, Rear, SelectionLine, ItemLines, AllLiteral, Content, Tokens, RestOf, ParseMap, Outcome;
  }

  // ------------------------------------------------------------- when the place is clean

  /** A list of no items takes no tokens. */
  lemma NoItems(ts: seq<Token>, n: int)
    ensures var r := ParseList(ts, n, []); r.Some? && r.value.0 == [] ==> r.value.1 == ts
  {
    if ts != [] && ts[0].indent == n && StartsWith(ts[0].content, "- ") {
      var r := ParseItem(ItemText(ts[0].content), ts[1..], n);
      if r.Some? { ListOnto(r.value.1, n, [] + [r.value.0]); }
    }
  }

  lemma OneLetter(k: string)
    requires k in {"a", "b", "x"}
    ensures Literal(k) && AllLiteral([k]) && Texts([k]) == [Text(k)]
  {
    HashIs(" " + k, 2);
    NoNumber(k);
    hide IsNumber;
  }

  lemma NoNumber(k: string)
    requires k in {"a", "b", "x"}
    ensures !IsNumber(k)
  {
    assert Lower(k)[..Find(Lower(k), 'e')][0] == k[0];
  }

  /** A single literal item makes of the selection what the tokens behind it leave of it. */
  lemma OneReads(k: string, rear: seq<Token>)
    requires Literal(k)
    ensures Child(Tokens(ItemLines([k])) + rear, 4)
         == match ParseList(rear, 6, []) case None => None case Some(l) => Some((List([Text(k)] + l.0), l.1))
  {
    hide ItemLines, Shown, Tokens, Literal, ParseList;
    LiteralShown([k]);
    ItemsBelow([k], rear);
    LiteralItems([k], rear, []);
    assert [] + Texts([k]) == [Text(k)];
    ListOnto(rear, 6, [Text(k)]);
  }

  /** If two lists are read that differ, then nothing behind the place interferes. */
  lemma RearClean(rest: string, rear: seq<Token>)
    requires Outcome(ParseEntry(rest, Tokens(ItemLines(["a"])) + rear, 4), "selection") == Some(List([Text("a")]))
    requires Outcome(ParseEntry(rest, Tokens(ItemLines(["b"])) + rear, 4), "selection") == Some(List([Text("b")]))
    ensures rest == ""
    ensures var r := ParseMap(rear, 4, map[]); r.Some? && Ends(r.value.1, 2) && "selection" !in r.value.0
  {
    hide Scalar, ItemLines, Tokens, ParseList, Literal, AllLiteral;
    OneLetter("a");
    OneLetter("b");
    if rest != "" {
      NotEnded("a", rear);
      assert false;
    }
    OneReads("a", rear);
    OneReads("b", rear);
    assert Child(Tokens(ItemLines(["a"])) + rear, 4) == ParseEntry(rest, Tokens(ItemLines(["a"])) + rear, 4);
    var l := ParseList(rear, 6, []).value;
    var later := ParseMap(l.1, 4, map[]).value;
    assert "selection" !in later.0;
    assert [Text("a")] + l.0 == [Text("a")];
    assert l.0 == [];
    NoItems(rear, 6);
  }

  lemma NotEnded(k: string, rear: seq<Token>)
    ensures ParseMap(Tokens(ItemLines([k])) + rear, 4, map[]).None?
  {
    hide TokenOf, ItemLine, Shown;
    ItemToken(k);
    KeysCons([k]);
    assert (Tokens(ItemLines([k])) + rear)[0].indent == 6;
  }

  /** A block offers a clean place if and only if every selection of literal keys reads back from it. */
  lemma CleanExactly(block: seq<string>)
    requires block != [] && !Hits(Prefix(SELECTION), block[0])
    ensures Clean(block) <==> forall keys | keys != [] && AllLiteral(keys) :: ReadsBack(block, keys)
  {
    if Clean(block) {
      forall keys | keys != [] && AllLiteral(keys) ensures ReadsBack(block, keys) { SelectionReadsBack(block, keys); }
    } else if forall keys | keys != [] && AllLiteral(keys) :: ReadsBack(block, keys) {
      OneLetter("a");
      OneLetter("b");
      assert ReadsBack(block, ["a"]) && ReadsBack(block, ["b"]);
      EditedReads(block, ["a"]);
      EditedReads(block, ["b"]);
      BareEntry(block, []);
      hide Hits, Select, Front, Rear, SelectionLine, ItemLines, AllLiteral, Content, Tokens, RestOf, ParseMap, Outcome,
        ParseEntry, Literal;
      RearClean(RestOf(Content(SelectionLine(block))), Tokens(Rear(block)));
      assert false;
    }
  }

  lemma HeadNoSelection(lines: seq<string>, name: string, s: nat, t: nat)
    requires Named(name) && BlockAt(lines, name, s, t)
    ensures lines[s..t] != [] && !Hits(Prefix(SELECTION), lines[s..t][0])
  {
    HeaderNoKey(lines[s], name);
    hide Inner, Pad;
  }

  /** The same for a file: the task is found again behind the edit, and its block reads as the new selection. */
  lemma FileReadsBack(lines: seq<string>, name: string, keys: seq<string>, registered: set<string>)
    returns (s: nat, t: nat, t': nat)
    requires Named(name) && Patch(lines, name, TaskEdit(keys, registered)).Some?
    ensures var lines' := Patch(lines, name, TaskEdit(keys, registered)).value;
      && BlockAt(lines, name, s, t) && BlockAt(lines', name, s, t')
      && lines[s..t] != [] && !Hits(Prefix(SELECTION), lines[s..t][0]) && s < t' <= |lines'|
      && (Clean(lines[s..t]) ==>
            (Selection(lines'[s..t']) == Some(List(Texts(keys))) <==> keys != [] && AllLiteral(keys)))
  {
    hide Patch, Spliced, BlockAt, Gentle, Admitted, Clean, Select, Selection, AllLiteral, Hits, Named;
    var x;
    s, t, x := PatchSplices(lines, name, TaskEdit(keys, registered));
    OwnBlock(lines, name, s, t, x);
    t' := s + |x|;
    BlockRange(lines, name, s, t);
    BlockRange(Patch(lines, name, TaskEdit(keys, registered)).value, name, s, t');
    HeadNoSelection(lines, name, s, t);
    if Clean(lines[s..t]) { SelectionReadsBack(lines[s..t], keys); }
  }

  lemma KnownLines()
    ensures SELECTION == "    selection:"
    ensures ItemLine("a") == "      - a" && ItemLine("b") == "      - b" && ItemLine("x") == "      - x"
    ensures ItemLines(["a"]) == ["      - a"] && ItemLines(["b"]) == ["      - b"] && ItemLines(["x"]) == ["      - x"]
  {
  }

  lemma KnownHits()
    ensures !Hits(Prefix(SELECTION), "  T:") && !Hits(Prefix(SELECTION), "    # note")
    ensures Hits(Prefix(SELECTION), "    selection:") && Hits(NoItem, "    selection:")
    ensures !Hits(NoItem, "      - a") && !Hits(NoItem, "    # note")
  {
    KnownLines();
    SelectionBare();
    ItemStops("a");
    assert Pad(4) + "selection:" == "    selection:" && Pad(4) + "# note" == "    # note";
    Written(4, "selection:");
    Written(4, "# note");
  }

  lemma SecondOne(line: string)
    requires line == "    selection:"
    ensures Tokens([line] + ItemLines(["b"])) == [Token(4, "selection:")] + (Tokens(ItemLines(["b"])) + [])
    ensures IsEntry(Token(4, "selection:")) && KeyOf("selection:") == "selection" && RestOf("selection:") == ""
  {
    KnownLines();
    SelectionBare();
    SelectionToken(line);
    hide *;
    TokensCons(line, ItemLines(["b"]));
    assert Tokens(ItemLines(["b"])) + [] == Tokens(ItemLines(["b"]));
  }

  lemma LastItems()
    ensures Child(Tokens(ItemLines(["b"])) + [], 4) == Some((List([Text("b")]), []))
  {
    OneLetter("b");
    OneReads("b", []);
    assert ParseList([], 6, []) == Some(([], []));
    hide *;
    assert [Text("b")] + [] == [Text("b")];
  }

  lemma SecondRead(rear: seq<Token>)
    requires rear == Tokens(["    selection:"] + ItemLines(["b"]))
    ensures Ends(rear, 4)
    ensures ParseMap(rear, 4, map[]) == Some((map["selection" := List([Text("b")])], []))
  {
    SecondOne("    selection:");
    LastItems();
    var under := Tokens(ItemLines(["b"])) + [];
    assert ParseEntry("", under, 4) == Child(under, 4);
    hide *;
    LastEntry("selection:", under, List([Text("b")]));
    HeadEnds(Token(4, "selection:"), under);
  }

  lemma HeadEnds(t: Token, ts: seq<Token>)
    ensures Ends([t] + ts, t.indent)
  {
  }

  /** One literal item is overruled by a later selection. */
  lemma Overruled(k: string, rear: seq<Token>, v: Yaml)
    requires Literal(k) && Ends(rear, 4) && ParseMap(rear, 4, map[]) == Some((map["selection" := v], []))
    ensures Outcome(ParseEntry("", Tokens(ItemLines([k])) + rear, 4), "selection") == Some(v)
  {
    OneReads(k, rear);
    assert ParseList(rear, 6, []) == Some(([], rear));
    hide ParseMap, ParseList, Literal, ItemLines, Tokens;
    assert ParseEntry("", Tokens(ItemLines([k])) + rear, 4) == Child(Tokens(ItemLines([k])) + rear, 4);
    hide Child, ParseEntry;
  }

  lemma TwoPlaces()
    ensures var block := ["  T:", "    selection:", "      - a", "    selection:", "      - b"];
      && !Hits(Prefix(SELECTION), block[0]) && Front(block) == [] && SelectionLine(block) == SELECTION
      && Rear(block) == ["    selection:"] + ItemLines(["b"])
      && Select(block, ["x"]) == ["  T:", "    selection:", "      - x", "    selection:", "      - b"]
  {
    var block := ["  T:", "    selection:", "      - a", "    selection:", "      - b"];
    KnownLines();
    KnownHits();
    hide Hits, Pad, ItemLines;
    FirstIs(block, 0, Prefix(SELECTION), 1);
    FirstIs(block, 2, NoItem, 3);
    assert block[3..] == ["    selection:", "      - b"];
  }

  /** A block with two selections: the edit changes the first, and the next run still loads the second. */
  lemma TwoSelections()
    ensures var block := ["  T:", "    selection:", "      - a", "    selection:", "      - b"];
      && Select(block, ["x"]) == ["  T:", "    selection:", "      - x", "    selection:", "      - b"]
      && Selection(Select(block, ["x"])) == Some(List([Text("b")]))
  {
    var block := ["  T:", "    selection:", "      - a", "    selection:", "      - b"];
    TwoPlaces();
    OneLetter("x");
    EditedReads(block, ["x"]);
    BareEntry(block, []);
    SelectionBare();
    var rear := Tokens(Rear(block));
    SecondRead(rear);
    Overruled("x", rear, List([Text("b")]));
    assert ParseMap(Tokens([]), 4, map[]) == Some((map[], []));
    hide *;
  }

  // ------------------------------------------------------------- the same edit again

  lemma ItemStops(key: string)
    ensures Hits(NoItem, ItemLine(key)) <==> Blank(key)
  {
    var rest := "- " + key;
    Written(6, rest);
    RTrimShape(rest, IsSpace);
    if Blank(key) {
      RTrimAway("- ", key, IsSpace);
      assert |RTrim("- ", IsSpace)| == 1 by { assert "- "[..1] == "-"; }
    } else {
      RTrimAppend("- ", key, IsSpace);
    }
  }

  ghost predicate NoneBlank(keys: seq<string>) {
    forall i :: 0 <= i < |keys| ==> !Blank(keys[i])
  }

  /** The items of a list are passed over, up to the first blank one. */
  lemma {:induction false} ItemsPassed(lines: seq<string>, from: nat, keys: seq<string>)
    requires from + |keys| <= |lines| && lines[from..from + |keys|] == ItemLines(keys)
    ensures NoneBlank(keys) ==> First(lines, from, NoItem) == First(lines, from + |keys|, NoItem)
    ensures !NoneBlank(keys) ==> First(lines, from, NoItem) < from + |keys|
    decreases |keys|
  {
    hide Hits, Blank, ItemLine;
    if keys != [] {
      ItemStops(keys[0]);
      assert lines[from] == lines[from..from + |keys|][0] == ItemLine(keys[0]);
      assert lines[from + 1..from + 1 + |keys[1..]|] == lines[from..from + |keys|][1..] == ItemLines(keys[1..]);
      ItemsPassed(lines, from + 1, keys[1..]);
      assert NoneBlank(keys) <==> !Blank(keys[0]) && NoneBlank(keys[1..]) by { assert keys == [keys[0]] + keys[1..]; }
    }
  }

  lemma SelectAgain(once: seq<string>, keys: seq<string>, p: nat, rest: seq<string>)
    requires p < |once| && First(once, 0, Prefix(SELECTION)) == p && once == once[..p + 1] + ItemLines(keys) + rest
    ensures Select(once, keys) == once <==> First(once, p + 1, NoItem) == p + 1 + |keys|
  {
    hide Hits, ItemLines;
    var end := First(once, p + 1, NoItem);
    var twice := Select(once, keys);
    assert twice == once[..p + 1] + ItemLines(keys) + once[end..];
    assert |twice| == p + 1 + |keys| + |once| - end;
    if end == p + 1 + |keys| { assert once[end..] == rest; }
  }

  /** Repeating a selection edit changes nothing, if and only if no key is blank and, where the first edit had to add the
      selection, the line it was put in front of ends a list. */
  lemma RepeatedSelection(block: seq<string>, keys: seq<string>)
    requires block != []
    ensures Select(Select(block, keys), keys) == Select(block, keys) <==>
      && NoneBlank(keys)
      && (First(block, 0, Prefix(SELECTION)) == |block| ==> |block| == 1 || Hits(NoItem, block[1]))
  {
    hide Hits, NoneBlank, ItemLines, Select, Bare;
    var once := Select(block, keys);
    var p, rest := SelectionSplit(block, keys);
    SelectAgain(once, keys, p, rest);
    var n := p + 1 + |keys|;
    assert once[p + 1..n] == ItemLines(keys) && |once| == n + |rest| && (rest != [] ==> once[n] == rest[0]);
    ItemsPassed(once, p + 1, keys);
    assert First(once, n, NoItem) == n <==> rest == [] || Hits(NoItem, rest[0]);
  }

  /** A comment behind the header: the first edit puts the selection in front of it, and the same edit again deletes
      it. */
  lemma CommentVanishes()
    ensures var block, keys := ["  T:", "    # note"], ["a"];
      && Select(block, keys) == ["  T:", "    selection:", "      - a", "    # note"]
      && Select(Select(block, keys), keys) == ["  T:", "    selection:", "      - a"]
  {
    var block, once := ["  T:", "    # note"], ["  T:", "    selection:", "      - a", "    # note"];
    KnownLines();
    KnownHits();
    hide Hits, Pad, ItemLines;
    FirstIs(block, 0, Prefix(SELECTION), 2);
    FirstIs(once, 0, Prefix(SELECTION), 1);
    FirstIs(once, 2, NoItem, 4);
    assert Select(block, ["a"]) == once;
  }
}
