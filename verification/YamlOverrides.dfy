/** The overrides of a tool as the loader reads them back after the edits of YamlEdit. */
module YamlOverrides {
  import opened Basics
  import opened Text
  import opened YamlEdit
  import opened YamlLoad
  import opened YamlRead

  // ------------------------------------------------------------- the update branch is dead

  /** An entry of the key would have ended the search for the place, so it is never found in it. */
  lemma EntryEnds(line: string, key: string)
    requires KeyName(key) && StartsWith(line, EntryPrefix(key))
    ensures Hits(Shallow(6), line)
  {
    var rest := line[6..];
    assert line[..6] == EntryPrefix(key)[..6] == Pad(6);
    assert line == Pad(6) + rest && rest[0] == line[6] == EntryPrefix(key)[6] == key[0];
    Written(6, rest);
  }

  /** `_upsert_subkey` never updates: whatever the block holds, it inserts a further line. */
  lemma UpsertInserts(block: seq<string>, key: string, value: string)
    requires KeyName(key)
    ensures var p := First(block, 0, Prefix(OVERRIDES));
      p < |block| ==>
        var end := First(block, p + 1, Shallow(6));
        Upsert(block, key, value) == block[..end] + [EntryLine(key, value)] + block[end..]
  {
    var p := First(block, 0, Prefix(OVERRIDES));
    if p < |block| {
      var end := First(block, p + 1, Shallow(6));
      forall i | p + 1 <= i < end ensures !Hits(Prefix(EntryPrefix(key)), block[..end][i]) {
        if StartsWith(block[i], EntryPrefix(key)) { EntryEnds(block[i], key); }
      }
      hide Hits;
      FirstIs(block[..end], p + 1, Prefix(EntryPrefix(key)), end);
    }
  }

  // ------------------------------------------------------------- one entry

  /** What the loader makes of an entry's value. */
  function Meant(value: string): Yaml {
    var text := Strip(Shown(value));
    if text == "" then Null else Scalar(text)
  }

  /** A value is read as the text it is exactly when it is plain and no word or number of the loader's. */
  lemma MeantExactly(value: string)
    ensures Meant(value) == Text(value) <==> Plain(value) && Scalar(value) == Text(value)
  {
    ShownExactly(value);
    hide Shown, HashAt, Trimmed;
    if Shown(value) != "" {
      assert Strip(Shown(value)) == Strip(Shown(value)[1..]);
      if Scalar(Strip(Shown(value))) == Text(value) { ScalarText(Strip(Shown(value)), value); }
    }
  }

  lemma EntryToken(key: string, value: string)
    requires KeyName(key)
    ensures var c := key + ":" + Shown(value);
      && TokenOf(EntryLine(key, value)) == [Token(6, c)] && IsEntry(Token(6, c))
      && KeyOf(c) == key && RestOf(c) == Strip(Shown(value))
    ensures Hits(Shallow(6), EntryLine(key, value))
  {
    var text, line := " " + value, EntryLine(key, value);
    assert line == Pad(6) + (key + ":") + text;
    assert Word(key);
    assert line == Pad(6) + (key + ":" + text);
    Written(6, key + ":" + text);
    hide Pad, HashAt, RTrim, Strip, TokenOf, KeyOf, RestOf, Word, EntryLine;
    KeyToken(6, key, text, line);
  }

  // ------------------------------------------------------------- the block of a tool

  /** The override of a key, as the next run loads it. */
  function Override(block: seq<string>, key: string): Option<Yaml>
    requires block != []
  {
    EntryOf(ValueIn(Tokens(block[1..]), "flag_overrides"), key)
  }

  function EntryOf(v: Option<Yaml>, key: string): Option<Yaml> {
    match v
    case Some(Map(m)) => if key in m then Some(m[key]) else None
    case _ => None
  }

  function Place(block: seq<string>): (p: nat)
    ensures p <= |block|
  {
    First(block, 0, Prefix(OVERRIDES))
  }

  function InsertAt(block: seq<string>): (k: nat)
    ensures k <= |block| && Place(block) <= k
  {
    if Place(block) == |block| then |block| else First(block, Place(block) + 1, Shallow(6))
  }

  function HeaderLine(block: seq<string>): string {
    if Place(block) == |block| then OVERRIDES else block[Place(block)]
  }

  /** The lines between the header and the place of a new entry. */
  function Between(block: seq<string>): seq<string> {
    if Place(block) == |block| then [] else block[Place(block) + 1..InsertAt(block)]
  }

  /** The entries in front of which a new one is put. */
  function Standing(block: seq<string>): map<string, Yaml> {
    match ParseMap(Tokens(block[InsertAt(block)..]), 6, map[]) case None => map[] case Some(r) => r.0
  }

  /** The lines from some place on are a mapping of indent six and then one of indent four, without another set of
      overrides. */
  predicate Follows(ts: seq<Token>) {
    match ParseMap(ts, 6, map[])
    case None => false
    case Some(r) =>
      var later := ParseMap(r.1, 4, map[]);
      later.Some? && Ends(later.value.1, 2) && "flag_overrides" !in later.value.0
  }

  /** The block takes new entries: mappings in front and behind, no second set of overrides behind, nothing else on the
      header line, and nothing deeper between it and the entries. */
  predicate Open(block: seq<string>)
    requires block != [] && !Hits(Prefix(OVERRIDES), block[0])
  {
    var front := ParseMap(Tokens(block[1..Place(block)]), 4, map[]);
    && front.Some? && front.value.1 == []
    && Content(HeaderLine(block)) == "flag_overrides:" && Tokens(Between(block)) == []
    && Follows(Tokens(block[InsertAt(block)..]))
  }

  lemma HeaderBare()
    ensures Content(OVERRIDES) == "flag_overrides:" && Hits(Prefix(OVERRIDES), OVERRIDES)
  {
    hide Hits, Pad, Content;
    WordRead("flag_overrides:", OVERRIDES);
  }

  lemma HeaderToken(block: seq<string>)
    ensures var h := HeaderLine(block); var c := Content(h);
      TokenOf(h) == [Token(4, c)] && IsEntry(Token(4, c)) && KeyOf(c) == "flag_overrides"
      && (RestOf(c) == "" <==> c == "flag_overrides:")
  {
    HeaderBare();
    hide Content, TokenOf, KeyOf, RestOf, Pad;
    HeadToken("flag_overrides", OVERRIDES, HeaderLine(block));
  }

  // ------------------------------------------------------------- inserting

  lemma Appended(block: seq<string>, head: string, line: string)
    requires block != []
    ensures (block + [head, line])[1..] == block[1..] + ([head] + ([] + ([line] + [])))
  {
  }

  lemma Interposed(block: seq<string>, p: nat, end: nat, line: string)
    requires 0 < p < end <= |block|
    ensures (block[..end] + [line] + block[end..])[1..]
         == block[1..p] + ([block[p]] + (block[p + 1..end] + ([line] + block[end..])))
  {
  }

  lemma UpsertLayout(block: seq<string>, key: string, value: string)
    requires block != [] && !Hits(Prefix(OVERRIDES), block[0]) && KeyName(key)
    ensures Place(block) >= 1
    ensures Upsert(block, key, value)[1..] == block[1..Place(block)]
      + ([HeaderLine(block)] + (Between(block) + ([EntryLine(key, value)] + block[InsertAt(block)..])))
  {
    var p := Place(block);
    UpsertInserts(block, key, value);
    hide Hits, EntryLine;
    if p == |block| {
      Appended(block, OVERRIDES, EntryLine(key, value));
    } else {
      hide Upsert;
      Interposed(block, p, InsertAt(block), EntryLine(key, value));
    }
  }

  lemma UpsertTokens(block: seq<string>, key: string, value: string)
    requires block != [] && !Hits(Prefix(OVERRIDES), block[0]) && KeyName(key)
    ensures Place(block) >= 1
    ensures Tokens(Upsert(block, key, value)[1..]) == Tokens(block[1..Place(block)])
      + ([Token(4, Content(HeaderLine(block)))] + (Tokens(Between(block))
      + ([Token(6, key + ":" + Shown(value))] + Tokens(block[InsertAt(block)..]))))
  {
    UpsertLayout(block, key, value);
    HeaderToken(block);
    EntryToken(key, value);
    hide *;
    var line, rear := EntryLine(key, value), block[InsertAt(block)..];
    TokensAppend(block[1..Place(block)], [HeaderLine(block)] + (Between(block) + ([line] + rear)));
    TokensCons(HeaderLine(block), Between(block) + ([line] + rear));
    TokensAppend(Between(block), [line] + rear);
    TokensCons(line, rear);
  }

  lemma SpacesIndent(line: string)
    ensures Spaces(line) <= Indent(line)
  {
    LTrimShape(line, IsSpace);
    LTrimShape(line, IsBlank);
    var m := Indent(line);
    if m < Spaces(line) {
      assert IsBlank(line[m]);
      assert LTrim(line, IsSpace)[0] == line[m];
    }
  }

  lemma ShallowEnds(lines: seq<string>)
    requires lines == [] || Hits(Shallow(6), lines[0])
    ensures Ends(Tokens(lines), 6)
  {
    if lines != [] { SpacesIndent(lines[0]); }
    hide Spaces, Indent, Content, Significant;
  }

  /** One entry in front of others of its mapping. */
  lemma EntryFirst(c: string, rear: seq<Token>)
    requires IsEntry(Token(6, c)) && Ends(rear, 6)
    ensures Child([Token(6, c)] + rear, 4)
         == match ParseMap(rear, 6, map[])
            case None => None
            case Some(r) =>
              Some((Map(map[KeyOf(c) := if RestOf(c) == "" then Null else Scalar(RestOf(c))] + r.0), r.1))
  {
    var v := if RestOf(c) == "" then Null else Scalar(RestOf(c));
    var ts := [Token(6, c)] + rear;
    assert ts[1..] == rear && ts[0] == Token(6, c);
    assert ParseEntry(RestOf(c), rear, 6) == Some((v, rear));
    hide KeyOf, RestOf, Scalar, ParseEntry;
    MapOnto(rear, 6, map[KeyOf(c) := v]);
    assert ParseMap(ts, 6, map[]) == ParseMap(rear, 6, map[][KeyOf(c) := v]);
  }

  /** The overrides in a block, from the lines in front of the header, the value on it and the tokens under it. */
  function Placed(front: seq<Token>, rest: string, under: seq<Token>): Option<Yaml> {
    match ParseMap(front, 4, map[])
    case None => None
    case Some(f) =>
      if f.1 != [] then Held(f, "flag_overrides") else Outcome(ParseEntry(rest, under, 4), "flag_overrides")
  }

  lemma UpsertedIn(block: seq<string>, key: string, value: string)
    requires block != [] && !Hits(Prefix(OVERRIDES), block[0]) && KeyName(key)
    ensures var c := Content(HeaderLine(block));
      && ':' in c && Place(block) >= 1
      && ValueIn(Tokens(Upsert(block, key, value)[1..]), "flag_overrides")
      == Placed(Tokens(block[1..Place(block)]), RestOf(c), Tokens(Between(block))
                + ([Token(6, key + ":" + Shown(value))] + Tokens(block[InsertAt(block)..])))
  {
    UpsertTokens(block, key, value);
    HeaderToken(block);
    var under := Tokens(Between(block)) + ([Token(6, key + ":" + Shown(value))] + Tokens(block[InsertAt(block)..]));
    ValueBehind(Tokens(block[1..Place(block)]), Content(HeaderLine(block)), under);
    assert IsEntry(Token(4, Content(HeaderLine(block)))) ==> ':' in Content(HeaderLine(block));
    hide Hits, Tokens, Between, InsertAt, Place, HeaderLine, RestOf, KeyOf, Content, Outcome, ValueIn, ParseMap, Shown,
      Upsert, KeyName, TokenOf, IsEntry, Held, ParseEntry;
  }

  /** The sub-block of a tool after an upsert: the new entry, under those that stood there. */
  lemma OneMore(key: string, value: string, rear: seq<Token>)
    requires KeyName(key) && Ends(rear, 6)
    ensures Outcome(Child([Token(6, key + ":" + Shown(value))] + rear, 4), "flag_overrides")
         == match ParseMap(rear, 6, map[])
            case None => None
            case Some(r) => Outcome(Some((Map(map[key := Meant(value)] + r.0), r.1)), "flag_overrides")
  {
    EntryToken(key, value);
    EntryFirst(key + ":" + Shown(value), rear);
    hide ParseMap, Shown, KeyOf, RestOf, Strip, Scalar, Child, TokenOf;
  }

  lemma NoRest(under: seq<Token>)
    ensures ParseEntry("", under, 4) == Child(under, 4)
  {
  }

  lemma OutcomeOpen(m: Yaml, rest: seq<Token>)
    requires var later := ParseMap(rest, 4, map[]);
      later.Some? && Ends(later.value.1, 2) && "flag_overrides" !in later.value.0
    ensures Outcome(Some((m, rest)), "flag_overrides") == Some(m)
  {
    hide ParseMap;
  }

  /** The entries of an open block after an upsert. */
  lemma OpenReads(block: seq<string>, key: string, value: string)
    requires block != [] && !Hits(Prefix(OVERRIDES), block[0]) && KeyName(key) && Open(block)
    ensures ValueIn(Tokens(Upsert(block, key, value)[1..]), "flag_overrides")
         == Some(Map(map[key := Meant(value)] + Standing(block)))
  {
    UpsertedIn(block, key, value);
    HeaderToken(block);
    var rear, e := Tokens(block[InsertAt(block)..]), [Token(6, key + ":" + Shown(value))];
    ShallowEnds(block[InsertAt(block)..]);
    OneMore(key, value, rear);
    assert Tokens(Between(block)) + (e + rear) == e + rear;
    hide Hits, KeyName, Tokens, Between, InsertAt, Place, HeaderLine, Shown, Meant, RestOf, ValueIn, Upsert, Outcome;
    var r := ParseMap(rear, 6, map[]).value;
    OutcomeOpen(Map(map[key := Meant(value)] + r.0), r.1);
    assert ParseEntry("", e + rear, 4) == Child(e + rear, 4);
  }

  lemma PlaceIs(block: seq<string>, p: nat, end: nat)
    requires p < end <= |block| && Hits(Prefix(OVERRIDES), block[p])
    requires forall i :: 0 <= i < p ==> !Hits(Prefix(OVERRIDES), block[i])
    requires forall i :: p < i < end ==> !Hits(Shallow(6), block[i])
    requires end < |block| ==> Hits(Shallow(6), block[end])
    ensures Place(block) == p && InsertAt(block) == end && HeaderLine(block) == block[p]
    ensures Between(block) == block[p + 1..end]
  {
    hide Hits;
    FirstIs(block, 0, Prefix(OVERRIDES), p);
    FirstIs(block, p + 1, Shallow(6), end);
  }

  lemma InsertedLines(block: seq<string>, p: nat, end: nat, line: string)
    requires 0 < p < end <= |block|
    ensures var after := block[..end] + [line] + block[end..];
      && (forall i :: 0 <= i < end ==> after[i] == block[i]) && after[end] == line
      && after[1..p] == block[1..p] && after[p + 1..end] == block[p + 1..end] && after[end..] == [line] + block[end..]
  {
  }

  lemma AppendedLines(block: seq<string>, head: string, line: string)
    requires block != []
    ensures var p, after := |block|, block + [head, line];
      && (forall i :: 0 <= i < p ==> after[i] == block[i]) && after[p] == head
      && after[1..p] == block[1..p] && after[p + 1..p + 1] == [] && after[p + 1..] == [line] + [] && after[p + 1] == line
  {
  }

  /** The same block with one line more, put where the next entry will be put. */
  ghost predicate Moved(block: seq<string>, after: seq<string>, line: string) {
    && block != [] && after != [] && after[0] == block[0]
    && 1 <= Place(after) == Place(block) && after[1..Place(after)] == block[1..Place(block)]
    && HeaderLine(after) == HeaderLine(block) && Between(after) == Between(block)
    && after[InsertAt(after)..] == [line] + block[InsertAt(block)..]
  }

  lemma FirstPlace(block: seq<string>, key: string, value: string)
    requires block != [] && !Hits(Prefix(OVERRIDES), block[0]) && KeyName(key) && Place(block) == |block|
    ensures Moved(block, Upsert(block, key, value), EntryLine(key, value))
  {
    var p, line := |block|, EntryLine(key, value);
    EntryToken(key, value);
    HeaderBare();
    AppendedLines(block, OVERRIDES, line);
    hide Hits, EntryLine, TokenOf, KeyOf, RestOf, Content, Shown, KeyName;
    PlaceIs(Upsert(block, key, value), p, p + 1);
  }

  lemma LaterPlace(block: seq<string>, key: string, value: string)
    requires block != [] && !Hits(Prefix(OVERRIDES), block[0]) && KeyName(key) && Place(block) < |block|
    ensures Moved(block, Upsert(block, key, value), EntryLine(key, value))
  {
    var p, end, line := Place(block), InsertAt(block), EntryLine(key, value);
    EntryToken(key, value);
    UpsertInserts(block, key, value);
    InsertedLines(block, p, end, line);
    hide Hits, EntryLine, TokenOf, KeyOf, RestOf, Content, Shown, Upsert, KeyName;
    PlaceIs(Upsert(block, key, value), p, end);
  }

  /** An upsert leaves the header and what stands in front of it, and puts its entry where the next one will be put. */
  lemma NextPlace(block: seq<string>, key: string, value: string)
    requires block != [] && !Hits(Prefix(OVERRIDES), block[0]) && KeyName(key)
    ensures Moved(block, Upsert(block, key, value), EntryLine(key, value))
  {
    if Place(block) == |block| { FirstPlace(block, key, value); } else { LaterPlace(block, key, value); }
    hide *;
  }

  lemma EntryStep(key: string, value: string, rear: seq<Token>)
    requires KeyName(key) && Ends(rear, 6)
    ensures ParseMap([Token(6, key + ":" + Shown(value))] + rear, 6, map[])
         == match ParseMap(rear, 6, map[])
            case None => None
            case Some(r) => Some((map[key := Meant(value)] + r.0, r.1))
  {
    EntryToken(key, value);
    var c := key + ":" + Shown(value);
    var ts := [Token(6, c)] + rear;
    assert ts[1..] == rear && ts[0] == Token(6, c);
    assert ParseEntry(RestOf(c), rear, 6) == Some((Meant(value), rear));
    hide KeyOf, RestOf, Meant, ParseEntry, Shown, TokenOf, EntryLine;
    MapOnto(rear, 6, map[key := Meant(value)]);
    assert ParseMap(ts, 6, map[]) == ParseMap(rear, 6, map[][key := Meant(value)]);
  }

  lemma EntryFollows(key: string, value: string, rear: seq<Token>)
    requires KeyName(key) && Ends(rear, 6) && Follows(rear)
    ensures var ts := [Token(6, key + ":" + Shown(value))] + rear;
      Follows(ts) && ParseMap(ts, 6, map[]).value.0 == map[key := Meant(value)] + ParseMap(rear, 6, map[]).value.0
  {
    EntryStep(key, value, rear);
    hide ParseMap, Shown, Meant;
  }

  lemma StaysOpen(block: seq<string>, key: string, value: string)
    requires block != [] && !Hits(Prefix(OVERRIDES), block[0]) && KeyName(key) && Open(block)
    ensures var after := Upsert(block, key, value);
      && after[0] == block[0] && Open(after)
      && Standing(after) == map[key := Meant(value)] + Standing(block)
  {
    NextPlace(block, key, value);
    EntryToken(key, value);
    ShallowEnds(block[InsertAt(block)..]);
    TokensCons(EntryLine(key, value), block[InsertAt(block)..]);
    EntryFollows(key, value, Tokens(block[InsertAt(block)..]));
    hide Hits, KeyName, Tokens, Between, InsertAt, Place, HeaderLine, Shown, Meant, RestOf, KeyOf, Upsert, EntryLine,
      TokenOf, Content, ParseMap;
  }

  /** One upsert into an open block: a standing entry keeps its value, the new one is read as its text means, and nothing
      else is. */
  lemma UpsertReads(block: seq<string>, key: string, value: string, k: string)
    requires block != [] && !Hits(Prefix(OVERRIDES), block[0]) && KeyName(key) && Open(block)
    ensures Override(Upsert(block, key, value), k)
         == if k in Standing(block) then Some(Standing(block)[k]) else if k == key then Some(Meant(value)) else None
  {
    OpenReads(block, key, value);
    hide Hits, KeyName, Open, Standing, Meant, Upsert, ValueIn;
  }

  // ------------------------------------------------------------- whole edits

  ghost predicate Writable(overrides: seq<(string, string)>) {
    && (forall i :: 0 <= i < |overrides| ==> KeyName(overrides[i].0))
    && (forall i, j :: 0 <= i < j < |overrides| ==> overrides[i].0 != overrides[j].0)
  }

  /** A whole edit of an open block: old entries stand, new keys get theirs. */
  lemma {:induction false} EditReads(block: seq<string>, overrides: seq<(string, string)>, k: string)
    requires block != [] && !Hits(Prefix(OVERRIDES), block[0]) && Open(block) && Writable(overrides)
    ensures var after := UpsertAll(block, overrides);
      && after != [] && after[0] == block[0] && Open(after)
      && (k in Standing(after) <==> k in Standing(block) || exists i :: 0 <= i < |overrides| && overrides[i].0 == k)
      && (k in Standing(block) ==> Standing(after)[k] == Standing(block)[k])
      && (k !in Standing(block) ==>
            forall i :: 0 <= i < |overrides| && overrides[i].0 == k ==> Standing(after)[k] == Meant(overrides[i].1))
  {
    hide Hits, Open, Standing, Upsert, KeyName, Meant;
    if overrides != [] {
      var n := |overrides| - 1;
      EditReads(block, overrides[..n], k);
      StaysOpen(UpsertAll(block, overrides[..n]), overrides[n].0, overrides[n].1);
    }
  }

  lemma HeldLayout(block: seq<string>, p: nat, end: nat)
    requires 0 < p < end <= |block|
    ensures block[1..] == block[1..p] + ([block[p]] + (block[p + 1..end] + block[end..]))
  {
  }

  lemma StandingTokens(block: seq<string>)
    requires block != [] && !Hits(Prefix(OVERRIDES), block[0]) && Place(block) < |block|
    ensures Tokens(block[1..]) == Tokens(block[1..Place(block)])
      + ([Token(4, Content(HeaderLine(block)))] + (Tokens(Between(block)) + Tokens(block[InsertAt(block)..])))
  {
    HeldLayout(block, Place(block), InsertAt(block));
    HeaderToken(block);
    var front, h, mid, rear := block[1..Place(block)], HeaderLine(block), Between(block), block[InsertAt(block)..];
    assert block[1..] == front + ([h] + (mid + rear));
    hide *;
    TokensAppend(front, [h] + (mid + rear));
    TokensCons(h, mid + rear);
    TokensAppend(mid, rear);
  }

  lemma StandingUnder(rear: seq<Token>)
    requires Follows(rear) && Ends(rear, 6)
    ensures var m, r := ParseMap(rear, 6, map[]).value.0, Child(rear, 4);
      r.Some? && r.value.1 == ParseMap(rear, 6, map[]).value.1 && (r.value.0 == Map(m) || (r.value.0 == Null && m == map[]))
  {
    hide ParseEntry, KeyOf, RestOf;
    if rear != [] && rear[0].indent > 4 {
      assert rear[0].indent == 6;
      assert Child(rear, 4) == ParseBlock(rear, 6);
    }
  }

  /** In an open block with a header, what stands is what the next run loads. */
  lemma StandingLoads(block: seq<string>, k: string)
    requires block != [] && !Hits(Prefix(OVERRIDES), block[0]) && Open(block) && Place(block) < |block|
    ensures Override(block, k) == if k in Standing(block) then Some(Standing(block)[k]) else None
  {
    var rear, c := Tokens(block[InsertAt(block)..]), Content(HeaderLine(block));
    HeaderToken(block);
    StandingTokens(block);
    ShallowEnds(block[InsertAt(block)..]);
    StandingUnder(rear);
    assert Tokens(Between(block)) + rear == rear;
    NoRest(rear);
    var r := ParseMap(rear, 6, map[]).value;
    OutcomeOpen(Child(rear, 4).value.0, r.1);
    assert Standing(block) == r.0 && RestOf(c) == "";
    assert ParseMap(Tokens(block[1..Place(block)]), 4, map[]).value.1 == [];
    hide *;
    ValueBehind(Tokens(block[1..Place(block)]), c, rear);
    OverrideIs(block, k);
    EntryOfNull(k);
    EntryOfWhole(r.0, k);
  }

  lemma OverrideIs(block: seq<string>, k: string)
    requires block != []
    ensures Override(block, k) == EntryOf(ValueIn(Tokens(block[1..]), "flag_overrides"), k)
  {
  }

  lemma EntryOfNull(k: string)
    ensures EntryOf(Some(Null), k) == None
  {
  }

  lemma EntryOfWhole(m: map<string, Yaml>, k: string)
    ensures EntryOf(Some(Map(m)), k) == if k in m then Some(m[k]) else None
  {
  }

  lemma LastUpsertReads(block: seq<string>, overrides: seq<(string, string)>, k: string)
    requires block != [] && !Hits(Prefix(OVERRIDES), block[0]) && Open(block) && Writable(overrides) && overrides != []
    ensures var after := UpsertAll(block, overrides);
      after != [] && Override(after, k) == if k in Standing(after) then Some(Standing(after)[k]) else None
  {
    hide Hits, Open, Standing, Upsert, KeyName, Meant, Override;
    var n := |overrides| - 1;
    EditReads(block, overrides[..n], k);
    StaysOpen(UpsertAll(block, overrides[..n]), overrides[n].0, overrides[n].1);
    UpsertReads(UpsertAll(block, overrides[..n]), overrides[n].0, overrides[n].1, k);
  }

  /** An override edit of an open block reads back in full exactly when no edited key already stood with another value:
      an existing override cannot be changed this way, because the later entry wins. */
  lemma OverridesReadBack(block: seq<string>, overrides: seq<(string, string)>)
    requires block != [] && !Hits(Prefix(OVERRIDES), block[0]) && Open(block) && Writable(overrides)
    ensures UpsertAll(block, overrides) != []
    ensures (forall i :: 0 <= i < |overrides| ==>
              Override(UpsertAll(block, overrides), overrides[i].0) == Some(Meant(overrides[i].1)))
       <==> (forall i :: 0 <= i < |overrides| && overrides[i].0 in Standing(block) ==>
              Standing(block)[overrides[i].0] == Meant(overrides[i].1))
  {
    hide Hits, Open, Standing, UpsertAll, KeyName, Meant, Override;
    EditReads(block, overrides, "");
    forall i | 0 <= i < |overrides|
      ensures Override(UpsertAll(block, overrides), overrides[i].0) == Some(Meant(overrides[i].1)) <==>
        (overrides[i].0 in Standing(block) ==> Standing(block)[overrides[i].0] == Meant(overrides[i].1))
    {
      EditReads(block, overrides, overrides[i].0);
      LastUpsertReads(block, overrides, overrides[i].0);
    }
  }

  lemma HeadNoOverrides(lines: seq<string>, name: string, s: nat, t: nat)
    requires Named(name) && BlockAt(lines, name, s, t)
    ensures lines[s..t] != [] && !Hits(Prefix(OVERRIDES), lines[s..t][0])
  {
    HeaderNoKey(lines[s], name);
    hide Inner, Pad;
  }

  /** The same for a file: the tool is found again behind the edit, and its block reads as edited. */
  lemma FileOverrides(lines: seq<string>, name: string, overrides: seq<(string, string)>) returns (s: nat, t: nat, t': nat)
    requires Named(name) && Writable(overrides) && Patch(lines, name, ToolEdit(None, overrides)).Some?
    ensures var lines' := Patch(lines, name, ToolEdit(None, overrides)).value;
      && BlockAt(lines, name, s, t) && BlockAt(lines', name, s, t')
      && lines[s..t] != [] && !Hits(Prefix(OVERRIDES), lines[s..t][0]) && s < t' <= |lines'|
      && (Open(lines[s..t]) ==>
            ((forall i :: 0 <= i < |overrides| ==>
                Override(lines'[s..t'], overrides[i].0) == Some(Meant(overrides[i].1)))
             <==> (forall i :: 0 <= i < |overrides| && overrides[i].0 in Standing(lines[s..t]) ==>
                Standing(lines[s..t])[overrides[i].0] == Meant(overrides[i].1))))
  {
    hide Patch, Spliced, BlockAt, Gentle, Admitted, Open, UpsertAll, Override, Standing, Hits, Named, Meant, Writable;
    var x;
    s, t, x := PatchSplices(lines, name, ToolEdit(None, overrides));
    OwnBlock(lines, name, s, t, x);
    t' := s + |x|;
    BlockRange(lines, name, s, t);
    BlockRange(Patch(lines, name, ToolEdit(None, overrides)).value, name, s, t');
    HeadNoOverrides(lines, name, s, t);
    if Open(lines[s..t]) { OverridesReadBack(lines[s..t], overrides); }
  }

  // ------------------------------------------------------------- when a block is open

  /** No line between the header and the place of a new entry is indented with anything but blanks. */
  predicate Spaced(lines: seq<string>) {
    forall i :: 0 <= i < |lines| && Significant(lines[i]) ==> Spaces(lines[i]) == Indent(lines[i])
  }

  lemma {:induction false} BetweenDeeper(lines: seq<string>)
    requires Spaced(lines) && forall i :: 0 <= i < |lines| ==> !Hits(Shallow(6), lines[i])
    ensures Deeper(Tokens(lines), 6)
  {
    hide Spaces, Indent, Significant, Content;
    if lines != [] { BetweenDeeper(lines[1..]); }
  }

  /** With something deeper in front of it, or with a value on the header line, an entry makes the loader refuse. */
  lemma EntryRefused(rest: string, mid: seq<Token>, more: seq<Token>)
    requires Deeper(mid, 6) && more != [] && more[0].indent == 6 && (rest != "" || mid != [])
    ensures Outcome(ParseEntry(rest, mid + more, 4), "flag_overrides") == None
  {
    assert mid == [] ==> mid + more == more;
    assert mid != [] ==> (mid + more)[0] == mid[0];
    if rest == "" {
      BlockThen(mid, mid[0].indent, more);
      BlockDeeper(mid, mid[0].indent, 6);
      hide ParseBlock, Deeper;
      assert Child(mid + more, 4) == ParseBlock(mid + more, mid[0].indent);
      var r := ParseBlock(mid, mid[0].indent);
      if r.Some? { LeftDeeper(r.value.1, more); }
    }
  }

  lemma LeftDeeper(left: seq<Token>, more: seq<Token>)
    requires Deeper(left, 6) && more != [] && more[0].indent == 6
    ensures ParseMap(left + more, 4, map[]).None?
  {
    assert (left + more)[0].indent > 4;
  }

  lemma Letters()
    ensures Meant("a") == Text("a") && Meant("b") == Text("b")
  {
    OneLetter("a");
    OneLetter("b");
    MeantExactly("a");
    MeantExactly("b");
  }

  /** If an entry is read whatever its value, then nothing behind it interferes. */
  lemma RearOpen(key: string, rear: seq<Token>)
    requires KeyName(key) && Ends(rear, 6)
    requires EntryOf(Outcome(Child([Token(6, key + ":" + Shown("a"))] + rear, 4), "flag_overrides"), key) == Some(Text("a"))
    requires EntryOf(Outcome(Child([Token(6, key + ":" + Shown("b"))] + rear, 4), "flag_overrides"), key) == Some(Text("b"))
    ensures Follows(rear) && key !in ParseMap(rear, 6, map[]).value.0
  {
    Letters();
    OneMore(key, "a", rear);
    OneMore(key, "b", rear);
    hide Shown, Child, Meant, KeyName;
  }

  predicate PlacedOpenHolds(front: seq<Token>, rest: string, mid: seq<Token>, rear: seq<Token>, key: string) {
    var f := ParseMap(front, 4, map[]);
    && f.Some? && f.value.1 == []
    && rest == "" && mid == [] && Follows(rear) && key !in ParseMap(rear, 6, map[]).value.0
  }

  lemma PlacedOpen(front: seq<Token>, rest: string, mid: seq<Token>, rear: seq<Token>, key: string)
    requires KeyName(key) && Deeper(mid, 6) && Ends(rear, 6)
    requires EntryOf(Placed(front, rest, mid + ([Token(6, key + ":" + Shown("a"))] + rear)), key) == Some(Text("a"))
    requires EntryOf(Placed(front, rest, mid + ([Token(6, key + ":" + Shown("b"))] + rear)), key) == Some(Text("b"))
    ensures PlacedOpenHolds(front, rest, mid, rear, key)
  {
    var ea, eb := [Token(6, key + ":" + Shown("a"))] + rear, [Token(6, key + ":" + Shown("b"))] + rear;
    hide Outcome, ParseMap, Shown, KeyName, Follows, Deeper, ParseEntry;
    if rest != "" || mid != [] {
      EntryRefused(rest, mid, ea);
      assert false;
    }
    assert mid + ea == ea && mid + eb == eb;
    NoRest(ea);
    NoRest(eb);
    RearOpen(key, rear);
  }

  lemma Upserted(block: seq<string>, key: string, value: string)
    requires block != [] && !Hits(Prefix(OVERRIDES), block[0]) && KeyName(key)
    ensures ':' in Content(HeaderLine(block)) && Place(block) >= 1
    ensures Override(Upsert(block, key, value), key)
         == EntryOf(Placed(Tokens(block[1..Place(block)]), RestOf(Content(HeaderLine(block))), Tokens(Between(block))
                    + ([Token(6, key + ":" + Shown(value))] + Tokens(block[InsertAt(block)..]))), key)
  {
    UpsertedIn(block, key, value);
    hide Hits, Tokens, Between, InsertAt, Place, HeaderLine, RestOf, Content, ValueIn, Shown, Upsert, KeyName, Placed,
      EntryOf;
  }

  lemma PlaceTokens(block: seq<string>)
    ensures Spaced(Between(block)) ==> Deeper(Tokens(Between(block)), 6)
    ensures Ends(Tokens(block[InsertAt(block)..]), 6)
  {
    ShallowEnds(block[InsertAt(block)..]);
    if Spaced(Between(block)) { BetweenDeeper(Between(block)); }
    hide Hits, Tokens, Spaced, Ends, Deeper;
  }

  lemma HoldsOpen(block: seq<string>, key: string)
    requires block != [] && !Hits(Prefix(OVERRIDES), block[0]) && ':' in Content(HeaderLine(block)) && Place(block) >= 1
    requires PlacedOpenHolds(Tokens(block[1..Place(block)]), RestOf(Content(HeaderLine(block))),
                             Tokens(Between(block)), Tokens(block[InsertAt(block)..]), key)
    ensures Open(block) && key !in Standing(block)
  {
    HeaderToken(block);
    hide Hits, Tokens, Between, InsertAt, Place, HeaderLine, RestOf, KeyOf, Content, ParseMap, Follows, TokenOf;
  }

  lemma OnlyOpen(block: seq<string>, key: string)
    requires block != [] && !Hits(Prefix(OVERRIDES), block[0]) && KeyName(key) && Spaced(Between(block))
    requires Override(Upsert(block, key, "a"), key) == Some(Text("a"))
    requires Override(Upsert(block, key, "b"), key) == Some(Text("b"))
    ensures Open(block) && key !in Standing(block)
  {
    hide *;
    Upserted(block, key, "a");
    Upserted(block, key, "b");
    PlaceTokens(block);
    PlacedOpen(Tokens(block[1..Place(block)]), RestOf(Content(HeaderLine(block))),
               Tokens(Between(block)), Tokens(block[InsertAt(block)..]), key);
    HoldsOpen(block, key);
  }

  /** In a block indented with blanks, an upsert of a key is read back whatever the value, if and only if the block is
      open and the key does not stand in it. */
  lemma OpenExactly(block: seq<string>, key: string)
    requires block != [] && !Hits(Prefix(OVERRIDES), block[0]) && KeyName(key) && Spaced(Between(block))
    ensures Open(block) && key !in Standing(block)
      <==> forall value :: Override(Upsert(block, key, value), key) == Some(Meant(value))
  {
    hide Hits, KeyName, Spaced, Open, Standing, Upsert, Override, Meant;
    if Open(block) && key !in Standing(block) {
      forall value
        ensures Override(Upsert(block, key, value), key) == Some(Meant(value))
      {
        UpsertReads(block, key, value, key);
      }
    }
    if forall value :: Override(Upsert(block, key, value), key) == Some(Meant(value)) {
      Letters();
      OnlyOpen(block, key);
    }
  }

  // ------------------------------------------------------------- two blocks

  lemma KnownEntries()
    ensures OVERRIDES == "    flag_overrides:" && !Hits(Prefix(OVERRIDES), "  t:")
    ensures EntryLine("rate", "5") == "      rate: 5" && EntryLine("rate", "7") == "      rate: 7"
    ensures EntryLine("wait", "1") == "      wait: 1"
  {
    assert Pad(6) == "      " && Pad(4) == "    ";
    hide Pad;
  }

  lemma KnownNames()
    ensures KeyName("rate") && KeyName("wait") && KeyName("size") && "size" != "wait"
  {
    assert "size"[0] != "wait"[0];
  }

  lemma Five()
    ensures Meant("5") == Number("5")
  {
    HashIs(" 5", 2);
    ShownExactly("5");
    assert Strip(Shown("5")) == "5";
    assert Lower("5") == "5" && Mantissa("5");
  }

  /** The sub-block of one entry at the end of a block. */
  lemma OneEntry(key: string, value: string)
    requires KeyName(key)
    ensures ParseMap([Token(6, key + ":" + Shown(value))], 6, map[]) == Some((map[key := Meant(value)], []))
    ensures Follows([Token(6, key + ":" + Shown(value))])
  {
    var t := Token(6, key + ":" + Shown(value));
    assert [t] + [] == [t];
    assert ParseMap([], 6, map[]) == Some((map[], [])) && ParseMap([], 4, map[]) == Some((map[], []));
    hide KeyName, Shown, Meant, ParseMap;
    EntryStep(key, value, []);
    assert map[key := Meant(value)] + map[] == map[key := Meant(value)];
  }

  lemma EntryTokens(key: string, value: string)
    requires KeyName(key)
    ensures Tokens([EntryLine(key, value)]) == [Token(6, key + ":" + Shown(value))]
  {
    EntryToken(key, value);
    hide TokenOf, EntryLine, Shown, KeyName;
    assert [EntryLine(key, value)] == [EntryLine(key, value)] + [];
    TokensCons(EntryLine(key, value), []);
  }

  lemma PlaceOfThree(head: string, entry: string, rest: seq<string>)
    requires !Hits(Prefix(OVERRIDES), head) && Hits(Shallow(6), entry)
    ensures var block := [head, OVERRIDES, entry] + rest;
      && Place(block) == 1 && InsertAt(block) == 2 && Between(block) == [] && HeaderLine(block) == OVERRIDES
      && block[1..1] == [] && block[2..] == [entry] + rest
  {
    HeaderBare();
    hide Hits, Pad, Content;
    PlaceIs([head, OVERRIDES, entry] + rest, 1, 2);
  }

  lemma OpenThree(head: string, key: string, value: string)
    requires !Hits(Prefix(OVERRIDES), head) && KeyName(key)
    ensures var block := [head, OVERRIDES, EntryLine(key, value)];
      Open(block) && Standing(block) == map[key := Meant(value)]
  {
    var block := [head, OVERRIDES, EntryLine(key, value)];
    EntryToken(key, value);
    PlaceOfThree(head, EntryLine(key, value), []);
    assert block + [] == block && [EntryLine(key, value)] + [] == [EntryLine(key, value)];
    HeaderBare();
    EntryTokens(key, value);
    OneEntry(key, value);
    assert ParseMap(Tokens([]), 4, map[]) == Some((map[], [])) && Tokens([]) == [];
    hide Hits, EntryLine, KeyName, Meant, Content, Shown, Pad, Tokens, Place, InsertAt, Between, HeaderLine, Follows,
      ParseMap, TokenOf, KeyOf, RestOf;
  }

  lemma UpsertThree(head: string, key: string, value: string, new': string)
    requires !Hits(Prefix(OVERRIDES), head) && KeyName(key)
    ensures Upsert([head, OVERRIDES, EntryLine(key, value)], key, new')
         == [head, OVERRIDES, EntryLine(key, new'), EntryLine(key, value)]
  {
    EntryToken(key, value);
    PlaceOfThree(head, EntryLine(key, value), []);
    assert [head, OVERRIDES, EntryLine(key, value)] + [] == [head, OVERRIDES, EntryLine(key, value)];
    UpsertInserts([head, OVERRIDES, EntryLine(key, value)], key, new');
    hide Hits, EntryLine, KeyName, Upsert, TokenOf, KeyOf, RestOf, Shown, Pad;
  }

  /** An existing override keeps its old value: the new entry is written above the old one, and the later one wins. */
  lemma OldValueStands()
    ensures var block := ["  t:", "    flag_overrides:", "      rate: 5"];
      && Upsert(block, "rate", "7") == ["  t:", "    flag_overrides:", "      rate: 7", "      rate: 5"]
      && Override(Upsert(block, "rate", "7"), "rate") == Some(Number("5"))
  {
    KnownEntries();
    KnownNames();
    Five();
    OpenThree("  t:", "rate", "5");
    UpsertThree("  t:", "rate", "5", "7");
    hide *;
    UpsertReads(["  t:", OVERRIDES, EntryLine("rate", "5")], "rate", "7", "rate");
  }

  lemma SecondSetTokens(k1: string, v1: string, k2: string, v2: string)
    requires KeyName(k1) && KeyName(k2)
    ensures Tokens([EntryLine(k1, v1)] + [OVERRIDES, EntryLine(k2, v2)])
         == [Token(6, k1 + ":" + Shown(v1))] + ([Token(4, "flag_overrides:")] + [Token(6, k2 + ":" + Shown(v2))])
    ensures IsEntry(Token(4, "flag_overrides:")) && KeyOf("flag_overrides:") == "flag_overrides"
    ensures RestOf("flag_overrides:") == ""
  {
    EntryToken(k1, v1);
    EntryTokens(k2, v2);
    HeaderToken([]);
    HeaderBare();
    assert [OVERRIDES, EntryLine(k2, v2)] == [OVERRIDES] + [EntryLine(k2, v2)];
    hide *;
    TokensCons(EntryLine(k1, v1), [OVERRIDES, EntryLine(k2, v2)]);
    TokensCons(OVERRIDES, [EntryLine(k2, v2)]);
  }

  lemma LoneChild(key: string, value: string)
    requires KeyName(key)
    ensures Child([Token(6, key + ":" + Shown(value))], 4) == Some((Map(map[key := Meant(value)]), []))
  {
    var t := Token(6, key + ":" + Shown(value));
    EntryToken(key, value);
    EntryFirst(t.content, []);
    assert ParseMap([], 6, map[]) == Some((map[], []));
    hide *;
    assert [t] + [] == [t];
    MeantIs(value);
    assert map[key := Meant(value)] + map[] == map[key := Meant(value)];
  }

  lemma MeantIs(value: string)
    ensures Meant(value) == if Strip(Shown(value)) == "" then Null else Scalar(Strip(Shown(value)))
  {
  }

  /** Entries of a first set give way to a second set. */
  lemma Superseded(key: string, value: string, k1: string, v1: string, second: seq<Token>, v: Yaml)
    requires KeyName(key) && KeyName(k1)
    requires Ends(second, 5) && ParseMap(second, 4, map[]) == Some((map["flag_overrides" := v], []))
    ensures Outcome(Child([Token(6, key + ":" + Shown(value))] + ([Token(6, k1 + ":" + Shown(v1))] + second), 4),
                    "flag_overrides") == Some(v)
  {
    assert ParseMap(second, 6, map[]) == Some((map[], second)) && Ends(second, 6);
    hide *;
    var rear := [Token(6, k1 + ":" + Shown(v1))] + second;
    EntryStep(k1, v1, second);
    RearEnds(Token(6, k1 + ":" + Shown(v1)), second);
    OneMore(key, value, rear);
    OutcomeLater(Map(map[key := Meant(value)] + ParseMap(rear, 6, map[]).value.0), second, v);
  }

  lemma RearEnds(t: Token, ts: seq<Token>)
    requires t.indent == 6
    ensures Ends([t] + ts, 6)
  {
  }

  lemma OutcomeLater(m: Yaml, rest: seq<Token>, v: Yaml)
    requires ParseMap(rest, 4, map[]) == Some((map["flag_overrides" := v], []))
    ensures Outcome(Some((m, rest)), "flag_overrides") == Some(v)
  {
    hide ParseMap;
  }

  lemma SecondSetRead(key: string, value: string, k1: string, v1: string, k2: string, v2: string)
    requires KeyName(key) && KeyName(k1) && KeyName(k2)
    ensures var rear := Tokens([EntryLine(k1, v1)] + [OVERRIDES, EntryLine(k2, v2)]);
      Outcome(Child([Token(6, key + ":" + Shown(value))] + rear, 4), "flag_overrides") == Some(Map(map[k2 := Meant(v2)]))
  {
    hide *;
    var h, t := "flag_overrides:", Token(6, k2 + ":" + Shown(v2));
    SecondSetTokens(k1, v1, k2, v2);
    LoneChild(k2, v2);
    NoRest([t]);
    LastEntry(h, [t], Map(map[k2 := Meant(v2)]));
    FirstEnds(Token(4, h), [t]);
    Superseded(key, value, k1, v1, [Token(4, h)] + [t], Map(map[k2 := Meant(v2)]));
  }

  lemma FirstEnds(t: Token, ts: seq<Token>)
    requires t.indent == 4
    ensures Ends([t] + ts, 5)
  {
  }

  lemma SecondSetLoads(head: string, key: string, value: string, k1: string, v1: string, k2: string, v2: string)
    requires !Hits(Prefix(OVERRIDES), head) && KeyName(key) && KeyName(k1) && KeyName(k2)
    ensures var block := [head, OVERRIDES, EntryLine(k1, v1)] + [OVERRIDES, EntryLine(k2, v2)];
      Override(Upsert(block, key, value), key) == if key == k2 then Some(Meant(v2)) else None
  {
    hide *;
    var block := [head, OVERRIDES, EntryLine(k1, v1)] + [OVERRIDES, EntryLine(k2, v2)];
    EntryToken(k1, v1);
    PlaceOfThree(head, EntryLine(k1, v1), [OVERRIDES, EntryLine(k2, v2)]);
    HeaderToken(block);
    HeaderBare();
    var e := [Token(6, key + ":" + Shown(value))] + Tokens([EntryLine(k1, v1)] + [OVERRIDES, EntryLine(k2, v2)]);
    Upserted(block, key, value);
    PlacedFirst(e);
    SecondSetRead(key, value, k1, v1, k2, v2);
    EntryOfMap(k2, Meant(v2), key);
  }

  lemma PlacedFirst(under: seq<Token>)
    ensures Placed(Tokens([]), "", Tokens([]) + under) == Outcome(Child(under, 4), "flag_overrides")
  {
    hide Child;
    assert Tokens([]) == [] && [] + under == under && ParseMap([], 4, map[]) == Some((map[], []));
  }

  lemma EntryOfMap(k: string, v: Yaml, key: string)
    ensures EntryOf(Some(Map(map[k := v])), key) == if key == k then Some(v) else None
  {
  }

  /** A block with two sets of overrides: a new key goes to the first set, and the next run loads the second alone. */
  lemma TwoSets()
    ensures var block := ["  t:", "    flag_overrides:", "      rate: 5", "    flag_overrides:", "      wait: 1"];
      Override(Upsert(block, "size", "9"), "size") == None
  {
    var block := ["  t:", "    flag_overrides:", "      rate: 5", "    flag_overrides:", "      wait: 1"];
    KnownEntries();
    KnownNames();
    assert block == ["  t:", OVERRIDES, EntryLine("rate", "5")] + [OVERRIDES, EntryLine("wait", "1")];
    hide *;
    SecondSetLoads("  t:", "size", "9", "rate", "5", "wait", "1");
  }
}
