/** The loader of the configuration files (pipeline/yaml_util.py): lines become tokens, and the tokens a value of nested
    mappings, lists and scalars, or an error. */
module YamlLoad {
  import opened Basics
  import opened Text
  import opened YamlEdit

  // ------------------------------------------------------------- one line

  predicate HashPair(s: string, i: nat) {
    i + 1 < |s| && s[i] == ' ' && s[i + 1] == '#'
  }

  /** Where a trailing comment begins, or the end. */
  function HashAt(s: string): (k: nat)
    ensures k <= |s|
    ensures forall i :: 0 <= i < k ==> !HashPair(s, i)
    ensures k < |s| ==> HashPair(s, k)
  {
    if s == "" || HashPair(s, 0) then 0
    else
      var k := 1 + HashAt(s[1..]);
      assert forall i :: 1 <= i < |s| ==> HashPair(s, i) == HashPair(s[1..], i - 1);
      k
  }

  lemma HashIs(s: string, k: nat)
    requires k <= |s| && (forall i :: 0 <= i < k ==> !HashPair(s, i)) && (k < |s| ==> HashPair(s, k))
    ensures HashAt(s) == k
  {
    var h := HashAt(s);
    assert h < |s| ==> HashPair(s, h);
  }

  /** A line without its comment and its indent. */
  function Content(line: string): string {
    LTrim(RTrim(line[..HashAt(line)], IsSpace), IsBlank)
  }

  function Spaces(line: string): int {
    |line| - |LTrim(line, IsBlank)|
  }

  /** The comment of a written line begins where it begins in the text. */
  lemma HashWritten(n: nat, head: string, text: string)
    requires head != "" && head[0] != ' ' && head[0] != '#' && head[|head| - 1] != ' '
    requires HashAt(head) == |head|
    ensures HashAt(Pad(n) + head + text) == n + |head| + HashAt(text)
  {
    var line, h := Pad(n) + head + text, n + |head| + HashAt(text);
    forall i | 0 <= i < h ensures !HashPair(line, i) {
      if i >= n + |head| {
        assert HashPair(line, i) == HashPair(text, i - n - |head|);
      } else if n <= i < n + |head| - 1 {
        assert HashPair(line, i) == HashPair(head, i - n);
      }
    }
    if h < |line| { assert HashPair(text, HashAt(text)); }
    HashIs(line, h);
  }

  lemma TrimWritten(n: nat, head: string, cut: string)
    requires head != "" && !IsSpace(head[0]) && !IsSpace(head[|head| - 1])
    ensures LTrim(RTrim(Pad(n) + head + cut, IsSpace), IsBlank) == head + RTrim(cut, IsSpace)
  {
    hide Pad;
    var read := RTrim(cut, IsSpace);
    if read == "" {
      RTrimAway(Pad(n) + head, cut, IsSpace);
      assert head + read == head;
    } else {
      RTrimAppend(Pad(n) + head, cut, IsSpace);
    }
    hide RTrim, LTrim;
    assert Pad(n) + head + read == Pad(n) + (head + read);
    PadTrim(n, head + read, IsBlank);
  }

  /** What is read of a written line whose head ends with a visible character. */
  lemma ContentWritten(n: nat, head: string, text: string)
    requires head != "" && head[0] != '#' && !IsSpace(head[0]) && !IsSpace(head[|head| - 1])
    requires HashAt(head) == |head|
    ensures var line := Pad(n) + head + text;
      && Significant(line) && Spaces(line) == n && Indent(line) == n
      && Content(line) == head + RTrim(text[..HashAt(text)], IsSpace)
  {
    hide LTrim, RTrim, HashAt;
    var line, cut := Pad(n) + head + text, text[..HashAt(text)];
    assert line == Pad(n) + (head + text);
    Written(n, head + text);
    PadTrim(n, head + text, IsBlank);
    HashWritten(n, head, text);
    assert line[..HashAt(line)] == Pad(n) + head + cut;
    TrimWritten(n, head, cut);
  }

  // ------------------------------------------------------------- scalars

  datatype Yaml =
    | Null
    | Flag(on: bool)
    | Number(digits: string)
    | Text(text: string)
    | List(items: seq<Yaml>)
    | Map(entries: map<string, Yaml>)

  predicate IsDigit(c: char) {
    '0' <= c <= '9'
  }

  /** Digits with single underscores between them. */
  predicate Digits(s: string) {
    && s != "" && IsDigit(s[0]) && IsDigit(s[|s| - 1])
    && (forall i :: 0 <= i < |s| ==> IsDigit(s[i]) || s[i] == '_')
    && (forall i :: 0 < i < |s| && s[i] == '_' ==> s[i - 1] != '_')
  }

  function Unsigned(s: string): string {
    if s != "" && (s[0] == '+' || s[0] == '-') then s[1..] else s
  }

  predicate Mantissa(s: string) {
    var d := Find(s, '.');
    if d == |s| then Digits(s)
    else |s| > 1 && (s[..d] == "" || Digits(s[..d])) && (s[d + 1..] == "" || Digits(s[d + 1..]))
  }

  /** What `int` or `float` accepts. */
  predicate IsNumber(s: string) {
    var u := Lower(Unsigned(s));
    var e := Find(u, 'e');
    u in {"inf", "infinity", "nan"} || (Mantissa(u[..e]) && (e < |u| ==> Digits(Unsigned(u[e + 1..]))))
  }

  predicate Quoted(s: string) {
    |s| >= 2 && s[0] == s[|s| - 1] && (s[0] == '"' || s[0] == '\'')
  }

  /** A leading zero keeps a number a text. */
  predicate ZeroLed(s: string) {
    StartsWith(s, "0") && s != "0" && !StartsWith(s, "0.")
  }

  /** `_parse_scalar`. */
  function Scalar(raw: string): Yaml {
    if raw == "{}" then Map(map[])
    else if raw == "[]" then List([])
    else if raw in {"null", "~", "Null", "NULL"} then Null
    else if raw in {"true", "True", "TRUE"} then Flag(true)
    else if raw in {"false", "False", "FALSE"} then Flag(false)
    else if Quoted(raw) then Text(raw[1..|raw| - 1])
    else if !ZeroLed(raw) && IsNumber(raw) then Number(raw)
    else Text(raw)
  }

  // ------------------------------------------------------------- tokens

  datatype Token = Token(indent: int, content: string)

  /** No token for a blank line or a comment. */
  function TokenOf(line: string): seq<Token> {
    if Significant(line) then [Token(Spaces(line), Content(line))] else []
  }

  function Tokens(lines: seq<string>): seq<Token> {
    if lines == [] then [] else TokenOf(lines[0]) + Tokens(lines[1..])
  }

  lemma TokensCons(line: string, rest: seq<string>)
    ensures Tokens([line] + rest) == TokenOf(line) + Tokens(rest)
  {
    assert ([line] + rest)[1..] == rest;
  }

  lemma Regroup<T>(a: seq<T>, b: seq<T>, c: seq<T>)
    ensures a + b + c == a + (b + c)
  {
  }

  lemma {:induction false} TokensAppend(a: seq<string>, b: seq<string>)
    ensures Tokens(a + b) == Tokens(a) + Tokens(b)
  {
    if a == [] {
      assert a + b == b;
    } else {
      TokensAppend(a[1..], b);
      assert a == [a[0]] + a[1..];
      Regroup([a[0]], a[1..], b);
      TokensCons(a[0], a[1..]);
      TokensCons(a[0], a[1..] + b);
      Regroup(TokenOf(a[0]), Tokens(a[1..]), Tokens(b));
      hide *;
    }
  }

  // ------------------------------------------------------------- blocks

  /** A value and the tokens behind it; None for the error. */
  type Read<V> = Option<(V, seq<Token>)>

  predicate IsEntry(t: Token) {
    !StartsWith(t.content, "- ") && ':' in t.content
  }

  /** `content.split(":", 1)`, stripped. */
  function KeyOf(content: string): string {
    Strip(content[..Find(content, ':')])
  }

  function RestOf(content: string): string
    requires ':' in content
  {
    FindIn(content, ':');
    Strip(content[Find(content, ':') + 1..])
  }

  lemma FindIn(s: string, c: char)
    requires c in s
    ensures Find(s, c) < |s|
  {
    assert s[..|s|] == s;
  }

  function ItemText(content: string): string
    requires StartsWith(content, "- ")
  {
    Strip(content[2..])
  }

  /** An item that opens a mapping. */
  predicate Nests(text: string) {
    text != "" && ':' in text && (text[|text| - 1] == ':' || (text[0] != '"' && text[0] != '\''))
  }

  function Nested(text: string, extra: map<string, Yaml>): map<string, Yaml>
    requires ':' in text
  {
    var key, value := KeyOf(text), if RestOf(text) == "" then Null else Scalar(RestOf(text));
    if value == Null && extra != map[] then map[key := Map(extra)] else map[key := value] + extra
  }

  /** `_parse_block`. */
  function ParseBlock(ts: seq<Token>, n: int): (r: Read<Yaml>)
    requires ts != []
    ensures r.Some? ==> |r.value.1| <= |ts|
    decreases |ts|, 1
  {
    if StartsWith(ts[0].content, "- ") then
      match ParseList(ts, n, []) case None => None case Some(r) => Some((List(r.0), r.1))
    else
      match ParseMap(ts, n, map[]) case None => None case Some(r) => Some((Map(r.0), r.1))
  }

  /** What stands deeper than indent `n`, if anything does. */
  function Child(ts: seq<Token>, n: int): (r: Read<Yaml>)
    ensures r.Some? ==> |r.value.1| <= |ts|
    decreases |ts|, 2
  {
    if ts != [] && ts[0].indent > n then ParseBlock(ts, ts[0].indent) else Some((Null, ts))
  }

  /** `_parse_map`, with the entries read so far. */
  function ParseMap(ts: seq<Token>, n: int, entries: map<string, Yaml>): (r: Read<map<string, Yaml>>)
    ensures r.Some? ==> |r.value.1| <= |ts|
    decreases |ts|, 0
  {
    if ts == [] || ts[0].indent < n then Some((entries, ts))
    else if ts[0].indent > n || !IsEntry(ts[0]) then None
    else
      var key, rest := KeyOf(ts[0].content), RestOf(ts[0].content);
      match ParseEntry(rest, ts[1..], n)
      case None => None
      case Some(r) => ParseMap(r.1, n, entries[key := r.0])
  }

  function ParseEntry(text: string, ts: seq<Token>, n: int): (r: Read<Yaml>)
    ensures r.Some? ==> |r.value.1| <= |ts|
    decreases |ts|, 3
  {
    if text == "" then Child(ts, n) else Some((Scalar(text), ts))
  }

  /** `_parse_list`, with the items read so far. */
  function ParseList(ts: seq<Token>, n: int, items: seq<Yaml>): (r: Read<seq<Yaml>>)
    ensures r.Some? ==> |r.value.1| <= |ts|
    decreases |ts|, 0
  {
    if ts == [] || ts[0].indent < n then Some((items, ts))
    else if ts[0].indent > n then None
    else if !StartsWith(ts[0].content, "- ") then Some((items, ts))
    else
      match ParseItem(ItemText(ts[0].content), ts[1..], n)
      case None => None
      case Some(r) => ParseList(r.1, n, items + [r.0])
  }

  function ParseItem(text: string, ts: seq<Token>, n: int): (r: Read<Yaml>)
    ensures r.Some? ==> |r.value.1| <= |ts|
    decreases |ts|, 3
  {
    if text == "" then Child(ts, n)
    else if !Nests(text) then Some((Scalar(text), ts))
    else if ts == [] || ts[0].indent <= n then Some((Map(Nested(text, map[])), ts))
    else
      match ParseMap(ts, ts[0].indent, map[])
      case None => None
      case Some(r) => Some((Map(Nested(text, r.0)), r.1))
  }

  // ------------------------------------------------------------- reading on

  /** Tokens no deeper than indent `n`. */
  predicate Ends(ts: seq<Token>, n: int) {
    ts == [] || ts[0].indent <= n
  }

  function Behind<V>(r: Read<V>, more: seq<Token>): Read<V> {
    match r case None => None case Some(p) => Some((p.0, p.1 + more))
  }

  /** A mapping goes on where its first part ends, if that part ends with its tokens. */
  function Onward(r: Read<map<string, Yaml>>, n: int, more: seq<Token>): Read<map<string, Yaml>> {
    match r
    case None => None
    case Some(p) => if p.1 == [] then ParseMap(more, n, p.0) else Some((p.0, p.1 + more))
  }

  /** A child ends in front of a token that is no deeper. */
  lemma {:induction false} ChildThen(ts: seq<Token>, n: int, more: seq<Token>)
    requires Ends(more, n)
    ensures Child(ts + more, n) == Behind(Child(ts, n), more)
    decreases |ts|, 2
  {
    if ts == [] {
      assert ts + more == more;
    } else if ts[0].indent > n {
      assert (ts + more)[0] == ts[0];
      BlockThen(ts, ts[0].indent, more);
    }
  }

  lemma {:induction false} BlockThen(ts: seq<Token>, n: int, more: seq<Token>)
    requires ts != [] && Ends(more, n - 1)
    ensures ParseBlock(ts + more, n) == Behind(ParseBlock(ts, n), more)
    decreases |ts|, 1
  {
    hide ParseMap, ParseList, Onward;
    assert (ts + more)[0] == ts[0];
    if StartsWith(ts[0].content, "- ") {
      ListThen(ts, n, [], more);
    } else {
      MapThen(ts, n, map[], more);
      MapEnds(ts, n, map[], more);
    }
  }

  lemma MapEnds(ts: seq<Token>, n: int, entries: map<string, Yaml>, more: seq<Token>)
    requires Ends(more, n - 1)
    ensures Onward(ParseMap(ts, n, entries), n, more) == Behind(ParseMap(ts, n, entries), more)
  {
    hide ParseEntry, IsEntry, KeyOf, RestOf;
    var r := ParseMap(ts, n, entries);
    if r.Some? && r.value.1 == [] { assert r.value.1 + more == more; }
  }

  lemma {:induction false} MapThen(ts: seq<Token>, n: int, entries: map<string, Yaml>, more: seq<Token>)
    requires Ends(more, n)
    ensures ParseMap(ts + more, n, entries) == Onward(ParseMap(ts, n, entries), n, more)
    decreases |ts|, 0
  {
    if ts == [] {
      assert ts + more == more;
    } else if ts[0].indent == n && IsEntry(ts[0]) {
      assert (ts + more)[0] == ts[0] && (ts + more)[1..] == ts[1..] + more;
      var key, rest := KeyOf(ts[0].content), RestOf(ts[0].content);
      if rest == "" { ChildThen(ts[1..], n, more); }
      hide Child, Scalar, KeyOf, RestOf, IsEntry;
      var r := ParseEntry(rest, ts[1..], n);
      assert ParseEntry(rest, ts[1..] + more, n) == Behind(r, more);
      hide ParseEntry;
      if r.Some? { MapThen(r.value.1, n, entries[key := r.value.0], more); }
    } else {
      assert (ts + more)[0] == ts[0];
    }
  }

  lemma {:induction false} ListThen(ts: seq<Token>, n: int, items: seq<Yaml>, more: seq<Token>)
    requires Ends(more, n - 1)
    ensures ParseList(ts + more, n, items) == Behind(ParseList(ts, n, items), more)
    decreases |ts|, 0
  {
    if ts == [] {
      assert ts + more == more;
    } else if ts[0].indent == n && StartsWith(ts[0].content, "- ") {
      assert (ts + more)[0] == ts[0] && (ts + more)[1..] == ts[1..] + more;
      var text := ItemText(ts[0].content);
      ItemThen(text, ts[1..], n, more);
      var r := ParseItem(text, ts[1..], n);
      if r.Some? { ListThen(r.value.1, n, items + [r.value.0], more); }
    } else {
      assert (ts + more)[0] == ts[0];
    }
  }

  lemma {:induction false} ItemThen(text: string, ts: seq<Token>, n: int, more: seq<Token>)
    requires Ends(more, n)
    ensures ParseItem(text, ts + more, n) == Behind(ParseItem(text, ts, n), more)
    decreases |ts|, 3
  {
    if text == "" {
      ChildThen(ts, n, more);
    } else if Nests(text) {
      if ts == [] {
        assert ts + more == more;
      } else {
        assert (ts + more)[0] == ts[0];
        if ts[0].indent > n {
          MapThen(ts, ts[0].indent, map[], more);
          MapEnds(ts, ts[0].indent, map[], more);
        }
      }
    }
  }

  /** The entries read so far stay, under those that follow. */
  lemma {:induction false} MapOnto(ts: seq<Token>, n: int, entries: map<string, Yaml>)
    ensures ParseMap(ts, n, entries)
         == match ParseMap(ts, n, map[]) case None => None case Some(r) => Some((entries + r.0, r.1))
    decreases |ts|
  {
    if ts == [] || ts[0].indent < n {
      assert entries + map[] == entries;
    } else if ts[0].indent == n && IsEntry(ts[0]) {
      var key, rest := KeyOf(ts[0].content), RestOf(ts[0].content);
      hide ParseEntry, KeyOf, RestOf, IsEntry;
      var r := ParseEntry(rest, ts[1..], n);
      if r.Some? {
        MapOnto(r.value.1, n, entries[key := r.value.0]);
        MapOnto(r.value.1, n, map[key := r.value.0]);
        var later := ParseMap(r.value.1, n, map[]);
        if later.Some? {
          assert entries[key := r.value.0] + later.value.0 == entries + (map[key := r.value.0] + later.value.0);
        }
      }
    }
  }

  lemma {:induction false} ListOnto(ts: seq<Token>, n: int, items: seq<Yaml>)
    ensures ParseList(ts, n, items)
         == match ParseList(ts, n, []) case None => None case Some(r) => Some((items + r.0, r.1))
    decreases |ts|
  {
    if ts == [] || ts[0].indent < n || (ts[0].indent == n && !StartsWith(ts[0].content, "- ")) {
      assert items + [] == items;
    } else if ts[0].indent == n {
      var r := ParseItem(ItemText(ts[0].content), ts[1..], n);
      if r.Some? {
        ListOnto(r.value.1, n, items + [r.value.0]);
        ListOnto(r.value.1, n, [] + [r.value.0]);
        var later := ParseList(r.value.1, n, []);
        if later.Some? {
          assert items + [r.value.0] + later.value.0 == items + ([] + [r.value.0] + later.value.0);
        }
      }
    }
  }

  /** What stops a mapping short is shallower than it. */
  lemma {:induction false} MapStops(ts: seq<Token>, n: int, m: map<string, Yaml>)
    ensures var r := ParseMap(ts, n, m); r.Some? ==> Ends(r.value.1, n - 1)
    decreases |ts|
  {
    hide ParseEntry, KeyOf, RestOf;
    if ts != [] && ts[0].indent == n && IsEntry(ts[0]) {
      var key := KeyOf(ts[0].content);
      var r := ParseEntry(RestOf(ts[0].content), ts[1..], n);
      if r.Some? { MapStops(r.value.1, n, m[key := r.value.0]); }
    }
  }

  // ------------------------------------------------------------- one key of a block

  /** The value of a key in a mapping that reaches up to the next header of indent two. */
  function Held(r: (map<string, Yaml>, seq<Token>), key: string): Option<Yaml> {
    if Ends(r.1, 2) && key in r.0 then Some(r.0[key]) else None
  }

  /** The value of a key in what the tokens under such a header hold as a mapping of indent four, if they do. */
  function ValueIn(ts: seq<Token>, key: string): Option<Yaml> {
    match ParseMap(ts, 4, map[]) case None => None case Some(r) => Held(r, key)
  }

  /** The value of a key behind a first entry of it: a later entry wins. */
  function Outcome(first: Read<Yaml>, key: string): Option<Yaml> {
    match first
    case None => None
    case Some(r) =>
      match ParseMap(r.1, 4, map[])
      case None => None
      case Some(later) => Held((map[key := r.0] + later.0, later.1), key)
  }

  lemma EntryThen(c: string, under: seq<Token>, m: map<string, Yaml>)
    requires IsEntry(Token(4, c))
    ensures ParseMap([Token(4, c)] + under, 4, m)
         == match ParseEntry(RestOf(c), under, 4)
            case None => None
            case Some(r) =>
              match ParseMap(r.1, 4, map[])
              case None => None
              case Some(later) => Some((m[KeyOf(c) := r.0] + later.0, later.1))
  {
    hide RestOf, KeyOf, ParseEntry;
    assert ([Token(4, c)] + under)[1..] == under;
    var r := ParseEntry(RestOf(c), under, 4);
    if r.Some? { MapOnto(r.value.1, 4, m[KeyOf(c) := r.value.0]); }
  }

  /** A mapping of one entry. */
  lemma LastEntry(c: string, under: seq<Token>, v: Yaml)
    requires IsEntry(Token(4, c)) && ParseEntry(RestOf(c), under, 4) == Some((v, []))
    ensures ParseMap([Token(4, c)] + under, 4, map[]) == Some((map[KeyOf(c) := v], []))
  {
    EntryThen(c, under, map[]);
    assert ParseMap([], 4, map[]) == Some((map[], []));
    hide ParseMap, ParseEntry, KeyOf, RestOf;
    assert map[KeyOf(c) := v] + map[] == map[KeyOf(c) := v];
  }

  /** The value of a key that has an entry behind some tokens comes from those alone, if they break off the mapping, and
      else from that entry and what follows. */
  lemma ValueBehind(front: seq<Token>, c: string, under: seq<Token>)
    requires IsEntry(Token(4, c))
    ensures ValueIn(front + ([Token(4, c)] + under), KeyOf(c))
         == match ParseMap(front, 4, map[])
            case None => None
            case Some(f) => if f.1 != [] then Held(f, KeyOf(c)) else Outcome(ParseEntry(RestOf(c), under, 4), KeyOf(c))
  {
    var more := [Token(4, c)] + under;
    MapThen(front, 4, map[], more);
    var f := ParseMap(front, 4, map[]);
    if f.Some? && f.value.1 == [] { EntryThen(c, under, f.value.0); }
    hide ParseMap, ParseEntry, KeyOf, RestOf;
  }

  // ------------------------------------------------------------- deeper tokens

  /** Every token is deeper than indent `n`. */
  predicate Deeper(ts: seq<Token>, n: int) {
    forall i :: 0 <= i < |ts| ==> ts[i].indent > n
  }

  lemma {:induction false} ChildDeeper(ts: seq<Token>, n: int, d: int)
    requires Deeper(ts, d)
    ensures Child(ts, n).Some? ==> Deeper(Child(ts, n).value.1, d)
    decreases |ts|, 2
  {
    if ts != [] && ts[0].indent > n { BlockDeeper(ts, ts[0].indent, d); }
  }

  lemma {:induction false} BlockDeeper(ts: seq<Token>, n: int, d: int)
    requires ts != [] && Deeper(ts, d)
    ensures ParseBlock(ts, n).Some? ==> Deeper(ParseBlock(ts, n).value.1, d)
    decreases |ts|, 1
  {
    hide Deeper;
    if StartsWith(ts[0].content, "- ") { ListDeeper(ts, n, [], d); } else { MapDeeper(ts, n, map[], d); }
  }

  lemma {:induction false} MapDeeper(ts: seq<Token>, n: int, entries: map<string, Yaml>, d: int)
    requires Deeper(ts, d)
    ensures ParseMap(ts, n, entries).Some? ==> Deeper(ParseMap(ts, n, entries).value.1, d)
    decreases |ts|, 0
  {
    if ts != [] && ts[0].indent == n && IsEntry(ts[0]) {
      assert Deeper(ts[1..], d);
      hide Deeper;
      var key, rest := KeyOf(ts[0].content), RestOf(ts[0].content);
      ChildDeeper(ts[1..], n, d);
      var r := ParseEntry(rest, ts[1..], n);
      if r.Some? { MapDeeper(r.value.1, n, entries[key := r.value.0], d); }
    }
  }

  lemma {:induction false} ListDeeper(ts: seq<Token>, n: int, items: seq<Yaml>, d: int)
    requires Deeper(ts, d)
    ensures ParseList(ts, n, items).Some? ==> Deeper(ParseList(ts, n, items).value.1, d)
    decreases |ts|, 0
  {
    if ts != [] && ts[0].indent == n && StartsWith(ts[0].content, "- ") {
      assert Deeper(ts[1..], d);
      hide Deeper;
      var text := ItemText(ts[0].content);
      ItemDeeper(text, ts[1..], n, d);
      var r := ParseItem(text, ts[1..], n);
      if r.Some? { ListDeeper(r.value.1, n, items + [r.value.0], d); }
    }
  }

  lemma {:induction false} ItemDeeper(text: string, ts: seq<Token>, n: int, d: int)
    requires Deeper(ts, d)
    ensures ParseItem(text, ts, n).Some? ==> Deeper(ParseItem(text, ts, n).value.1, d)
    decreases |ts|, 3
  {
    hide Deeper;
    ChildDeeper(ts, n, d);
    if ts != [] { MapDeeper(ts, ts[0].indent, map[], d); }
  }
}
