/** The surgical edits of tools.yaml and wordlists.yaml (dashboard/service.py): one block of lines is patched and the
    rest of the file is kept as it stands. */
module YamlEdit {
  import opened Basics
  import opened Text

  // ------------------------------------------------------------- lines

  predicate IsBlank(c: char) {
    c == ' '
  }

  function Pad(n: nat): (r: string)
    ensures |r| == n && forall i :: 0 <= i < n ==> r[i] == ' '
  {
    seq(n, _ => ' ')
  }

  function Indent(line: string): int {
    |line| - |LTrim(line, IsSpace)|
  }

  /** Neither blank nor a comment. */
  predicate Significant(line: string) {
    Strip(line) != "" && Strip(line)[0] != '#'
  }

  /** What a scan over lines looks for. */
  datatype Mark = Header(name: string) | Prefix(text: string) | Shallow(indent: nat) | NoItem

  predicate Hits(m: Mark, line: string) {
    match m
    case Header(name) => RTrim(line, IsSpace) == Pad(2) + (name + ":")
    case Prefix(text) => StartsWith(line, text)
    case Shallow(n) => Significant(line) && Indent(line) <= n
    case NoItem =>
      Significant(line) && !(Indent(line) >= 7 || (Indent(line) == 6 && StartsWith(Strip(line), "- ")))
  }

  /** The first line from `i` on that the mark hits, or the end. */
  function First(lines: seq<string>, i: nat, m: Mark): (k: nat)
    requires i <= |lines|
    ensures i <= k <= |lines|
    ensures forall j :: i <= j < k ==> !Hits(m, lines[j])
    ensures k < |lines| ==> Hits(m, lines[k])
    decreases |lines| - i
  {
    if i == |lines| || Hits(m, lines[i]) then i else First(lines, i + 1, m)
  }

  lemma FirstIs(lines: seq<string>, i: nat, m: Mark, k: nat)
    requires i <= k <= |lines|
    requires forall j :: i <= j < k ==> !Hits(m, lines[j])
    requires k < |lines| ==> Hits(m, lines[k])
    ensures First(lines, i, m) == k
  {
    hide Hits;
  }

  method FindFirst(lines: seq<string>, i: nat, m: Mark) returns (k: nat)
    requires i <= |lines|
    ensures k == First(lines, i, m)
  {
    hide Hits;
    k := i;
    while k < |lines| && !Hits(m, lines[k])
      invariant i <= k <= |lines| && First(lines, k, m) == First(lines, i, m)
    {
      k := k + 1;
    }
  }

  lemma {:induction false} PadTrim(n: nat, rest: string, p: char -> bool)
    requires p(' ') && (rest != "" ==> !p(rest[0]))
    ensures LTrim(Pad(n) + rest, p) == rest
  {
    if n == 0 {
      assert Pad(0) + rest == rest;
    } else {
      PadTrim(n - 1, rest, p);
      assert (Pad(n) + rest)[1..] == Pad(n - 1) + rest;
    }
  }

  /** A written line has the indent of its padding and is significant unless it begins a comment. */
  lemma Written(n: nat, rest: string)
    requires rest != "" && !IsSpace(rest[0])
    ensures Indent(Pad(n) + rest) == n
    ensures Strip(Pad(n) + rest) == RTrim(rest, IsSpace) != ""
    ensures Strip(Pad(n) + rest)[0] == rest[0]
  {
    PadTrim(n, rest, IsSpace);
    RTrimShape(rest, IsSpace);
  }

  /** A line that may stand inside a block of this indent. */
  predicate Inner(line: string) {
    !Hits(Shallow(2), line)
  }

  // ------------------------------------------------------------- the edits of one block

  datatype Edit =
    | ToolEdit(enabled: Option<bool>, overrides: seq<(string, string)>)
    | TaskEdit(keys: seq<string>, registered: set<string>)

  /** A parameter id: a lower-case letter, then lower-case letters, digits and underscores. */
  predicate KeyName(k: string) {
    && k != "" && 'a' <= k[0] <= 'z'
    && forall i :: 0 <= i < |k| ==> 'a' <= k[i] <= 'z' || '0' <= k[i] <= '9' || k[i] == '_'
  }

  /** What the validation before an edit lets pass. */
  predicate Admitted(e: Edit) {
    match e
    case ToolEdit(_, overrides) => forall i :: 0 <= i < |overrides| ==> KeyName(overrides[i].0)
    case TaskEdit(keys, registered) => forall i :: 0 <= i < |keys| ==> keys[i] in registered
  }

  const ENABLED := Pad(4) + "enabled:"
  const OVERRIDES := Pad(4) + "flag_overrides:"
  const SELECTION := Pad(4) + "selection:"

  function EnabledLine(value: bool): string {
    ENABLED + (if value then " true" else " false")
  }

  function EntryPrefix(key: string): string {
    Pad(6) + (key + ":")
  }

  function EntryLine(key: string, value: string): string {
    EntryPrefix(key) + " " + value
  }

  function ItemLine(key: string): string {
    Pad(6) + ("- " + key)
  }

  function ItemLines(keys: seq<string>): (r: seq<string>)
    ensures |r| == |keys| && forall i :: 0 <= i < |keys| ==> r[i] == ItemLine(keys[i])
  {
    seq(|keys|, i requires 0 <= i < |keys| => ItemLine(keys[i]))
  }

  /** `_replace_kv` on the enabled key; None for the error. */
  function SetEnabled(block: seq<string>, value: bool): Option<seq<string>> {
    var i := First(block, 0, Prefix(ENABLED));
    if i == |block| then None else Some(block[i := EnabledLine(value)])
  }

  /** `_upsert_subkey`. */
  function Upsert(block: seq<string>, key: string, value: string): (r: seq<string>)
    ensures r != []
  {
    var p := First(block, 0, Prefix(OVERRIDES));
    if p == |block| then block + [OVERRIDES, EntryLine(key, value)]
    else
      var end := First(block, p + 1, Shallow(6));
      var i := First(block[..end], p + 1, Prefix(EntryPrefix(key)));
      if i < end then block[i := EntryLine(key, value)]
      else block[..end] + [EntryLine(key, value)] + block[end..]
  }

  function UpsertAll(block: seq<string>, overrides: seq<(string, string)>): seq<string> {
    if overrides == [] then block
    else
      var n := |overrides| - 1;
      Upsert(UpsertAll(block, overrides[..n]), overrides[n].0, overrides[n].1)
  }

  /** The block part of `_patch_task_selection`. */
  function Select(block: seq<string>, keys: seq<string>): (r: seq<string>)
    requires block != []
    ensures r != []
  {
    var p := First(block, 0, Prefix(SELECTION));
    if p == |block| then block[..1] + ([SELECTION] + ItemLines(keys)) + block[1..]
    else block[..p + 1] + ItemLines(keys) + block[First(block, p + 1, NoItem)..]
  }

  function EditBlock(block: seq<string>, e: Edit): Option<seq<string>>
    requires block != []
  {
    match e
    case TaskEdit(keys, _) => Some(Select(block, keys))
    case ToolEdit(enabled, overrides) =>
      var switched := if enabled.Some? then SetEnabled(block, enabled.value) else Some(block);
      if switched.None? then None else Some(UpsertAll(switched.value, overrides))
  }

  /** The whole file, as lines; None for the error. */
  function Patch(lines: seq<string>, name: string, e: Edit): Option<seq<string>> {
    var s := First(lines, 0, Header(name));
    if !Admitted(e) || s == |lines| then None
    else
      var t := First(lines, s + 1, Shallow(2));
      match EditBlock(lines[s..t], e)
      case None => None
      case Some(block) => Some(lines[..s] + block + lines[t..])
  }

  method UpsertSubkey(block: seq<string>, key: string, value: string) returns (r: seq<string>)
    ensures r == Upsert(block, key, value)
  {
    hide Hits;
    var p := FindFirst(block, 0, Prefix(OVERRIDES));
    if p == |block| { return block + [OVERRIDES, EntryLine(key, value)]; }
    var end := FindFirst(block, p + 1, Shallow(6));
    var i := FindFirst(block[..end], p + 1, Prefix(EntryPrefix(key)));
    if i < end { return block[i := EntryLine(key, value)]; }
    r := block[..end] + [EntryLine(key, value)] + block[end..];
  }

  method PatchBlock(block: seq<string>, e: Edit) returns (r: Option<seq<string>>)
    requires block != []
    ensures r == EditBlock(block, e)
  {
    hide Hits, Upsert;
    match e {
      case TaskEdit(keys, _) =>
        var p := FindFirst(block, 0, Prefix(SELECTION));
        var items := ItemLines(keys);
        if p == |block| {
          r := Some(block[..1] + ([SELECTION] + items) + block[1..]);
        } else {
          var end := FindFirst(block, p + 1, NoItem);
          r := Some(block[..p + 1] + items + block[end..]);
        }
      case ToolEdit(enabled, overrides) =>
        var out := block;
        if enabled.Some? {
          var i := FindFirst(out, 0, Prefix(ENABLED));
          if i == |out| { return None; }
          out := out[i := EnabledLine(enabled.value)];
        }
        ghost var switched := out;
        for k := 0 to |overrides|
          invariant out == UpsertAll(switched, overrides[..k])
        {
          assert overrides[..k + 1][..k] == overrides[..k];
          out := UpsertSubkey(out, overrides[k].0, overrides[k].1);
        }
        assert overrides[..|overrides|] == overrides;
        r := Some(out);
    }
  }

  method PatchFile(lines: seq<string>, name: string, e: Edit) returns (r: Option<seq<string>>)
    ensures r == Patch(lines, name, e)
  {
    hide Hits, EditBlock;
    if !Admitted(e) { return None; }
    var s := FindFirst(lines, 0, Header(name));
    if s == |lines| { return None; }
    var t := FindFirst(lines, s + 1, Shallow(2));
    var block := PatchBlock(lines[s..t], e);
    if block.None? { return None; }
    r := Some(lines[..s] + block.value + lines[t..]);
  }

  // ------------------------------------------------------------- what an edit may do to its block

  /** `after` keeps the header line of `before` and has only lines of its own block behind it. */
  ghost predicate Gentle(before: seq<string>, after: seq<string>) {
    && before != [] && after != [] && after[0] == before[0]
    && ((forall i :: 0 < i < |before| ==> Inner(before[i])) ==> forall i :: 0 < i < |after| ==> Inner(after[i]))
  }

  lemma WrittenInner(n: nat, rest: string, line: string)
    requires n > 2 && rest != "" && !IsSpace(rest[0]) && line == Pad(n) + rest
    ensures Inner(line)
  {
    Written(n, rest);
  }

  lemma KeyLinesInner(value: bool)
    ensures Inner(EnabledLine(value)) && Inner(OVERRIDES) && Inner(SELECTION)
  {
    hide Inner, Pad;
    var tail := if value then " true" else " false";
    assert Pad(4) + "enabled:" + tail == Pad(4) + ("enabled:" + tail);
    WrittenInner(4, "enabled:" + tail, EnabledLine(value));
    WrittenInner(4, "flag_overrides:", OVERRIDES);
    WrittenInner(4, "selection:", SELECTION);
  }

  lemma ItemInner(key: string)
    ensures Inner(ItemLine(key))
  {
    hide Inner, Pad;
    WrittenInner(6, "- " + key, ItemLine(key));
  }

  lemma EntryInner(key: string, value: string)
    requires KeyName(key)
    ensures Inner(EntryLine(key, value))
  {
    hide Inner, Pad;
    assert Pad(6) + (key + ":") + " " + value == Pad(6) + (key + ":" + " " + value);
    WrittenInner(6, key + ":" + " " + value, EntryLine(key, value));
  }

  /** The header line of a named block is no line of any edited key. */
  ghost predicate HeaderOf(line: string, name: string) {
    Named(name) && Hits(Header(name), line)
  }

  /** A name as the loader reads it from the file: not blank, no blanks around, no comment. */
  predicate Named(name: string) {
    name != "" && !IsSpace(name[0]) && name[0] != '#'
  }

  lemma HeaderShape(line: string, name: string)
    requires HeaderOf(line, name)
    ensures |line| > 2 && line[0] == ' ' && line[1] == ' ' && line[2] == name[0] && !Inner(line)
  {
    RTrimShape(line, IsSpace);
    assert RTrim(line, IsSpace) == Pad(2) + (name + ":");
    assert line[..2] == Pad(2);
    var rest := line[2..];
    assert line == Pad(2) + rest && rest[0] == name[0];
    Written(2, rest);
  }

  lemma HeaderUnique(line: string, a: string, b: string)
    requires Hits(Header(a), line) && Hits(Header(b), line)
    ensures a == b
  {
    var t := RTrim(line, IsSpace);
    assert t[2..|t| - 1] == a && t[2..|t| - 1] == b;
  }

  lemma HeaderNoKey(line: string, name: string)
    requires HeaderOf(line, name)
    ensures !StartsWith(line, ENABLED) && !StartsWith(line, OVERRIDES) && !StartsWith(line, SELECTION)
  {
    HeaderShape(line, name);
  }

  lemma EnabledGentle(block: seq<string>, name: string, value: bool)
    requires block != [] && HeaderOf(block[0], name)
    ensures SetEnabled(block, value).Some? ==> Gentle(block, SetEnabled(block, value).value)
  {
    HeaderNoKey(block[0], name);
    KeyLinesInner(value);
    hide Inner;
  }

  lemma UpsertGentle(block: seq<string>, name: string, key: string, value: string)
    requires block != [] && HeaderOf(block[0], name) && KeyName(key)
    ensures Gentle(block, Upsert(block, key, value))
  {
    HeaderNoKey(block[0], name);
    KeyLinesInner(true);
    EntryInner(key, value);
    hide Inner;
  }

  /** The selection edit keeps some lines in front and some behind, and has its own in between. */
  lemma SelectParts(block: seq<string>, keys: seq<string>) returns (own: seq<string>, i: nat, j: nat)
    requires block != []
    ensures i <= j <= |block| && Select(block, keys) == block[..i] + own + block[j..]
    ensures i > 0 || StartsWith(block[0], SELECTION)
    ensures own == ItemLines(keys) || own == [SELECTION] + ItemLines(keys)
  {
    var p := First(block, 0, Prefix(SELECTION));
    if p == |block| {
      own, i, j := [SELECTION] + ItemLines(keys), 1, 1;
    } else {
      own, i, j := ItemLines(keys), p + 1, First(block, p + 1, NoItem);
    }
    hide Hits;
  }

  lemma SelectGentle(block: seq<string>, name: string, keys: seq<string>)
    requires block != [] && HeaderOf(block[0], name)
    ensures Gentle(block, Select(block, keys))
  {
    HeaderNoKey(block[0], name);
    forall i | 0 <= i < |keys| ensures Inner(ItemLines(keys)[i]) {
      ItemInner(keys[i]);
    }
    KeyLinesInner(true);
    var own, i, j := SelectParts(block, keys);
    assert own == ItemLines(keys) || own == [SELECTION] + ItemLines(keys);
    hide Inner, ItemLine, ItemLines, Select;
  }

  lemma {:induction false} UpsertAllGentle(block: seq<string>, name: string, overrides: seq<(string, string)>)
    requires block != [] && HeaderOf(block[0], name)
    requires forall i :: 0 <= i < |overrides| ==> KeyName(overrides[i].0)
    ensures Gentle(block, UpsertAll(block, overrides))
  {
    hide Inner, Upsert, KeyName, HeaderOf;
    if overrides != [] {
      var n := |overrides| - 1;
      UpsertAllGentle(block, name, overrides[..n]);
      UpsertGentle(UpsertAll(block, overrides[..n]), name, overrides[n].0, overrides[n].1);
    }
  }

  lemma EditGentle(block: seq<string>, name: string, e: Edit)
    requires block != [] && HeaderOf(block[0], name) && Admitted(e)
    ensures EditBlock(block, e).Some? ==> Gentle(block, EditBlock(block, e).value)
  {
    hide Inner, Upsert, UpsertAll, SetEnabled, Select, KeyName, HeaderOf;
    match e {
      case TaskEdit(keys, _) => SelectGentle(block, name, keys);
      case ToolEdit(enabled, overrides) =>
        if enabled.Some? { EnabledGentle(block, name, enabled.value); }
        var switched := if enabled.Some? then SetEnabled(block, enabled.value) else Some(block);
        if switched.Some? { UpsertAllGentle(switched.value, name, overrides); }
    }
  }

  // ------------------------------------------------------------- locality

  /** The block of `name` is the lines from `s` up to `t`. */
  ghost predicate BlockAt(lines: seq<string>, name: string, s: nat, t: nat) {
    && s < t <= |lines| && Hits(Header(name), lines[s])
    && (forall i :: 0 <= i < s ==> !Hits(Header(name), lines[i]))
    && (forall i :: s < i < t ==> Inner(lines[i]))
    && (t < |lines| ==> !Inner(lines[t]))
  }

  lemma BlockRange(lines: seq<string>, name: string, s: nat, t: nat)
    requires BlockAt(lines, name, s, t)
    ensures s < t <= |lines|
  {
  }

  lemma BlockFound(lines: seq<string>, name: string)
    ensures var s := First(lines, 0, Header(name));
      s < |lines| ==> BlockAt(lines, name, s, First(lines, s + 1, Shallow(2)))
  {
    var s := First(lines, 0, Header(name));
    if s < |lines| {
      var t := First(lines, s + 1, Shallow(2));
      assert forall i :: s < i < t ==> !Hits(Shallow(2), lines[i]);
    }
    hide Hits;
  }

  lemma BlockIs(lines: seq<string>, name: string, s: nat, t: nat)
    requires BlockAt(lines, name, s, t)
    ensures First(lines, 0, Header(name)) == s && First(lines, s + 1, Shallow(2)) == t
  {
    FirstIs(lines, 0, Header(name), s);
    FirstIs(lines, s + 1, Shallow(2), t);
    hide Hits;
  }

  /** The lines with the block from `s` up to `t` put in place of it. */
  function Spliced(lines: seq<string>, s: nat, t: nat, block: seq<string>): seq<string>
    requires s <= t <= |lines|
  {
    lines[..s] + block + lines[t..]
  }

  lemma PatchIs(lines: seq<string>, name: string, e: Edit, s: nat, t: nat)
    requires BlockAt(lines, name, s, t) && Admitted(e)
    ensures lines[s..t] != [] && Patch(lines, name, e)
      == match EditBlock(lines[s..t], e) case None => None case Some(b) => Some(Spliced(lines, s, t, b))
  {
    BlockIs(lines, name, s, t);
    hide EditBlock, BlockAt, First;
  }

  /** Two blocks of different names do not overlap. */
  lemma BlocksApart(lines: seq<string>, a: string, s: nat, t: nat, b: string, u: nat, v: nat)
    requires BlockAt(lines, a, s, t) && BlockAt(lines, b, u, v) && a != b && Named(a) && Named(b)
    ensures s != u && (s < u ==> t <= u) && (u < s ==> v <= s)
  {
    HeaderShape(lines[s], a);
    HeaderShape(lines[u], b);
    if s == u { HeaderUnique(lines[s], a, b); }
    hide Inner, Hits;
  }

  /** The lines of a splice, by place. */
  lemma SplicedAt(lines: seq<string>, s: nat, t: nat, after: seq<string>, i: nat)
    requires s <= t <= |lines| && i < |Spliced(lines, s, t, after)|
    ensures Spliced(lines, s, t, after)[i]
         == if i < s then lines[i] else if i < s + |after| then after[i - s] else lines[i - |after| + (t - s)]
  {
  }

  /** Lines behind a splice keep their order. */
  lemma SplicedBehind(lines: seq<string>, s: nat, t: nat, after: seq<string>, u: nat, v: nat)
    requires s <= t <= u <= v <= |lines|
    ensures var d := |after| - (t - s);
      0 <= u + d <= v + d <= |Spliced(lines, s, t, after)| && Spliced(lines, s, t, after)[u + d..v + d] == lines[u..v]
  {
  }

  lemma LaterBlock(lines: seq<string>, a: string, s: nat, t: nat, after: seq<string>, b: string, u: nat, v: nat)
    requires BlockAt(lines, a, s, t) && BlockAt(lines, b, u, v) && a != b && Named(a) && Named(b) && t <= u
    requires Gentle(lines[s..t], after)
    ensures var lines', d := Spliced(lines, s, t, after), |after| - (t - s);
      0 <= u + d < v + d <= |lines'| && BlockAt(lines', b, u + d, v + d) && lines'[u + d..v + d] == lines[u..v]
  {
    InnerNoHeader(b);
    HeaderFirst(lines, a, s, b);
    var lines', d := Spliced(lines, s, t, after), |after| - (t - s);
    SplicedBehind(lines, s, t, after, u, v);
    hide Inner, Hits;
    assert forall i :: 0 < i < |after| ==> Inner(after[i]);
    assert |lines'| == |lines| + d;
    forall i | 0 <= i < |lines'|
      ensures i < u + d ==> !Hits(Header(b), lines'[i])
      ensures i >= u + d ==> lines'[i] == lines[i - d]
    {
      SplicedAt(lines, s, t, after, i);
    }
    hide Spliced, Gentle;
  }

  lemma EarlierBlock(lines: seq<string>, a: string, s: nat, t: nat, after: seq<string>, b: string, u: nat, v: nat)
    requires BlockAt(lines, a, s, t) && BlockAt(lines, b, u, v) && Named(a) && v <= s
    requires Gentle(lines[s..t], after)
    ensures var lines' := Spliced(lines, s, t, after); BlockAt(lines', b, u, v) && lines'[u..v] == lines[u..v]
  {
    var lines' := Spliced(lines, s, t, after);
    hide Inner, Hits;
    assert forall i :: 0 <= i < s ==> lines'[i] == lines[i];
    assert lines'[s] == after[0] == lines[s];
  }

  /** A gentle change of the block of `a` moves the block of `b` as a whole and changes nothing in it. */
  lemma OtherBlock(lines: seq<string>, a: string, s: nat, t: nat, after: seq<string>, b: string, u: nat, v: nat)
    requires BlockAt(lines, a, s, t) && BlockAt(lines, b, u, v) && a != b && Named(a) && Named(b)
    requires Gentle(lines[s..t], after)
    ensures var lines' := Spliced(lines, s, t, after);
      var d := if s < u then |after| - (t - s) else 0;
      0 <= u + d < v + d <= |lines'| && BlockAt(lines', b, u + d, v + d) && lines'[u + d..v + d] == lines[u..v]
  {
    BlocksApart(lines, a, s, t, b, u, v);
    BlockRange(lines, a, s, t);
    BlockRange(lines, b, u, v);
    hide *;
    if s < u {
      LaterBlock(lines, a, s, t, after, b, u, v);
    } else {
      EarlierBlock(lines, a, s, t, after, b, u, v);
      BlockRange(Spliced(lines, s, t, after), b, u, v);
    }
  }

  lemma HeaderFirst(lines: seq<string>, a: string, s: nat, b: string)
    requires s < |lines| && Hits(Header(a), lines[s]) && a != b
    ensures !Hits(Header(b), lines[s])
  {
    if Hits(Header(b), lines[s]) { HeaderUnique(lines[s], a, b); }
  }

  /** No line inside a block is the header of a named one. */
  lemma InnerNoHeader(name: string)
    requires Named(name)
    ensures forall line :: Inner(line) ==> !Hits(Header(name), line)
  {
    forall line | Inner(line) ensures !Hits(Header(name), line) {
      if Hits(Header(name), line) { HeaderShape(line, name); }
    }
  }

  /** A name that has no block has none after the change either. */
  lemma NoOtherBlock(lines: seq<string>, a: string, s: nat, t: nat, after: seq<string>, b: string)
    requires BlockAt(lines, a, s, t) && a != b && Named(a) && Named(b)
    requires Gentle(lines[s..t], after) && First(lines, 0, Header(b)) == |lines|
    ensures var lines' := Spliced(lines, s, t, after); First(lines', 0, Header(b)) == |lines'|
  {
    InnerNoHeader(b);
    var lines' := Spliced(lines, s, t, after);
    hide Inner, Hits;
    forall i | 0 <= i < |lines'| ensures !Hits(Header(b), lines'[i]) {
      if i < s {
        assert lines'[i] == lines[i];
      } else if i < s + |after| {
        assert lines'[i] == after[i - s];
      } else {
        assert lines'[i] == lines[i - |after| + (t - s)];
      }
    }
    FirstIs(lines', 0, Header(b), |lines'|);
  }

  // ------------------------------------------------------------- commutation

  lemma SplicesCommute(lines: seq<string>, s: nat, t: nat, x: seq<string>, u: nat, v: nat, y: seq<string>)
    requires s <= t <= u <= v <= |lines|
    ensures var d := |x| - (t - s);
      0 <= u + d && v + d <= |Spliced(lines, s, t, x)| && t <= |Spliced(lines, u, v, y)|
      && Spliced(Spliced(lines, s, t, x), u + d, v + d, y) == Spliced(Spliced(lines, u, v, y), s, t, x)
  {
    var first, second := Spliced(lines, s, t, x), Spliced(lines, u, v, y);
    var d := |x| - (t - s);
    assert first[..u + d] == lines[..s] + x + lines[t..u] && first[v + d..] == lines[v..];
    assert second[..s] == lines[..s] && second[t..] == lines[t..u] + y + lines[v..];
    assert lines[..s] + x + lines[t..u] + y + lines[v..] == lines[..s] + x + (lines[t..u] + y + lines[v..]);
  }

  /** A successful patch is a gentle change of one block. */
  lemma PatchSplices(lines: seq<string>, a: string, e: Edit) returns (s: nat, t: nat, x: seq<string>)
    requires Named(a) && Patch(lines, a, e).Some?
    ensures Admitted(e) && BlockAt(lines, a, s, t) && EditBlock(lines[s..t], e) == Some(x)
    ensures Patch(lines, a, e) == Some(Spliced(lines, s, t, x)) && Gentle(lines[s..t], x)
  {
    hide Spliced, BlockAt, Gentle, EditBlock, Hits, Admitted;
    BlockFound(lines, a);
    s := First(lines, 0, Header(a));
    t := First(lines, s + 1, Shallow(2));
    BlockRange(lines, a, s, t);
    PatchIs(lines, a, e, s, t);
    x := EditBlock(lines[s..t], e).value;
    EditGentle(lines[s..t], a, e);
  }

  /** A patch of `b` behind a gentle change of the block of `a` does to the block of `b` what it would have done. */
  lemma PatchBehind(lines: seq<string>, a: string, s: nat, t: nat, x: seq<string>,
                    b: string, f: Edit, u: nat, v: nat, y: seq<string>)
    requires a != b && Named(a) && Named(b) && BlockAt(lines, a, s, t) && Gentle(lines[s..t], x)
    requires Admitted(f) && BlockAt(lines, b, u, v) && EditBlock(lines[u..v], f) == Some(y)
    ensures s < t <= |lines| && u < v <= |lines|
    ensures var d := if s < u then |x| - (t - s) else 0;
      0 <= u + d <= v + d <= |Spliced(lines, s, t, x)|
      && Patch(Spliced(lines, s, t, x), b, f) == Some(Spliced(Spliced(lines, s, t, x), u + d, v + d, y))
  {
    hide Patch, Spliced, BlockAt, Gentle, EditBlock, Admitted, Named;
    BlockRange(lines, a, s, t);
    BlockRange(lines, b, u, v);
    OtherBlock(lines, a, s, t, x, b, u, v);
    var d := if s < u then |x| - (t - s) else 0;
    PatchIs(Spliced(lines, s, t, x), b, f, u + d, v + d);
    assert u + d < v + d <= |Spliced(lines, s, t, x)|;
  }

  /** Edits of different blocks commute to identical lines. */
  lemma EditsCommute(lines: seq<string>, a: string, e: Edit, b: string, f: Edit)
    requires a != b && Named(a) && Named(b) && Patch(lines, a, e).Some? && Patch(lines, b, f).Some?
    ensures Patch(Patch(lines, a, e).value, b, f).Some?
    ensures Patch(Patch(lines, a, e).value, b, f) == Patch(Patch(lines, b, f).value, a, e)
  {
    hide Patch, Spliced, BlockAt, Gentle, EditBlock, Admitted, Named;
    var s, t, x := PatchSplices(lines, a, e);
    var u, v, y := PatchSplices(lines, b, f);
    BlockRange(lines, a, s, t);
    BlockRange(lines, b, u, v);
    BlocksApart(lines, a, s, t, b, u, v);
    PatchBehind(lines, a, s, t, x, b, f, u, v, y);
    PatchBehind(lines, b, u, v, y, a, e, s, t, x);
    if s < u {
      SplicesCommute(lines, s, t, x, u, v, y);
    } else {
      SplicesCommute(lines, u, v, y, s, t, x);
    }
  }

  /** An edit never makes another one fail, nor lets a failing one through. */
  lemma EditsFailAlone(lines: seq<string>, a: string, e: Edit, b: string, f: Edit)
    requires a != b && Named(a) && Named(b) && Patch(lines, a, e).Some?
    ensures Patch(Patch(lines, a, e).value, b, f).Some? <==> Patch(lines, b, f).Some?
  {
    hide Spliced, BlockAt, Gentle, EditBlock, Admitted, Named, Hits;
    if Patch(lines, b, f).Some? {
      EditsCommute(lines, a, e, b, f);
    } else if Admitted(f) {
      var s, t, x := PatchSplices(lines, a, e);
      if First(lines, 0, Header(b)) == |lines| {
        BlockRange(lines, a, s, t);
        NoOtherBlock(lines, a, s, t, x, b);
      } else {
        FailsStill(lines, a, s, t, x, b, f);
      }
    }
  }

  lemma FailsStill(lines: seq<string>, a: string, s: nat, t: nat, x: seq<string>, b: string, f: Edit)
    requires a != b && Named(a) && Named(b) && BlockAt(lines, a, s, t) && Gentle(lines[s..t], x) && Admitted(f)
    requires First(lines, 0, Header(b)) < |lines| && Patch(lines, b, f).None?
    ensures Patch(Spliced(lines, s, t, x), b, f).None?
  {
    hide Patch, Spliced, BlockAt, Gentle, EditBlock, Admitted, Named, Hits;
    BlockFound(lines, b);
    var u := First(lines, 0, Header(b));
    var v := First(lines, u + 1, Shallow(2));
    BlockRange(lines, a, s, t);
    BlockRange(lines, b, u, v);
    PatchIs(lines, b, f, u, v);
    OtherBlock(lines, a, s, t, x, b, u, v);
    var d := if s < u then |x| - (t - s) else 0;
    PatchIs(Spliced(lines, s, t, x), b, f, u + d, v + d);
  }

  /** An edit leaves every other block as it was. */
  lemma OthersKept(lines: seq<string>, a: string, e: Edit, b: string, u: nat, v: nat) returns (u': nat, v': nat)
    requires a != b && Named(a) && Named(b) && Patch(lines, a, e).Some? && BlockAt(lines, b, u, v)
    ensures BlockAt(Patch(lines, a, e).value, b, u', v') && Patch(lines, a, e).value[u'..v'] == lines[u..v]
  {
    hide Patch, Spliced, BlockAt, EditBlock, Gentle, Admitted, Named;
    var s, t, x := PatchSplices(lines, a, e);
    BlockRange(lines, a, s, t);
    BlockRange(lines, b, u, v);
    OtherBlock(lines, a, s, t, x, b, u, v);
    var d := if s < u then |x| - (t - s) else 0;
    u', v' := u + d, v + d;
  }

  /** The edited block is found again where it was. */
  lemma OwnBlock(lines: seq<string>, a: string, s: nat, t: nat, after: seq<string>)
    requires BlockAt(lines, a, s, t) && Gentle(lines[s..t], after)
    ensures var lines' := Spliced(lines, s, t, after);
      BlockAt(lines', a, s, s + |after|) && lines'[s..s + |after|] == after
  {
    var lines' := Spliced(lines, s, t, after);
    hide Inner, Hits;
    assert forall i :: 0 < i < |after| ==> Inner(after[i]);
    forall i | 0 <= i < |lines'|
      ensures lines'[i] == if i < s then lines[i] else if i < s + |after| then after[i - s] else lines[i - |after| + (t - s)]
    {
      SplicedAt(lines, s, t, after, i);
    }
    assert |lines'| == |lines| - (t - s) + |after| && lines[s..t][0] == lines[s];
  }
}
