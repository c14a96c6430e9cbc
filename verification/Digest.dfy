/** Watchtower alerts (pipeline/notify.py): which diff rows alert, and how a digest is split into messages. */
module Digest {
  import opened Basics
  import opened Text

  const TELEGRAM_TEXT_CAP := 3900
  const DIGEST_LIST_CAP := 20

  // ------------------------------------------------------------- splitting

  /** The text of one message: the prefix and one line per finding. */
  function Message(prefix: string, body: seq<string>): string {
    if body == [] then prefix else Message(prefix, body[..|body| - 1]) + "\n" + body[|body| - 1]
  }

  function Size(prefix: string, body: seq<string>): nat {
    if body == [] then |prefix| else Size(prefix, body[..|body| - 1]) + 1 + |body[|body| - 1]|
  }

  lemma {:induction false} SizeIsLength(prefix: string, body: seq<string>)
    ensures |Message(prefix, body)| == Size(prefix, body)
  {
    if body != [] { SizeIsLength(prefix, body[..|body| - 1]); }
  }

  /** At most twenty findings, and the text within the cap unless it is a single finding. */
  predicate Fits(prefix: string, body: seq<string>) {
    |body| <= DIGEST_LIST_CAP && (Size(prefix, body) <= TELEGRAM_TEXT_CAP || |body| == 1)
  }

  function Continued(header: string): string {
    header + " (cont.)"
  }

  /** The bodies still to come when `current` is being filled under `prefix`. */
  function Greedy(header: string, prefix: string, current: seq<string>, rest: seq<string>): seq<seq<string>>
    decreases |rest|
  {
    if rest == [] then if current == [] then [] else [current]
    else if current != [] && !Fits(prefix, current + [rest[0]]) then
      [current] + Greedy(header, Continued(header), [rest[0]], rest[1..])
    else Greedy(header, prefix, current + [rest[0]], rest[1..])
  }

  function PrefixOf(header: string, i: nat): string {
    if i == 0 then header else Continued(header)
  }

  function Rendered(header: string, bodies: seq<seq<string>>): (r: seq<string>)
    ensures |r| == |bodies|
  {
    seq(|bodies|, i requires 0 <= i < |bodies| => Message(PrefixOf(header, i), bodies[i]))
  }

  function Bodies(header: string, lines: seq<string>): seq<seq<string>> {
    Greedy(header, header, [], lines)
  }

  /** The messages closed so far, and those still to come, are those of all lines. */
  ghost predicate OnTrack(header: string, lines: seq<string>, i: nat, done: seq<seq<string>>, current: seq<string>) {
    && i <= |lines|
    && done + Greedy(header, PrefixOf(header, |done|), current, lines[i..]) == Bodies(header, lines)
  }

  lemma TrackStart(header: string, lines: seq<string>)
    ensures OnTrack(header, lines, 0, [], [])
  {
    assert lines[0..] == lines;
    hide Greedy;
    assert [] + Bodies(header, lines) == Bodies(header, lines);
  }

  /** One turn of the loop: the line goes into the message, or closes it. */
  lemma TrackTurn(header: string, lines: seq<string>, i: nat, done: seq<seq<string>>, current: seq<string>)
    requires i < |lines| && OnTrack(header, lines, i, done, current)
    ensures if current != [] && !Fits(PrefixOf(header, |done|), current + [lines[i]])
            then OnTrack(header, lines, i + 1, done + [current], [lines[i]])
            else OnTrack(header, lines, i + 1, done, current + [lines[i]])
  {
    hide Greedy, Fits, Continued;
    GreedyTurn(header, PrefixOf(header, |done|), current, lines[i..]);
    assert lines[i..][0] == lines[i] && lines[i..][1..] == lines[i + 1..];
    var more := Greedy(header, Continued(header), [lines[i]], lines[i + 1..]);
    assert done + ([current] + more) == done + [current] + more;
  }

  lemma TrackEnd(header: string, lines: seq<string>, done: seq<seq<string>>, current: seq<string>)
    requires OnTrack(header, lines, |lines|, done, current)
    ensures Bodies(header, lines) == if current == [] then done else done + [current]
  {
    hide Bodies;
    assert lines[|lines|..] == [] && done + [] == done;
  }

  /** `_chunk_digest`. */
  method ChunkDigest(header: string, lines: seq<string>) returns (chunks: seq<string>)
    ensures chunks == if lines == [] then [header] else Rendered(header, Bodies(header, lines))
  {
    hide Fits, Size, Message, Greedy, Rendered, Continued, OnTrack, Bodies;
    chunks := [];
    var prefix := header;
    var text := prefix;
    var size := |prefix|;
    var listed := 0;
    ghost var done: seq<seq<string>> := [];
    ghost var current: seq<string> := [];
    MessageNil(prefix);
    TrackStart(header, lines);
    RenderedNone(header);
    for i := 0 to |lines|
      invariant prefix == PrefixOf(header, |done|) && listed == |current|
      invariant text == Message(prefix, current) && size == Size(prefix, current)
      invariant chunks == Rendered(header, done) && OnTrack(header, lines, i, done, current)
      invariant (i > 0 <==> listed > 0) && (i == 0 ==> done == [])
    {
      var line := lines[i];
      var extra := 1 + |line|;
      var overflow := size + extra > TELEGRAM_TEXT_CAP || listed >= DIGEST_LIST_CAP;
      MessageSnoc(prefix, current, line);
      TrackTurn(header, lines, i, done, current);
      if overflow && listed > 0 {
        RenderedSnoc(header, done, current);
        chunks := chunks + [text];
        done := done + [current];
        prefix := Continued(header);
        text := prefix;
        size := |prefix|;
        listed := 0;
        current := [];
        MessageNil(prefix);
        MessageSnoc(prefix, current, line);
        assert current + [line] == [line];
      }
      text := text + "\n" + line;
      size := size + extra;
      listed := listed + 1;
      current := current + [line];
    }
    TrackEnd(header, lines, done, current);
    RenderedSnoc(header, done, current);
    if listed > 0 { chunks := chunks + [text]; }
    if chunks == [] { chunks := [header]; }
  }

  lemma RenderedNone(header: string)
    ensures Rendered(header, []) == []
  {
  }

  lemma RenderedSnoc(header: string, done: seq<seq<string>>, current: seq<string>)
    ensures Rendered(header, done + [current]) == Rendered(header, done) + [Message(PrefixOf(header, |done|), current)]
  {
    hide Message;
  }

  /** One turn of the loop: close the message, or put the line into it. */
  lemma GreedyTurn(header: string, prefix: string, current: seq<string>, rest: seq<string>)
    requires rest != []
    ensures Greedy(header, prefix, current, rest)
         == if current != [] && !Fits(prefix, current + [rest[0]])
            then [current] + Greedy(header, Continued(header), [rest[0]], rest[1..])
            else Greedy(header, prefix, current + [rest[0]], rest[1..])
  {
    hide Fits;
  }

  lemma MessageNil(prefix: string)
    ensures Message(prefix, []) == prefix && Size(prefix, []) == |prefix|
  {
  }

  lemma MessageSnoc(prefix: string, body: seq<string>, line: string)
    ensures Message(prefix, body + [line]) == Message(prefix, body) + "\n" + line
    ensures Size(prefix, body + [line]) == Size(prefix, body) + 1 + |line|
    ensures body != [] ==>
      (Fits(prefix, body + [line]) <==> Size(prefix, body) + 1 + |line| <= TELEGRAM_TEXT_CAP && |body| < DIGEST_LIST_CAP)
  {
    assert (body + [line])[..|body|] == body;
  }

  // ------------------------------------------------------------- exact and optimal

  function Concat(bodies: seq<seq<string>>): seq<string> {
    if bodies == [] then [] else bodies[0] + Concat(bodies[1..])
  }

  /** Every message of a split respects the caps; an empty message is no message. */
  ghost predicate Admissible(header: string, prefix: string, bodies: seq<seq<string>>)
    decreases |bodies|
  {
    bodies == [] ||
    ((bodies[0] == [] || Fits(prefix, bodies[0])) && Admissible(header, Continued(header), bodies[1..]))
  }

  /** The first greedy body is the longest fitting prefix; the rest is the digest of what is left. */
  lemma {:induction false} GreedyFirst(header: string, prefix: string, current: seq<string>, rest: seq<string>)
    returns (k: nat)
    requires current + rest != []
    requires current == [] || Fits(prefix, current)
    ensures |current| <= k <= |current + rest| && k >= 1
    ensures Greedy(header, prefix, current, rest)
         == [(current + rest)[..k]] + Greedy(header, Continued(header), [], (current + rest)[k..])
    ensures Fits(prefix, (current + rest)[..k])
    ensures k < |current + rest| ==> !Fits(prefix, (current + rest)[..k + 1])
    decreases |rest|
  {
    var all := current + rest;
    if rest == [] {
      k := |current|;
      assert all == current && all[..k] == current && all[k..] == [];
    } else if current != [] && !Fits(prefix, current + [rest[0]]) {
      k := |current|;
      assert all[..k] == current && all[k..] == rest && all[..k + 1] == current + [rest[0]];
      assert Greedy(header, Continued(header), [], rest) == Greedy(header, Continued(header), [rest[0]], rest[1..]) by {
        assert [] + [rest[0]] == [rest[0]];
      }
    } else {
      SingleFits(prefix, rest[0]);
      assert current == [] ==> current + [rest[0]] == [rest[0]];
      hide Fits, Greedy;
      k := GreedyFirst(header, prefix, current + [rest[0]], rest[1..]);
      assert (current + [rest[0]]) + rest[1..] == all;
      GreedyTurn(header, prefix, current, rest);
    }
  }

  lemma SingleFits(prefix: string, line: string)
    ensures Fits(prefix, [line])
  {
  }

  lemma {:induction false} SizeOfPart(prefix: string, body: seq<string>, i: nat, j: nat)
    requires i <= j <= |body|
    ensures Size(prefix, body[i..j]) <= Size(prefix, body)
    decreases |body|
  {
    var n := |body| - 1;
    if j < |body| {
      SizeOfPart(prefix, body[..n], i, j);
      assert body[..n][i..j] == body[i..j];
    } else if i < j {
      SizeOfPart(prefix, body[..n], i, n);
      assert body[..n][i..n] == body[i..n] && body[i..j][..|body[i..j]| - 1] == body[i..n];
    } else {
      SizeAtLeast(prefix, body);
    }
  }

  lemma {:induction false} SizeAtLeast(prefix: string, body: seq<string>)
    ensures Size(prefix, body) >= |prefix|
  {
    if body != [] { SizeAtLeast(prefix, body[..|body| - 1]); }
  }

  /** Part of a fitting body fits. */
  lemma PartFits(prefix: string, body: seq<string>, i: nat, j: nat)
    requires Fits(prefix, body) && i < j <= |body|
    ensures Fits(prefix, body[i..j])
  {
    SizeOfPart(prefix, body, i, j);
    hide Size;
  }

  lemma KeepsUp(prefix: string, lines: seq<string>, o: nat, n: nat, e: nat, k: nat)
    requires o <= e && o + n <= |lines| && e + k <= |lines|
    requires n == 0 || Fits(prefix, lines[o..o + n])
    requires e + k < |lines| ==> !Fits(prefix, lines[e..e + k + 1])
    ensures o + n <= e + k
  {
    hide Fits;
    if o + n > e + k {
      var g := lines[o..o + n];
      var part := g[e - o..e + k + 1 - o];
      assert |part| == k + 1 && forall i :: 0 <= i < k + 1 ==> part[i] == lines[e + i];
      assert part == lines[e..e + k + 1];
      PartFits(prefix, g, e - o, e + k + 1 - o);
    }
  }

  /** Greedy never falls behind: started no earlier than another split, it needs no more messages. */
  lemma {:induction false} StaysAhead(
    header: string, prefix: string, lines: seq<string>, o: nat, e: nat, other: seq<seq<string>>)
    requires o <= e <= |lines| && Concat(other) == lines[o..] && Admissible(header, prefix, other)
    ensures |Greedy(header, prefix, [], lines[e..])| <= |other|
    decreases |other|
  {
    hide Fits, Greedy;
    if e == |lines| {
      GreedyNothing(header, prefix);
    } else {
      assert other != [];
      var g := other[0];
      assert lines[o..] == g + Concat(other[1..]);
      assert g == lines[o..o + |g|] && Concat(other[1..]) == lines[o + |g|..];
      assert [] + lines[e..] == lines[e..];
      var k := GreedyFirst(header, prefix, [], lines[e..]);
      assert e + k < |lines| ==> lines[e..][..k + 1] == lines[e..e + k + 1];
      KeepsUp(prefix, lines, o, |g|, e, k);
      assert lines[e..][k..] == lines[e + k..];
      StaysAhead(header, Continued(header), lines, o + |g|, e + k, other[1..]);
    }
  }

  lemma GreedyNothing(header: string, prefix: string)
    ensures Greedy(header, prefix, [], []) == []
  {
  }

  lemma {:induction false} GreedyExact(header: string, prefix: string, lines: seq<string>)
    ensures Concat(Greedy(header, prefix, [], lines)) == lines
    ensures Admissible(header, prefix, Greedy(header, prefix, [], lines))
    ensures forall i :: 0 <= i < |Greedy(header, prefix, [], lines)| ==> Greedy(header, prefix, [], lines)[i] != []
    decreases |lines|
  {
    hide Fits, Greedy;
    if lines == [] {
      GreedyNothing(header, prefix);
    } else {
      assert [] + lines == lines;
      var k := GreedyFirst(header, prefix, [], lines);
      GreedyExact(header, Continued(header), lines[k..]);
      var rest := Greedy(header, Continued(header), [], lines[k..]);
      assert ([lines[..k]] + rest)[1..] == rest;
    }
  }

  /** The split is exact: no finding is lost, repeated or moved, and every message respects the caps. */
  lemma DigestIsExact(header: string, lines: seq<string>)
    ensures Concat(Bodies(header, lines)) == lines
    ensures forall i :: 0 <= i < |Bodies(header, lines)| ==>
      Bodies(header, lines)[i] != [] && Fits(PrefixOf(header, i), Bodies(header, lines)[i])
  {
    hide Fits, Greedy;
    GreedyExact(header, header, lines);
    var bodies := Bodies(header, lines);
    forall i | 0 <= i < |bodies| ensures Fits(PrefixOf(header, i), bodies[i]) {
      AdmissibleAt(header, header, bodies, i);
    }
  }

  lemma {:induction false} AdmissibleAt(header: string, prefix: string, bodies: seq<seq<string>>, i: nat)
    requires Admissible(header, prefix, bodies) && i < |bodies| && bodies[i] != []
    ensures Fits(if i == 0 then prefix else Continued(header), bodies[i])
    decreases i
  {
    hide Fits;
    if i > 0 { AdmissibleAt(header, Continued(header), bodies[1..], i - 1); }
  }

  /** The split is optimal: no order-preserving split under the same prefixes and caps uses fewer messages. */
  lemma DigestIsOptimal(header: string, lines: seq<string>, other: seq<seq<string>>)
    requires Concat(other) == lines && Admissible(header, header, other)
    ensures |Bodies(header, lines)| <= |other|
  {
    assert lines[0..] == lines;
    StaysAhead(header, header, lines, 0, 0, other);
  }

  // ------------------------------------------------------------- which rows alert

  datatype Side = Added | Removed | Changed

  function SideName(side: Side): string {
    match side case Added => "added" case Removed => "removed" case Changed => "changed"
  }

  /** The addresses of a host as one run saw it. */
  datatype Seen = Seen(ip: string, ips: seq<string>)

  /** A diff row: its printed label, its own addresses and, in a changed row, those before and after. */
  datatype DiffRow = DiffRow(text: string, own: Seen, before: Option<Seen>, after: Option<Seen>)

  /** A bucket of the diff, in the order of its keys. */
  type Bucket = seq<(string, seq<DiffRow>)>

  datatype Diff = Diff(added: Bucket, removed: Bucket, changed: Bucket, baseline: string, fromRun: Option<string>)

  datatype Rule = Rule(cls: string, enabled: bool, sides: Option<seq<string>>, requireNewIp: bool)

  const FACT_CLASSES := ["hosts", "vhosts", "ports", "services", "passive_ips"]

  function BucketOf(diff: Diff, side: Side): Bucket {
    match side case Added => diff.added case Removed => diff.removed case Changed => diff.changed
  }

  function RowsOf(bucket: Bucket, cls: string): seq<DiffRow> {
    if bucket == [] then [] else if bucket[0].0 == cls then bucket[0].1 else RowsOf(bucket[1..], cls)
  }

  function ExtraClasses(bucket: Bucket): seq<string> {
    if bucket == [] then []
    else (if bucket[0].0 in FACT_CLASSES then [] else [bucket[0].0]) + ExtraClasses(bucket[1..])
  }

  datatype Finding = Finding(side: Side, cls: string, row: DiffRow)

  function Tagged(side: Side, cls: string, rows: seq<DiffRow>): (r: seq<Finding>)
    ensures |r| == |rows|
  {
    seq(|rows|, i requires 0 <= i < |rows| => Finding(side, cls, rows[i]))
  }

  function SideFindings(bucket: Bucket, side: Side, classes: seq<string>): seq<Finding> {
    if classes == [] then []
    else
      var n := |classes| - 1;
      SideFindings(bucket, side, classes[..n]) + Tagged(side, classes[n], RowsOf(bucket, classes[n]))
  }

  function FindingsOn(diff: Diff, side: Side): seq<Finding> {
    var bucket := BucketOf(diff, side);
    SideFindings(bucket, side, FACT_CLASSES + ExtraClasses(bucket))
  }

  /** `_iter_diff_rows`. */
  function Findings(diff: Diff): seq<Finding> {
    FindingsOn(diff, Added) + FindingsOn(diff, Removed) + FindingsOn(diff, Changed)
  }

  /** Every row of a bucket, key by key. */
  function AllRows(bucket: Bucket, side: Side): seq<Finding> {
    if bucket == [] then [] else Tagged(side, bucket[0].0, bucket[0].1) + AllRows(bucket[1..], side)
  }

  predicate DistinctKeys(bucket: Bucket) {
    forall i, j :: 0 <= i < j < |bucket| ==> bucket[i].0 != bucket[j].0
  }

  predicate NoKey(bucket: Bucket, cls: string) {
    forall i :: 0 <= i < |bucket| ==> bucket[i].0 != cls
  }

  predicate DistinctNames(names: seq<string>) {
    forall i, j :: 0 <= i < j < |names| ==> names[i] != names[j]
  }

  lemma {:induction false} NoRows(bucket: Bucket, cls: string)
    requires NoKey(bucket, cls)
    ensures RowsOf(bucket, cls) == []
  {
    if bucket != [] { NoRows(bucket[1..], cls); }
  }

  lemma Snoc(bucket: Bucket, side: Side, classes: seq<string>, cls: string)
    ensures multiset(SideFindings(bucket, side, classes + [cls]))
         == multiset(SideFindings(bucket, side, classes)) + multiset(Tagged(side, cls, RowsOf(bucket, cls)))
  {
    hide Tagged, RowsOf;
    assert (classes + [cls])[..|classes|] == classes;
  }

  lemma {:induction false} OneKeyMore(bucket: Bucket, side: Side, classes: seq<string>)
    requires bucket != [] && NoKey(bucket[1..], bucket[0].0) && DistinctNames(classes)
    ensures multiset(SideFindings(bucket, side, classes))
         == multiset(SideFindings(bucket[1..], side, classes))
            + if bucket[0].0 in classes then multiset(Tagged(side, bucket[0].0, bucket[0].1)) else multiset{}
  {
    if classes != [] {
      var n := |classes| - 1;
      var cls := classes[n];
      OneKeyMore(bucket, side, classes[..n]);
      assert classes == classes[..n] + [cls];
      Snoc(bucket, side, classes[..n], cls);
      Snoc(bucket[1..], side, classes[..n], cls);
      if cls == bucket[0].0 {
        NoRows(bucket[1..], cls);
        TaggedNothing(side, cls);
        assert cls !in classes[..n];
      }
      hide SideFindings, Tagged;
    }
  }

  lemma TaggedNothing(side: Side, cls: string)
    ensures Tagged(side, cls, []) == []
  {
  }

  lemma {:induction false} NothingFound(side: Side, classes: seq<string>)
    ensures SideFindings([], side, classes) == []
  {
    if classes != [] {
      NothingFound(side, classes[..|classes| - 1]);
      TaggedNothing(side, classes[|classes| - 1]);
    }
  }

  lemma {:induction false} VisitsAllKeys(bucket: Bucket, side: Side, classes: seq<string>)
    requires DistinctKeys(bucket) && DistinctNames(classes)
    requires forall i :: 0 <= i < |bucket| ==> bucket[i].0 in classes
    ensures multiset(SideFindings(bucket, side, classes)) == multiset(AllRows(bucket, side))
  {
    hide Tagged, SideFindings;
    if bucket == [] {
      NothingFound(side, classes);
    } else {
      assert forall i :: 0 <= i < |bucket| - 1 ==> bucket[1..][i] == bucket[i + 1];
      OneKeyMore(bucket, side, classes);
      VisitsAllKeys(bucket[1..], side, classes);
    }
  }

  lemma {:induction false} ExtrasAreNew(bucket: Bucket)
    requires DistinctKeys(bucket)
    ensures DistinctNames(ExtraClasses(bucket))
    ensures forall c :: c in ExtraClasses(bucket) ==> c !in FACT_CLASSES && !NoKey(bucket, c)
    ensures forall i :: 0 <= i < |bucket| ==> bucket[i].0 in FACT_CLASSES || bucket[i].0 in ExtraClasses(bucket)
  {
    if bucket != [] {
      var rest := ExtraClasses(bucket[1..]);
      ExtrasAreNew(bucket[1..]);
      assert forall i :: 0 <= i < |bucket| - 1 ==> bucket[1..][i] == bucket[i + 1];
      assert NoKey(bucket[1..], bucket[0].0);
      assert bucket[0].0 !in rest;
      forall c | c in rest ensures !NoKey(bucket, c) {
        var i :| 0 <= i < |bucket[1..]| && bucket[1..][i].0 == c;
        assert bucket[i + 1].0 == c;
      }
      assert forall i :: 0 < i < |bucket| ==> bucket[i].0 == bucket[1..][i - 1].0;
    }
  }

  /** Walking the diff visits every row of every class of a side exactly once. */
  lemma EveryRowOnce(diff: Diff, side: Side)
    requires DistinctKeys(BucketOf(diff, side))
    ensures multiset(FindingsOn(diff, side)) == multiset(AllRows(BucketOf(diff, side), side))
  {
    var bucket := BucketOf(diff, side);
    ExtrasAreNew(bucket);
    var extra := ExtraClasses(bucket);
    hide ExtraClasses, SideFindings, AllRows, NoKey;
    var classes := FACT_CLASSES + extra;
    forall i, j | 0 <= i < j < |classes| ensures classes[i] != classes[j] {
      if j >= 5 && i < 5 { assert extra[j - 5] in extra && FACT_CLASSES[i] in FACT_CLASSES; }
    }
    forall i | 0 <= i < |bucket| ensures bucket[i].0 in classes {
      assert bucket[i].0 in FACT_CLASSES || bucket[i].0 in extra;
    }
    VisitsAllKeys(bucket, side, classes);
  }

  function Allowed(sides: seq<string>): set<string> {
    set s | s in sides && Strip(s) != "" :: Lower(Strip(s))
  }

  function Addresses(seen: Seen): seq<string> {
    (if seen.ip != "" then [seen.ip] else []) + seen.ips
  }

  function AddressSet(seen: Option<Seen>): set<string> {
    if seen.None? then {} else set a | a in Addresses(seen.value)
  }

  /** The addresses a removed or changed row tells of the earlier run. */
  function RowAddresses(row: DiffRow, side: Side): set<string> {
    AddressSet(Some(row.own)) + if side.Changed? then AddressSet(row.before) + AddressSet(row.after) else {}
  }

  function RowsAddresses(rows: seq<DiffRow>, side: Side): set<string> {
    if rows == [] then {}
    else RowsAddresses(rows[..|rows| - 1], side) + RowAddresses(rows[|rows| - 1], side)
  }

  /** `_prev_index_from_diff`. */
  function PrevIndex(diff: Diff): set<string> {
    RowsAddresses(RowsOf(diff.removed, "hosts"), Removed) + RowsAddresses(RowsOf(diff.changed, "hosts"), Changed)
  }

  method MineAddresses(rows: seq<DiffRow>, side: Side) returns (r: set<string>)
    ensures r == RowsAddresses(rows, side)
  {
    r := {};
    for i := 0 to |rows|
      invariant r == RowsAddresses(rows[..i], side)
    {
      assert rows[..i + 1][..i] == rows[..i];
      r := r + RowAddresses(rows[i], side);
    }
    assert rows[..|rows|] == rows;
  }

  /** The first run has nothing to be compared with. */
  predicate FirstOne(diff: Diff) {
    diff.baseline == "none" || diff.fromRun in {None, Some("")}
  }

  lemma {:induction false} MinedExactly(rows: seq<DiffRow>, side: Side, a: string)
    ensures a in RowsAddresses(rows, side) <==> exists i :: 0 <= i < |rows| && a in RowAddresses(rows[i], side)
  {
    hide RowAddresses;
    if rows != [] {
      var n := |rows| - 1;
      MinedExactly(rows[..n], side, a);
      assert forall i :: 0 <= i < n ==> rows[..n][i] == rows[i];
    }
  }

  /** `alert_worthy`: the first rule of the class decides; a class without a rule always alerts. */
  predicate AlertWorthy(rules: seq<Rule>, f: Finding, seen: set<string>) {
    if rules == [] then true
    else if rules[0].cls != f.cls then AlertWorthy(rules[1..], f, seen)
    else
      var rule := rules[0];
      && rule.enabled
      && (rule.sides.Some? ==> SideName(f.side) in Allowed(rule.sides.value))
      && (rule.requireNewIp && f.side.Added? && f.cls == "hosts" ==>
           AddressSet(Some(f.row.own)) != {} && AddressSet(Some(f.row.own)) !! seen)
  }

  function Alerts(rules: seq<Rule>, fs: seq<Finding>, seen: set<string>): seq<Finding> {
    if fs == [] then []
    else
      var n := |fs| - 1;
      Alerts(rules, fs[..n], seen) + if AlertWorthy(rules, fs[n], seen) then [fs[n]] else []
  }

  /** No rule of the class: the finding alerts, whatever else is configured. */
  lemma {:induction false} UnruledAlerts(rules: seq<Rule>, f: Finding, seen: set<string>)
    requires forall i :: 0 <= i < |rules| ==> rules[i].cls != f.cls
    ensures AlertWorthy(rules, f, seen)
  {
    if rules != [] { UnruledAlerts(rules[1..], f, seen); }
  }

  /** Under a rule for new addresses an added host alerts if and only if it has an address and shares none with a
      removed or changed host. */
  lemma NewAddressExactly(diff: Diff, rule: Rule, rest: seq<Rule>, row: DiffRow)
    requires rule.cls == "hosts" && rule.enabled && rule.requireNewIp && rule.sides.None?
    ensures AlertWorthy([rule] + rest, Finding(Added, "hosts", row), PrevIndex(diff)) <==>
      && Addresses(row.own) != []
      && forall a | a in Addresses(row.own) ::
           && (forall i :: 0 <= i < |RowsOf(diff.removed, "hosts")| ==>
                a !in RowAddresses(RowsOf(diff.removed, "hosts")[i], Removed))
           && (forall i :: 0 <= i < |RowsOf(diff.changed, "hosts")| ==>
                a !in RowAddresses(RowsOf(diff.changed, "hosts")[i], Changed))
  {
    hide RowAddresses, RowsAddresses, RowsOf;
    forall a ensures
      a in PrevIndex(diff) <==>
        || (exists i :: 0 <= i < |RowsOf(diff.removed, "hosts")| && a in RowAddresses(RowsOf(diff.removed, "hosts")[i], Removed))
        || (exists i :: 0 <= i < |RowsOf(diff.changed, "hosts")| && a in RowAddresses(RowsOf(diff.changed, "hosts")[i], Changed))
    {
      MinedExactly(RowsOf(diff.removed, "hosts"), Removed, a);
      MinedExactly(RowsOf(diff.changed, "hosts"), Changed, a);
    }
    var own := Addresses(row.own);
    assert own != [] ==> own[0] in AddressSet(Some(row.own));
  }

  // ------------------------------------------------------------- every alert once

  /** Every row of every side, as the diff holds them. */
  function AllFindings(diff: Diff): seq<Finding> {
    AllRows(diff.added, Added) + AllRows(diff.removed, Removed) + AllRows(diff.changed, Changed)
  }

  lemma {:induction false} AlertsFilter(rules: seq<Rule>, fs: seq<Finding>, seen: set<string>, f: Finding)
    ensures multiset(Alerts(rules, fs, seen))[f] == if AlertWorthy(rules, f, seen) then multiset(fs)[f] else 0
  {
    hide AlertWorthy;
    if fs != [] {
      var n := |fs| - 1;
      AlertsFilter(rules, fs[..n], seen, f);
      assert fs == fs[..n] + [fs[n]];
    }
  }

  /** Every alert-worthy row of the diff is listed exactly once, and nothing else is: in the lines of the digest, in
      order, as among the single messages. */
  lemma AlertsListedOnce(diff: Diff, rules: seq<Rule>, texts: Texts)
    requires DistinctKeys(diff.added) && DistinctKeys(diff.removed) && DistinctKeys(diff.changed)
    ensures var seen := PrevIndex(diff);
      var fs := Alerts(rules, Findings(diff), seen);
      && (forall f ::
            multiset(fs)[f] == if AlertWorthy(rules, f, seen) then multiset(AllFindings(diff))[f] else 0)
      && Concat(Bodies(texts.header, Lines(fs))) == Lines(fs)
      && forall i :: 0 <= i < |fs| ==> Instants(fs, texts.tail)[i] == Lines(fs)[i] + texts.tail
  {
    var seen := PrevIndex(diff);
    var fs := Alerts(rules, Findings(diff), seen);
    EveryRowOnce(diff, Added);
    EveryRowOnce(diff, Removed);
    EveryRowOnce(diff, Changed);
    DigestIsExact(texts.header, Lines(fs));
    hide FindingsOn, AllRows, DistinctKeys, PrevIndex, AlertWorthy, Alerts, Bodies, Concat;
    assert multiset(Findings(diff)) == multiset(AllFindings(diff));
    forall f ensures multiset(fs)[f] == if AlertWorthy(rules, f, seen) then multiset(AllFindings(diff))[f] else 0 {
      AlertsFilter(rules, Findings(diff), seen, f);
    }
  }

  // ------------------------------------------------------------- the run-end alert

  datatype Skip = FirstRun | NothingAlertable | NoDiff | Disabled

  datatype Ledger = Ledger(
    alertable: nat, suppressed: nat, digestSent: bool, digestMessages: nat, instantSent: nat, delivered: bool,
    skipped: Option<Skip>)

  datatype Texts = Texts(header: string, tail: string)

  function Lines(fs: seq<Finding>): (r: seq<string>)
    ensures |r| == |fs|
    ensures forall i :: 0 <= i < |fs| ==> r[i] == fs[i].row.text
  {
    seq(|fs|, i requires 0 <= i < |fs| => fs[i].row.text)
  }

  function Instants(fs: seq<Finding>, tail: string): (r: seq<string>)
    ensures |r| == |fs|
    ensures forall i :: 0 <= i < |fs| ==> r[i] == fs[i].row.text + tail
  {
    seq(|fs|, i requires 0 <= i < |fs| => fs[i].row.text + tail)
  }

  /** How many of the first sends went out. */
  function Delivered(sends: nat -> bool, n: nat): nat {
    if n == 0 then 0 else Delivered(sends, n - 1) + if sends(n - 1) then 1 else 0
  }

  method SelectAlerts(rules: seq<Rule>, all: seq<Finding>, seen: set<string>)
    returns (events: seq<Finding>, suppressed: nat)
    ensures events == Alerts(rules, all, seen) && suppressed == |all| - |events|
  {
    hide AlertWorthy;
    events, suppressed := [], 0;
    for i := 0 to |all|
      invariant events == Alerts(rules, all[..i], seen) && suppressed == i - |events|
    {
      assert all[..i + 1][..i] == all[..i];
      if AlertWorthy(rules, all[i], seen) { events := events + [all[i]]; } else { suppressed := suppressed + 1; }
    }
    assert all[..|all|] == all;
  }

  /** `evaluate_diff_alerts`; `sends(i)` says whether the i-th message is delivered. */
  method EvaluateDiffAlerts(
    diff: Diff, rules: seq<Rule>, threshold: int, texts: Texts, sends: nat -> bool)
    returns (ledger: Ledger, sent: seq<string>)
    ensures var fs := Alerts(rules, Findings(diff), PrevIndex(diff));
      && ledger.suppressed == |Findings(diff)| - |fs|
      && ledger.alertable == (if FirstOne(diff) then 0 else |fs|)
      && ledger.skipped == (if FirstOne(diff) then Some(FirstRun)
                            else if fs == [] then Some(if Findings(diff) == [] then NoDiff else NothingAlertable)
                            else if rules == [] then Some(Disabled) else None)
      && sent == (if ledger.skipped.Some? then []
                  else if |fs| >= threshold then Rendered(texts.header, Bodies(texts.header, Lines(fs)))
                  else Instants(fs, texts.tail))
      && ledger.digestSent == (ledger.skipped.None? && |fs| >= threshold)
      && ledger.digestMessages == (if ledger.digestSent then |sent| else 0)
      && ledger.instantSent == (if ledger.digestSent then 0 else Delivered(sends, |sent|))
      && ledger.delivered == (Delivered(sends, |sent|) > 0)
  {
    hide Alerts, Findings, RowsAddresses, RowsOf;
    var removed := MineAddresses(RowsOf(diff.removed, "hosts"), Removed);
    var changed := MineAddresses(RowsOf(diff.changed, "hosts"), Changed);
    var seen := removed + changed;
    var all := Findings(diff);
    var events, suppressed := SelectAlerts(rules, all, seen);
    sent := [];
    ledger := Ledger(|events|, suppressed, false, 0, 0, false, None);
    if FirstOne(diff) { return ledger.(skipped := Some(FirstRun), alertable := 0), []; }
    if |events| == 0 { return ledger.(skipped := Some(if all == [] then NoDiff else NothingAlertable)), []; }
    if rules == [] { return ledger.(skipped := Some(Disabled)), []; }
    if |events| >= threshold {
      sent := ChunkDigest(texts.header, Lines(events));
      var out := false;
      for i := 0 to |sent|
        invariant out == (Delivered(sends, i) > 0)
      {
        if sends(i) { out := true; }
      }
      ledger := ledger.(digestSent := true, digestMessages := |sent|, delivered := out);
    } else {
      sent := Instants(events, texts.tail);
      var n := 0;
      for i := 0 to |sent|
        invariant n == Delivered(sends, i)
      {
        if sends(i) { n := n + 1; }
      }
      ledger := ledger.(instantSent := n, delivered := n > 0);
    }
  }
}
