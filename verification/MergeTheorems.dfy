/** What MERGE promises: order does not matter, nothing is lost, and merging one more document
    later gives what merging it at once would have given. */
module MergeTheorems {
  import opened Basics
  import opened Text
  import opened Merge

  // ------------------------------------------------------------- order of documents

  /** The part of a bucket that does not depend on the order of arrival. */
  datatype Shape = Shape(
    attribution: Attribution, sources: set<string>, ips: set<string>, alive: Option<bool>, tags: set<string>,
    misconfig: bool)

  ghost function ShapeOf(row: Bucket): Shape {
    Shape(row.attribution, row.sources, Elems(row.ips), row.alive, row.tags, row.misconfig)
  }

  ghost function About(ms: seq<Mention>, h: string): set<Mention> {
    set m | m in ms && m.host == h
  }

  /** The shape that a set of rows about one host adds up to. */
  ghost function Summary(s: set<Mention>): Shape {
    Shape(
      if !(exists m :: m in s && m.branch == Active) then Passive
      else if !(exists m :: m in s && m.branch == Passive) then Active
      else Both,
      set m, x | m in s && x in {m.tool} + Elems(m.meta.sources) :: x,
      set m, x | m in s && x in m.meta.ips && x != "" :: x,
      if exists m :: m in s && m.meta.alive == Some(true) then Some(true)
      else if exists m :: m in s && m.meta.alive == Some(false) then Some(false)
      else None,
      set m, x | m in s && x in m.meta.tags :: x,
      exists m :: m in s && m.meta.misconfig)
  }

  lemma {:induction false} AppendNewElems(acc: seq<string>, xs: seq<string>)
    ensures Elems(AppendNew(acc, xs)) == Elems(acc) + (set x | x in xs && x != "")
  {
    if xs != [] {
      var n := |xs| - 1;
      AppendNewElems(acc, xs[..n]);
      assert xs == xs[..n] + [xs[n]];
      var a := AppendNew(acc, xs[..n]);
      assert Elems(a + [xs[n]]) == Elems(a) + {xs[n]};
    }
  }

  lemma SummaryStep(s: set<Mention>, row: Bucket, m: Mention)
    requires if s == {} then row == Fresh(m.branch) else ShapeOf(row) == Summary(s)
    ensures ShapeOf(Absorb(row, m)) == Summary(s + {m})
  {
    hide AppendNew, Stripped;
    AppendNewElems(row.ips, m.meta.ips);
    var a, b := ShapeOf(Absorb(row, m)), Summary(s + {m});
    assert m in s + {m};
    assert a.attribution == b.attribution by {
      if s != {} { var x :| x in s; assert x in s + {m}; }
    }
    SummarySets(s, row, m);
    assert a.alive == b.alive;
    assert a.misconfig == b.misconfig;
  }

  lemma SummarySets(s: set<Mention>, row: Bucket, m: Mention)
    requires if s == {} then row == Fresh(m.branch) else ShapeOf(row) == Summary(s)
    ensures var a, b := ShapeOf(Absorb(row, m)), Summary(s + {m});
      a.sources == b.sources && a.ips == b.ips && a.tags == b.tags
  {
    hide AppendNew, Stripped;
    AppendNewElems(row.ips, m.meta.ips);
    var a, b := ShapeOf(Absorb(row, m)), Summary(s + {m});
    assert m in s + {m};
    assert a.tags == b.tags;
    assert a.ips == b.ips;
    forall x ensures x in a.sources <==> x in b.sources {
      if x in b.sources {
        var n :| n in s + {m} && x in {n.tool} + Elems(n.meta.sources);
      }
      assert x in {m.tool} + Elems(m.meta.sources) ==> x in b.sources;
    }
  }

  ghost predicate Sums(rows: Buckets, about: set<Mention>, h: string) {
    && (h in rows <==> about != {})
    && (h in rows ==> ShapeOf(rows[h]) == Summary(about))
  }

  lemma SumsNext(rows: Buckets, about: set<Mention>, m: Mention)
    requires Sums(rows, about, m.host)
    ensures Sums(Touch(rows, m), about + {m}, m.host)
  {
    SummaryStep(about, RowOf(rows, m), m);
    hide Absorb, ShapeOf, Summary;
    assert m in about + {m};
  }

  /** After any sequence of rows, a bucket's shape is the summary of the set of rows about its host. */
  lemma {:induction false} FoldSummary(ms: seq<Mention>, h: string)
    ensures Sums(Fold(map[], ms), About(ms, h), h)
  {
    hide ShapeOf, Summary, Absorb;
    if ms != [] {
      var n := |ms| - 1;
      var m := ms[n];
      FoldSummary(ms[..n], h);
      assert ms == ms[..n] + [m];
      if m.host == h {
        assert About(ms, h) == About(ms[..n], h) + {m};
        SumsNext(Fold(map[], ms[..n]), About(ms[..n], h), m);
      } else {
        assert About(ms, h) == About(ms[..n], h);
      }
    }
  }

  lemma SplitMember<T>(a: seq<T>, b: seq<T>, x: T)
    ensures x in a + b <==> x in a || x in b
  {
  }

  lemma {:induction false} AllMentionsFrom(docs: seq<Doc>, branch: Branch, m: Mention) returns (d: Doc)
    requires m in AllMentions(docs, branch)
    ensures d in docs && m in Mentions(d, branch)
  {
    var n := |docs| - 1;
    SplitMember(AllMentions(docs[..n], branch), Mentions(docs[n], branch), m);
    if m in Mentions(docs[n], branch) {
      d := docs[n];
    } else {
      d := AllMentionsFrom(docs[..n], branch, m);
    }
  }

  lemma {:induction false} AllMentionsInto(docs: seq<Doc>, branch: Branch, d: Doc, m: Mention)
    requires d in docs && m in Mentions(d, branch)
    ensures m in AllMentions(docs, branch)
  {
    hide Mentions;
    var n := |docs| - 1;
    SplitMember(AllMentions(docs[..n], branch), Mentions(docs[n], branch), m);
    if d != docs[n] {
      assert docs == docs[..n] + [docs[n]];
      AllMentionsInto(docs[..n], branch, d, m);
    }
  }

  lemma MentionsCarryOver(docs1: seq<Doc>, docs2: seq<Doc>, branch: Branch, m: Mention)
    requires forall d :: d in docs1 ==> d in docs2
    ensures m in AllMentions(docs1, branch) ==> m in AllMentions(docs2, branch)
  {
    if m in AllMentions(docs1, branch) {
      var d := AllMentionsFrom(docs1, branch, m);
      AllMentionsInto(docs2, branch, d, m);
    }
  }

  predicate Distinct(s: seq<string>) {
    forall i, j :: 0 <= i < j < |s| ==> s[i] != s[j]
  }

  lemma DistinctSnoc(s: seq<string>, x: string)
    requires Distinct(s) && x !in s
    ensures Distinct(s + [x])
  {
    assert forall i :: 0 <= i < |s| ==> s[i] in s;
  }

  predicate DistinctIps(rows: Buckets) {
    forall h :: h in rows ==> Distinct(rows[h].ips)
  }

  lemma {:induction false} AppendNewDistinct(acc: seq<string>, xs: seq<string>)
    requires Distinct(acc)
    ensures Distinct(AppendNew(acc, xs))
  {
    if xs != [] {
      var n := |xs| - 1;
      AppendNewDistinct(acc, xs[..n]);
      if xs[n] !in AppendNew(acc, xs[..n]) { DistinctSnoc(AppendNew(acc, xs[..n]), xs[n]); }
    }
  }

  lemma {:induction false} FoldDistinct(ms: seq<Mention>)
    ensures DistinctIps(Fold(map[], ms))
  {
    if ms != [] {
      var n := |ms| - 1;
      FoldDistinct(ms[..n]);
      AppendNewDistinct(RowOf(Fold(map[], ms[..n]), ms[n]).ips, ms[n].meta.ips);
    }
  }

  lemma CrowdedByHosts(rows: Buckets, ip: string)
    requires DistinctIps(rows)
    ensures Crowded(rows, ip) <==>
      exists h1, h2 :: h1 != h2 && h1 in rows && h2 in rows && ip in Elems(rows[h1].ips) && ip in Elems(rows[h2].ips)
  {
    if h1, h2 :| h1 != h2 && h1 in rows && h2 in rows && ip in Elems(rows[h1].ips) && ip in Elems(rows[h2].ips) {
      var i1 :| 0 <= i1 < |rows[h1].ips| && rows[h1].ips[i1] == ip;
      var i2 :| 0 <= i2 < |rows[h2].ips| && rows[h2].ips[i2] == ip;
      assert HoldsAt(rows, ip, h1, i1) && HoldsAt(rows, ip, h2, i2);
    }
  }

  /** Two bucket dictionaries that differ only in what depends on order. */
  ghost predicate SameShapes(a: Buckets, b: Buckets) {
    a.Keys == b.Keys && forall h :: h in a ==> ShapeOf(a[h]) == ShapeOf(b[h])
  }

  lemma OnlyCatchAllByElems(xs: seq<string>, wild: set<string>)
    ensures OnlyCatchAll(xs, wild) <==> Elems(xs) != {} && Elems(xs) <= wild
  {
    if xs != [] { assert xs[0] in Elems(xs); }
    if Elems(xs) <= wild {
      forall i | 0 <= i < |xs| ensures xs[i] in wild { assert xs[i] in Elems(xs); }
    }
  }

  lemma ReasonByShape(a: Buckets, b: Buckets, wild: set<string>, h: string)
    requires SameShapes(a, b) && DistinctIps(a) && DistinctIps(b) && h in a
    ensures QuarantineReason(a, wild, a[h].ips) == QuarantineReason(b, wild, b[h].ips)
  {
    OnlyCatchAllByElems(a[h].ips, wild);
    OnlyCatchAllByElems(b[h].ips, wild);
    forall ip ensures Crowded(a, ip) <==> Crowded(b, ip) {
      CrowdedByHosts(a, ip);
      CrowdedByHosts(b, ip);
      assert forall k :: k in a ==> ShapeOf(a[k]).ips == ShapeOf(b[k]).ips;
    }
    CrowdedSomewhere(a, b, a[h].ips, b[h].ips);
    CrowdedSomewhere(b, a, b[h].ips, a[h].ips);
  }

  lemma CrowdedSomewhere(a: Buckets, b: Buckets, xs: seq<string>, ys: seq<string>)
    requires Elems(xs) == Elems(ys)
    requires forall ip :: Crowded(a, ip) <==> Crowded(b, ip)
    ensures (exists i :: 0 <= i < |xs| && Crowded(a, xs[i])) ==> exists i :: 0 <= i < |ys| && Crowded(b, ys[i])
  {
    if i :| 0 <= i < |xs| && Crowded(a, xs[i]) {
      assert xs[i] in Elems(ys);
      var j :| 0 <= j < |ys| && ys[j] == xs[i];
    }
  }

  lemma SameDocsSameShapes(p1: seq<Doc>, a1: seq<Doc>, p2: seq<Doc>, a2: seq<Doc>)
    requires forall d :: d in p1 <==> d in p2
    requires forall d :: d in a1 <==> d in a2
    ensures SameShapes(Merged(p1, a1), Merged(p2, a2))
  {
    var m1 := AllMentions(p1, Passive) + AllMentions(a1, Active);
    var m2 := AllMentions(p2, Passive) + AllMentions(a2, Active);
    hide AllMentions, Mentions, ShapeOf, Summary, Fold;
    forall m ensures m in m1 <==> m in m2 {
      MentionsCarryOver(p1, p2, Passive, m);
      MentionsCarryOver(p2, p1, Passive, m);
      MentionsCarryOver(a1, a2, Active, m);
      MentionsCarryOver(a2, a1, Active, m);
    }
    SameMentionsSameShapes(m1, m2);
  }

  lemma SameMentionsSameShapes(m1: seq<Mention>, m2: seq<Mention>)
    requires forall m :: m in m1 <==> m in m2
    ensures SameShapes(Fold(map[], m1), Fold(map[], m2))
  {
    hide ShapeOf, Summary, Fold;
    forall h
      ensures h in Fold(map[], m1) <==> h in Fold(map[], m2)
      ensures h in Fold(map[], m1) ==> ShapeOf(Fold(map[], m1)[h]) == ShapeOf(Fold(map[], m2)[h])
    {
      FoldSummary(m1, h);
      FoldSummary(m2, h);
      assert About(m1, h) == About(m2, h);
    }
  }

  lemma SameDocsSameCatchAll(docs1: seq<Doc>, docs2: seq<Doc>)
    requires forall d :: d in docs1 <==> d in docs2
    ensures CatchAllIps(docs1) == CatchAllIps(docs2)
  {
    hide ReportsCatchAll;
  }

  lemma KeptByReason(rows: Buckets, wild: set<string>, h: string)
    requires h in rows
    ensures OnlyCatchAll(rows[h].ips, wild) <==> QuarantineReason(rows, wild, rows[h].ips).Some?
  {
  }

  /** Confluence: only which documents each branch produced matters. Permuting or repeating them keeps the host
      set, every order-free field, every quarantine verdict and so which hosts become assets. */
  lemma Confluence(p1: seq<Doc>, a1: seq<Doc>, p2: seq<Doc>, a2: seq<Doc>, gate: Gate)
    requires forall d :: d in p1 <==> d in p2
    requires forall d :: d in a1 <==> d in a2
    ensures SameShapes(Merged(p1, a1), Merged(p2, a2))
    ensures CatchAllIps(p1 + a1) == CatchAllIps(p2 + a2)
    ensures forall h :: h in Merged(p1, a1) ==>
      QuarantineReason(Merged(p1, a1), CatchAllIps(p1 + a1), Merged(p1, a1)[h].ips)
      == QuarantineReason(Merged(p2, a2), CatchAllIps(p2 + a2), Merged(p2, a2)[h].ips)
    ensures KeptHosts(Merged(p1, a1), CatchAllIps(p1 + a1), gate) == KeptHosts(Merged(p2, a2), CatchAllIps(p2 + a2), gate)
  {
    var r1, r2 := Merged(p1, a1), Merged(p2, a2);
    var wild := CatchAllIps(p1 + a1);
    SameDocsSameShapes(p1, a1, p2, a2);
    SameDocsSameCatchAll(p1 + a1, p2 + a2);
    FoldDistinct(AllMentions(p1, Passive) + AllMentions(a1, Active));
    FoldDistinct(AllMentions(p2, Passive) + AllMentions(a2, Active));
    hide Merged, QuarantineReason, OnlyCatchAll, ShapeOf, DistinctIps;
    forall h | h in r1
      ensures QuarantineReason(r1, wild, r1[h].ips) == QuarantineReason(r2, wild, r2[h].ips)
      ensures OnlyCatchAll(r1[h].ips, wild) <==> OnlyCatchAll(r2[h].ips, wild)
    {
      ReasonByShape(r1, r2, wild, h);
      KeptByReason(r1, wild, h);
      KeptByReason(r2, wild, h);
    }
  }

  // ------------------------------------------------------------- repeating a document

  /** Absorbing `m` again can only change the two last-value fields. */
  predicate Saturated(row: Bucket, m: Mention) {
    && Credit(row.attribution, m.branch) == row.attribution
    && {m.tool} + Elems(m.meta.sources) <= row.sources
    && (forall x :: x in m.meta.ips ==> x == "" || x in row.ips)
    && JoinAlive(row.alive, m.meta.alive) == row.alive
    && Elems(m.meta.tags) <= row.tags
    && (m.meta.misconfig ==> row.misconfig)
    && (forall x :: x in Stripped(m.meta.tech) ==> x == "" || x in row.tech)
    && (m.meta.title != "" ==> row.title != "")
  }

  lemma {:induction false} AppendNewKeeps(acc: seq<string>, xs: seq<string>)
    ensures forall x :: x in acc ==> x in AppendNew(acc, xs)
    ensures forall x :: x in xs ==> x == "" || x in AppendNew(acc, xs)
    ensures (forall x :: x in xs ==> x == "" || x in acc) ==> AppendNew(acc, xs) == acc
  {
    if xs != [] {
      var n := |xs| - 1;
      AppendNewKeeps(acc, xs[..n]);
      assert xs == xs[..n] + [xs[n]];
    }
  }

  lemma AbsorbSaturates(row: Bucket, m: Mention)
    ensures Saturated(Absorb(row, m), m)
  {
    AppendNewKeeps(row.ips, m.meta.ips);
    AppendNewKeeps(row.tech, Stripped(m.meta.tech));
  }

  lemma SaturatedStays(row: Bucket, m: Mention, n: Mention)
    requires Saturated(row, m) && m.branch == n.branch
    ensures Saturated(Absorb(row, n), m)
  {
    AppendNewKeeps(row.ips, n.meta.ips);
    AppendNewKeeps(row.tech, Stripped(n.meta.tech));
  }

  lemma AbsorbSaturated(row: Bucket, m: Mention)
    requires Saturated(row, m)
    ensures Absorb(row, m) == row.(httpStatus := Later(row.httpStatus, m.meta.httpStatus),
                                   length := Later(row.length, m.meta.length))
  {
    AppendNewKeeps(row.ips, m.meta.ips);
    AppendNewKeeps(row.tech, Stripped(m.meta.tech));
    assert row.sources + {m.tool} + Elems(m.meta.sources) == row.sources;
    assert row.tags + Elems(m.meta.tags) == row.tags;
  }

  predicate OneBranch(ms: seq<Mention>, branch: Branch) {
    forall i :: 0 <= i < |ms| ==> ms[i].branch == branch
  }

  lemma {:induction false} FoldSaturates(rows: Buckets, ms: seq<Mention>, branch: Branch, i: nat)
    requires OneBranch(ms, branch) && i < |ms|
    ensures ms[i].host in Fold(rows, ms) && Saturated(Fold(rows, ms)[ms[i].host], ms[i])
  {
    var n := |ms| - 1;
    var before := Fold(rows, ms[..n]);
    if i == n {
      AbsorbSaturates(RowOf(before, ms[n]), ms[n]);
    } else {
      FoldSaturates(rows, ms[..n], branch, i);
      SaturatedStays(before[ms[i].host], ms[i], ms[n]);
    }
  }

  /** The last value reported for `h`, else `init`. */
  function LastStatus(ms: seq<Mention>, h: string, init: Option<int>): Option<int> {
    if ms == [] then init
    else
      var m := ms[|ms| - 1];
      if m.host == h && m.meta.httpStatus.Some? then m.meta.httpStatus else LastStatus(ms[..|ms| - 1], h, init)
  }

  function LastLength(ms: seq<Mention>, h: string, init: Option<int>): Option<int> {
    if ms == [] then init
    else
      var m := ms[|ms| - 1];
      if m.host == h && m.meta.length.Some? then m.meta.length else LastLength(ms[..|ms| - 1], h, init)
  }

  lemma {:induction false} LastTwice(ms: seq<Mention>, h: string, a: Option<int>, b: Option<int>)
    ensures LastStatus(ms, h, LastStatus(ms, h, a)) == LastStatus(ms, h, a)
    ensures LastLength(ms, h, LastLength(ms, h, b)) == LastLength(ms, h, b)
  {
    if ms != [] { LastTwice(ms[..|ms| - 1], h, a, b); }
  }

  lemma {:induction false} FoldKeepsHost(rows: Buckets, ms: seq<Mention>, h: string)
    requires h in rows
    ensures h in Fold(rows, ms)
  {
    if ms != [] { FoldKeepsHost(rows, ms[..|ms| - 1], h); }
  }

  lemma {:induction false} FoldLast(rows: Buckets, ms: seq<Mention>, h: string)
    requires h in Fold(rows, ms)
    ensures Fold(rows, ms)[h].httpStatus == LastStatus(ms, h, if h in rows then rows[h].httpStatus else None)
    ensures Fold(rows, ms)[h].length == LastLength(ms, h, if h in rows then rows[h].length else None)
  {
    if ms != [] {
      var n := |ms| - 1;
      if h in Fold(rows, ms[..n]) {
        FoldLast(rows, ms[..n], h);
      } else {
        FoldNew(rows, ms[..n], h);
      }
    }
  }

  lemma {:induction false} FoldNew(rows: Buckets, ms: seq<Mention>, h: string)
    requires h !in Fold(rows, ms)
    ensures h !in rows && LastStatus(ms, h, None) == None && LastLength(ms, h, None) == None
  {
    if ms != [] {
      FoldNew(rows, ms[..|ms| - 1], h);
    }
  }

  predicate SameButLast(a: Buckets, b: Buckets) {
    && a.Keys == b.Keys
    && forall h :: h in a ==> a[h] == b[h].(httpStatus := a[h].httpStatus, length := a[h].length)
  }

  lemma SaturatedAlike(a: Bucket, b: Bucket, m: Mention)
    requires a == b.(httpStatus := a.httpStatus, length := a.length) && Saturated(b, m)
    ensures Saturated(a, m)
  {
  }

  lemma TouchSaturated(now: Buckets, once: Buckets, m: Mention)
    requires SameButLast(now, once) && m.host in once && Saturated(once[m.host], m)
    ensures SameButLast(Touch(now, m), once)
  {
    SaturatedAlike(now[m.host], once[m.host], m);
    AbsorbSaturated(now[m.host], m);
    hide Absorb, Saturated;
  }

  lemma {:induction false} RepeatChangesLast(rows: Buckets, ms: seq<Mention>, branch: Branch, k: nat)
    requires OneBranch(ms, branch) && k <= |ms|
    ensures SameButLast(Fold(Fold(rows, ms), ms[..k]), Fold(rows, ms))
  {
    hide Saturated, Touch;
    if k > 0 {
      RepeatChangesLast(rows, ms, branch, k - 1);
      assert ms[..k][..k - 1] == ms[..k - 1];
      FoldSaturates(rows, ms, branch, k - 1);
      TouchSaturated(Fold(Fold(rows, ms), ms[..k - 1]), Fold(rows, ms), ms[k - 1]);
    }
  }

  /** Ingesting a document twice in a row is ingesting it once, whatever is already there. */
  lemma IngestTwice(rows: Buckets, doc: Doc, branch: Branch)
    ensures Fold(Fold(rows, Mentions(doc, branch)), Mentions(doc, branch)) == Fold(rows, Mentions(doc, branch))
  {
    var ms := Mentions(doc, branch);
    var once := Fold(rows, ms);
    var twice := Fold(once, ms);
    assert OneBranch(ms, branch);
    RepeatChangesLast(rows, ms, branch, |ms|);
    assert ms[..|ms|] == ms;
    hide Fold, Mentions, LastStatus, LastLength;
    forall h | h in twice ensures twice[h] == once[h] {
      FoldLast(rows, ms, h);
      FoldLast(once, ms, h);
      LastTwice(ms, h, if h in rows then rows[h].httpStatus else None, if h in rows then rows[h].length else None);
    }
  }

  // ------------------------------------------------------------- nothing is lost

  lemma AssetHosts(rows: Buckets, wild: set<string>, gate: Gate, h: string)
    ensures (exists a :: a in Flushed(rows, wild, gate).assets && a.host == h) <==> h in KeptHosts(rows, wild, gate)
  {
    hide AssetOf, Kept, Quarantined, HeldRows;
    var kept := SortedSeq(KeptHosts(rows, wild, gate));
    var assets := AssetRows(rows, gate, kept);
    assert forall i :: 0 <= i < |assets| ==> AssetOf(gate, kept[i], rows[kept[i]]).host == kept[i] by {
      AssetHost(gate, rows);
    }
    if h in kept {
      var i :| 0 <= i < |kept| && kept[i] == h;
      assert assets[i] in assets;
    }
    if a :| a in assets && a.host == h {
      var i :| 0 <= i < |assets| && assets[i] == a;
      assert kept[i] in kept;
    }
  }

  lemma AssetHost(gate: Gate, rows: Buckets)
    ensures forall h :: h in rows ==> AssetOf(gate, h, rows[h]).host == h
  {
  }

  lemma HeldHosts(rows: Buckets, wild: set<string>, gate: Gate, h: string)
    ensures (exists q :: q in Flushed(rows, wild, gate).quarantine && q.host == h)
      <==> h in QuarantinedHosts(rows, wild, gate)
  {
    hide AssetOf, AssetRows, Kept, Quarantined, QuarantineReason;
    var held := SortedSeq(QuarantinedHosts(rows, wild, gate));
    assert forall x :: x in held ==> x in rows && OnlyCatchAll(rows[x].ips, wild) by { HeldAreQuarantined(rows, wild, gate); }
    var rowsOut := Flushed(rows, wild, gate).quarantine;
    if h in held {
      var i :| 0 <= i < |held| && held[i] == h;
      assert rowsOut[i] in rowsOut;
    }
    if q :| q in rowsOut && q.host == h {
      var i :| 0 <= i < |rowsOut| && rowsOut[i] == q;
      assert held[i] in held;
    }
  }

  lemma HeldAreQuarantined(rows: Buckets, wild: set<string>, gate: Gate)
    ensures forall x :: x in QuarantinedHosts(rows, wild, gate) ==> x in rows && OnlyCatchAll(rows[x].ips, wild)
  {
  }

  /** Every bucket host is written exactly once: as an asset, as a quarantined host or as a rejection. */
  lemma Partition(rows: Buckets, wild: set<string>, gate: Gate, h: string)
    ensures var p := Flushed(rows, wild, gate);
      var asset := exists a :: a in p.assets && a.host == h;
      var held := exists q :: q in p.quarantine && q.host == h;
      var rejected := h in RejectedHosts(rows, gate);
      && (h in rows <==> asset || held || rejected)
      && !(asset && held) && !(asset && rejected) && !(held && rejected)
  {
    AssetHosts(rows, wild, gate, h);
    HeldHosts(rows, wild, gate, h);
    hide Flushed;
  }

  /** The asset list and the quarantine list ascend strictly by host. */
  lemma Ascending(rows: Buckets, wild: set<string>, gate: Gate)
    ensures var p := Flushed(rows, wild, gate);
      && (forall i, j :: 0 <= i < j < |p.assets| ==> Less(p.assets[i].host, p.assets[j].host))
      && (forall i, j :: 0 <= i < j < |p.quarantine| ==> Less(p.quarantine[i].host, p.quarantine[j].host))
  {
    hide Less, Kept, Quarantined;
    HeldAreQuarantined(rows, wild, gate);
    var kept := SortedSeq(KeptHosts(rows, wild, gate));
    var p := Flushed(rows, wild, gate);
    assert forall i :: 0 <= i < |kept| ==> p.assets[i].host == kept[i];
  }
}
