/** Appending one more ACTIVE document to a written asset list against merging it with the rest. */
module MergeIncremental {
  import opened Basics
  import opened Text
  import opened Merge
  import opened MergeTheorems

  // ------------------------------------------------------------- a seeded row stands for the row it came from

  lemma {:induction false} InScopeMember(gate: Gate, ips: seq<string>, x: string)
    ensures x in InScopeIps(gate, ips) <==> x in ips && KeepIp(gate, x)
  {
    if ips != [] {
      var n := |ips| - 1;
      InScopeMember(gate, ips[..n], x);
      assert ips == ips[..n] + [ips[n]];
    }
  }

  lemma InScopeSnoc(gate: Gate, ips: seq<string>, x: string)
    ensures InScopeIps(gate, ips + [x]) == InScopeIps(gate, ips) + if KeepIp(gate, x) then [x] else []
  {
    assert (ips + [x])[..|ips|] == ips;
  }

  lemma AppendNewSnoc(acc: seq<string>, xs: seq<string>, x: string)
    ensures AppendNew(acc, xs + [x])
         == AppendNew(acc, xs) + if x == "" || x in AppendNew(acc, xs) then [] else [x]
  {
    assert (xs + [x])[..|xs|] == xs;
  }

  /** Filtering commutes with appending what is new. */
  lemma {:induction false} InScopeAppend(gate: Gate, acc: seq<string>, xs: seq<string>)
    ensures InScopeIps(gate, AppendNew(acc, xs)) == AppendNew(InScopeIps(gate, acc), InScopeIps(gate, xs))
  {
    if xs != [] {
      var n := |xs| - 1;
      InScopeAppend(gate, acc, xs[..n]);
      var a := AppendNew(acc, xs[..n]);
      InScopeMember(gate, a, xs[n]);
      InScopeSnoc(gate, a, xs[n]);
      var f := InScopeIps(gate, xs[..n]);
      AppendNewSnoc(InScopeIps(gate, acc), f, xs[n]);
      assert f + [] == f && InScopeIps(gate, a) + [] == InScopeIps(gate, a);
    }
  }

  lemma {:induction false} InScopeTwice(gate: Gate, ips: seq<string>)
    ensures InScopeIps(gate, InScopeIps(gate, ips)) == InScopeIps(gate, ips)
  {
    if ips != [] {
      var n := |ips| - 1;
      InScopeTwice(gate, ips[..n]);
      var f := InScopeIps(gate, ips[..n]);
      InScopeSnoc(gate, f, ips[n]);
      assert f + [] == f;
    }
  }

  /** Written by the gate, `s` and `b` give the same asset and will go on doing so. */
  ghost predicate StandsFor(gate: Gate, s: Bucket, b: Bucket) {
    && s == b.(ips := s.ips, alive := s.alive)
    && InScopeIps(gate, s.ips) == InScopeIps(gate, b.ips)
    && (InScopeIps(gate, b.ips) == [] ==> s.alive == b.alive)
  }

  lemma StandsForAbsorb(gate: Gate, s: Bucket, b: Bucket, m: Mention)
    requires StandsFor(gate, s, b)
    ensures StandsFor(gate, Absorb(s, m), Absorb(b, m))
  {
    InScopeAppend(gate, s.ips, m.meta.ips);
    InScopeAppend(gate, b.ips, m.meta.ips);
    var f := InScopeIps(gate, b.ips);
    AppendNewKeeps(f, InScopeIps(gate, m.meta.ips));
    if f != [] { assert f[0] in AppendNew(f, InScopeIps(gate, m.meta.ips)); }
  }

  /** `s` covers what `b` has on the hosts the gate admits. */
  ghost predicate Covers(gate: Gate, s: Buckets, b: Buckets) {
    forall h :: gate(h).ok ==> (h in s <==> h in b) && (h in s ==> StandsFor(gate, s[h], b[h]))
  }

  lemma {:induction false} CoversFold(gate: Gate, s: Buckets, b: Buckets, ms: seq<Mention>)
    requires Covers(gate, s, b)
    ensures Covers(gate, Fold(s, ms), Fold(b, ms))
  {
    if ms != [] {
      var n := |ms| - 1;
      var m := ms[n];
      CoversFold(gate, s, b, ms[..n]);
      if gate(m.host).ok {
        StandsForAbsorb(gate, RowOf(Fold(s, ms[..n]), m), RowOf(Fold(b, ms[..n]), m), m);
      }
    }
  }

  lemma CoversFlush(gate: Gate, s: Buckets, b: Buckets)
    requires Covers(gate, s, b)
    ensures Flushed(s, {}, gate) == Flushed(b, {}, gate)
  {
    NothingQuarantined(s, gate);
    NothingQuarantined(b, gate);
    assert KeptHosts(s, {}, gate) == KeptHosts(b, {}, gate);
    var hosts := SortedSeq(KeptHosts(s, {}, gate));
    forall i | 0 <= i < |hosts|
      ensures hosts[i] in s && hosts[i] in b
      ensures AssetOf(gate, hosts[i], s[hosts[i]]) == AssetOf(gate, hosts[i], b[hosts[i]])
    {
      assert hosts[i] in hosts;
      assert hosts[i] in KeptHosts(b, {}, gate);
    }
    assert AssetRows(s, gate, hosts) == AssetRows(b, gate, hosts);
  }

  lemma NothingQuarantined(rows: Buckets, gate: Gate)
    ensures QuarantinedHosts(rows, {}, gate) == {}
    ensures KeptHosts(rows, {}, gate) == set h | h in rows && gate(h).ok
  {
    forall h | h in rows ensures !OnlyCatchAll(rows[h].ips, {}) {
      var none: set<string> := {};
      assert rows[h].ips != [] ==> rows[h].ips[0] !in none;
    }
  }

  // ------------------------------------------------------------- seeding what was flushed

  predicate CleanStrings(xs: seq<string>) {
    forall i :: 0 <= i < |xs| ==> xs[i] != ""
  }

  lemma {:induction false} AppendNewClean(acc: seq<string>, xs: seq<string>)
    requires CleanStrings(acc)
    ensures CleanStrings(AppendNew(acc, xs))
  {
    if xs != [] { AppendNewClean(acc, xs[..|xs| - 1]); }
  }

  lemma {:induction false} NonEmptyIdle(xs: seq<string>)
    requires CleanStrings(xs)
    ensures NonEmpty(xs) == xs
  {
    if xs != [] {
      NonEmptyIdle(xs[..|xs| - 1]);
      assert xs == xs[..|xs| - 1] + [xs[|xs| - 1]];
    }
  }

  predicate CleanRows(rows: Buckets) {
    forall h :: h in rows ==> CleanStrings(rows[h].ips) && CleanStrings(rows[h].tech)
  }

  lemma {:induction false} FoldClean(rows: Buckets, ms: seq<Mention>)
    requires CleanRows(rows)
    ensures CleanRows(Fold(rows, ms))
  {
    if ms != [] {
      var n := |ms| - 1;
      FoldClean(rows, ms[..n]);
      var row := RowOf(Fold(rows, ms[..n]), ms[n]);
      AppendNewClean(row.ips, ms[n].meta.ips);
      AppendNewClean(row.tech, Stripped(ms[n].meta.tech));
    }
  }

  lemma {:induction false} InScopeClean(gate: Gate, ips: seq<string>)
    requires CleanStrings(ips)
    ensures CleanStrings(InScopeIps(gate, ips))
  {
    if ips != [] { InScopeClean(gate, ips[..|ips| - 1]); }
  }

  lemma SortedElems(s: set<string>)
    ensures Elems(SortedSeq(s)) == s
  {
  }

  lemma SeedStandsFor(gate: Gate, h: string, row: Bucket)
    requires CleanStrings(row.ips) && CleanStrings(row.tech)
    ensures StandsFor(gate, SeedBucket(AssetOf(gate, h, row)), row)
  {
    InScopeClean(gate, row.ips);
    NonEmptyIdle(InScopeIps(gate, row.ips));
    NonEmptyIdle(row.tech);
    InScopeTwice(gate, row.ips);
    SortedElems(row.sources);
    SortedElems(row.tags);
  }

  /** The host name survives a second normalisation. */
  predicate Normal(h: string) {
    h != "" && NormHost(h) == h
  }

  lemma SeededNext(hosts: seq<string>, assets: seq<Asset>)
    requires assets != [] && |hosts| == |assets|
    requires hosts[|hosts| - 1] != "" && NormHost(assets[|assets| - 1].host) == hosts[|hosts| - 1]
    ensures Seeded(map[], assets)
         == Seeded(map[], assets[..|assets| - 1])[hosts[|hosts| - 1] := SeedBucket(assets[|assets| - 1])]
  {
    hide NormHost, SeedBucket;
  }

  /** The buckets are exactly those of the assets, each under its host. */
  ghost predicate SeedsAll(rows: Buckets, hosts: seq<string>, assets: seq<Asset>) {
    && |hosts| == |assets|
    && (forall h :: h in rows <==> h in hosts)
    && forall i :: 0 <= i < |hosts| ==> hosts[i] in rows && rows[hosts[i]] == SeedBucket(assets[i])
  }

  lemma SeedsAllSnoc(rows: Buckets, hosts: seq<string>, assets: seq<Asset>, h: string, a: Asset)
    requires SeedsAll(rows, hosts, assets) && h !in hosts
    ensures SeedsAll(rows[h := SeedBucket(a)], hosts + [h], assets + [a])
  {
    hide SeedBucket;
  }

  lemma LastSplit<T>(s: seq<T>)
    requires s != []
    ensures s == s[..|s| - 1] + [s[|s| - 1]]
  {
  }

  lemma DistinctSplit(hosts: seq<string>)
    requires hosts != [] && Distinct(hosts)
    ensures Distinct(hosts[..|hosts| - 1]) && hosts[|hosts| - 1] !in hosts[..|hosts| - 1]
  {
  }

  ghost predicate NamesOf(hosts: seq<string>, assets: seq<Asset>) {
    |hosts| == |assets| && forall i :: 0 <= i < |hosts| ==> hosts[i] != "" && NormHost(assets[i].host) == hosts[i]
  }

  lemma {:induction false} SeededExactly(hosts: seq<string>, assets: seq<Asset>)
    requires Distinct(hosts) && NamesOf(hosts, assets)
    ensures SeedsAll(Seeded(map[], assets), hosts, assets)
  {
    hide NormHost;
    if hosts == [] {
    } else {
      var n := |hosts| - 1;
      DistinctSplit(hosts);
      SeededNext(hosts, assets);
      LastSplit(hosts);
      LastSplit(assets);
      assert NamesOf(hosts[..n], assets[..n]);
      hide *;
      SeededExactly(hosts[..n], assets[..n]);
      SeedsAllSnoc(Seeded(map[], assets[..n]), hosts[..n], assets[..n], hosts[n], assets[n]);
    }
  }

  ghost predicate KeptNormal(rows: Buckets, gate: Gate) {
    forall h :: h in rows && gate(h).ok ==> Normal(h)
  }

  lemma SeedCovers(gate: Gate, rows: Buckets)
    requires CleanRows(rows) && KeptNormal(rows, gate)
    ensures Covers(gate, Seeded(map[], Flushed(rows, {}, gate).assets), rows)
  {
    NothingQuarantined(rows, gate);
    var hosts := SortedSeq(KeptHosts(rows, {}, gate));
    var assets := AssetRows(rows, gate, hosts);
    forall i | 0 <= i < |hosts| ensures Normal(hosts[i]) && hosts[i] in rows {
      assert hosts[i] in hosts;
    }
    SortedDistinct(hosts);
    SeededExactly(hosts, assets);
    forall i | 0 <= i < |hosts| ensures StandsFor(gate, SeedBucket(assets[i]), rows[hosts[i]]) {
      SeedStandsFor(gate, hosts[i], rows[hosts[i]]);
    }
  }

  lemma SortedDistinct(s: seq<string>)
    requires StrictlySorted(s)
    ensures Distinct(s)
  {
    forall i, j | 0 <= i < j < |s| ensures s[i] != s[j] { LessIrreflexive(s[i]); }
  }

  // ------------------------------------------------------------- names that do not survive

  lemma NormShorter(h: string)
    ensures |NormHost(h)| <= |h|
    ensures |NormHost(h)| == |h| && Lower(h) == h ==> NormHost(h) == h
  {
    TrimShape(h, IsSpace);
    RTrimShape(Lower(Strip(h)), IsDot);
  }

  lemma LowerFixed(s: string)
    ensures Lower(Lower(s)) == Lower(s)
  {
  }

  /** Every bucket key is a normalised name. */
  predicate NamedRowsNormalised(rows: Buckets) {
    forall h :: h in rows ==> h != "" && Lower(h) == h
  }

  lemma NormHostLower(raw: string)
    ensures Lower(NormHost(raw)) == NormHost(raw)
  {
    RTrimShape(Lower(Strip(raw)), IsDot);
    LowerFixed(Strip(raw));
  }

  lemma {:induction false} NamedLower(slot: Slot, entries: seq<Entry>)
    ensures forall i :: 0 <= i < |Named(slot, entries)| ==>
      Named(slot, entries)[i].0 != "" && Lower(Named(slot, entries)[i].0) == Named(slot, entries)[i].0
  {
    if entries != [] {
      var n := |entries| - 1;
      NamedLower(slot, entries[..n]);
      var e := entries[n];
      NormHostLower(match slot case Candidate => Or(e.host, e.fqdn) case Host => Or(e.fqdn, e.host)
                               case Resolved => e.host case Vhost => e.vhost);
    }
  }

  predicate LowerMentions(ms: seq<Mention>) {
    forall i :: 0 <= i < |ms| ==> ms[i].host != "" && Lower(ms[i].host) == ms[i].host
  }

  lemma MentionsLower(doc: Doc, branch: Branch)
    ensures LowerMentions(Mentions(doc, branch))
  {
    NamedLower(Candidate, doc.candidates);
    NamedLower(Host, doc.hosts);
    NamedLower(Resolved, doc.resolved);
    NamedLower(Vhost, doc.vhosts);
  }

  lemma {:induction false} AllMentionsLower(docs: seq<Doc>, branch: Branch)
    ensures LowerMentions(AllMentions(docs, branch))
  {
    if docs != [] {
      AllMentionsLower(docs[..|docs| - 1], branch);
      MentionsLower(docs[|docs| - 1], branch);
    }
  }

  lemma {:induction false} FoldLower(rows: Buckets, ms: seq<Mention>)
    requires NamedRowsNormalised(rows) && LowerMentions(ms)
    ensures NamedRowsNormalised(Fold(rows, ms))
  {
    if ms != [] { FoldLower(rows, ms[..|ms| - 1]); }
  }

  lemma MergedShape(passive: seq<Doc>, active: seq<Doc>)
    ensures NamedRowsNormalised(Merged(passive, active)) && CleanRows(Merged(passive, active))
  {
    AllMentionsLower(passive, Passive);
    AllMentionsLower(active, Active);
    FoldLower(map[], AllMentions(passive, Passive) + AllMentions(active, Active));
    FoldClean(map[], AllMentions(passive, Passive) + AllMentions(active, Active));
  }

  lemma {:induction false} SeededHosts(assets: seq<Asset>, h: string)
    requires h in Seeded(map[], assets)
    ensures exists i :: 0 <= i < |assets| && NormHost(assets[i].host) == h
  {
    var n := |assets| - 1;
    if NormHost(assets[n].host) != h {
      SeededHosts(assets[..n], h);
      var i :| 0 <= i < |assets[..n]| && NormHost(assets[..n][i].host) == h;
      assert NormHost(assets[i].host) == h;
    }
  }

  /** A longest member outside the normal names. */
  lemma {:induction false} LongestOdd(s: set<string>) returns (h: string)
    requires exists x :: x in s && !Normal(x)
    ensures h in s && !Normal(h) && forall x :: x in s && !Normal(x) ==> |x| <= |h|
  {
    h :| h in s && !Normal(h);
    if x :| x in s - {h} && !Normal(x) {
      var k := LongestOdd(s - {h});
      if |k| > |h| { h := k; }
    }
  }

  lemma SeededFrom(kept: set<string>, assets: seq<Asset>, h: string) returns (g: string)
    requires forall a :: a in assets ==> a.host in kept
    requires h in Seeded(map[], assets)
    ensures g in kept && NormHost(g) == h
  {
    SeededHosts(assets, h);
    hide NormHost, Seeded;
    var i :| 0 <= i < |assets| && NormHost(assets[i].host) == h;
    assert assets[i] in assets;
    g := assets[i].host;
  }

  lemma AssetsAreKept(gate: Gate, rows: Buckets)
    ensures forall a :: a in Flushed(rows, {}, gate).assets ==> a.host in KeptHosts(rows, {}, gate)
  {
    hide Flushed, Kept;
    forall a | a in Flushed(rows, {}, gate).assets ensures a.host in KeptHosts(rows, {}, gate) {
      AssetHosts(rows, {}, gate, a.host);
    }
  }

  /** A kept host whose name is not normal is missing, under that name, from the re-merged list. */
  lemma OddHostLost(gate: Gate, rows: Buckets)
    requires NamedRowsNormalised(rows) && !KeptNormal(rows, gate)
    ensures exists h :: h in KeptHosts(rows, {}, gate) && h !in Seeded(map[], Flushed(rows, {}, gate).assets)
  {
    NothingQuarantined(rows, gate);
    AssetsAreKept(gate, rows);
    var kept := KeptHosts(rows, {}, gate);
    var assets := Flushed(rows, {}, gate).assets;
    assert exists x :: x in kept && !Normal(x);
    assert forall x :: x in kept ==> x != "" && Lower(x) == x;
    hide NormHost, Seeded, Flushed, KeptHosts, Lower;
    var h := LongestOdd(kept);
    if h in Seeded(map[], assets) {
      var g := SeededFrom(kept, assets, h);
      NormalisedFrom(kept, g, h);
    }
  }

  lemma NormalisedFrom(kept: set<string>, g: string, h: string)
    requires g in kept && g != "" && Lower(g) == g && NormHost(g) == h
    requires forall x :: x in kept && !Normal(x) ==> |x| <= |h|
    ensures Normal(h)
  {
    NormShorter(g);
  }

  // ------------------------------------------------------------- the theorem

  /** No document names a catch-all address. */
  ghost predicate NoCatchAll(docs: seq<Doc>) {
    CatchAllIps(docs) == {}
  }

  /** What appending `doc` to the result of a merge writes. */
  ghost function Incremental(gate: Gate, passive: seq<Doc>, active: seq<Doc>, doc: Doc): Payload {
    Flushed(Remerged(Flushed(Merged(passive, active), CatchAllIps(passive + active), gate), doc), CatchAllIps([doc]), gate)
  }

  /** What merging `doc` together with the others writes. */
  ghost function Batch(gate: Gate, passive: seq<Doc>, active: seq<Doc>, doc: Doc): Payload {
    Flushed(Merged(passive, active + [doc]), CatchAllIps(passive + (active + [doc])), gate)
  }

  lemma FewerCatchAlls(docs: seq<Doc>, more: seq<Doc>)
    requires NoCatchAll(more) && forall d :: d in docs ==> d in more
    ensures NoCatchAll(docs)
  {
    hide ReportsCatchAll;
    assert forall ip :: ip !in CatchAllIps(more);
  }

  lemma BatchRows(gate: Gate, passive: seq<Doc>, active: seq<Doc>, doc: Doc)
    requires NoCatchAll(passive + (active + [doc]))
    ensures CatchAllIps(passive + active) == {} && CatchAllIps([doc]) == {}
    ensures Merged(passive, active + [doc]) == Fold(Merged(passive, active), Mentions(doc, Active))
  {
    hide Mentions, Fold, AllMentions, CatchAllIps;
    FewerCatchAlls(passive + active, passive + (active + [doc]));
    FewerCatchAlls([doc], passive + (active + [doc]));
    AllMentionsNext(map[], AllMentions(passive, Passive), active + [doc], |active|, Active);
    assert (active + [doc])[..|active| + 1] == active + [doc];
    assert (active + [doc])[..|active|] == active;
  }

  lemma IncrementalWhenNormal(gate: Gate, passive: seq<Doc>, active: seq<Doc>, doc: Doc)
    requires NoCatchAll(passive + (active + [doc]))
    requires KeptNormal(Merged(passive, active), gate)
    ensures Incremental(gate, passive, active, doc) == Batch(gate, passive, active, doc)
  {
    var rows := Merged(passive, active);
    BatchRows(gate, passive, active, doc);
    MergedShape(passive, active);
    SeedCovers(gate, rows);
    var seeds := Seeded(map[], Flushed(rows, {}, gate).assets);
    CoversFold(gate, seeds, rows, Mentions(doc, Active));
    CoversFlush(gate, Fold(seeds, Mentions(doc, Active)), Fold(rows, Mentions(doc, Active)));
  }

  const EMPTY_DOC := Doc("", [], [], [], [], [], [])

  lemma EmptyDocMentionsNothing()
    ensures Mentions(EMPTY_DOC, Active) == []
    ensures forall ip :: !ReportsCatchAll(EMPTY_DOC, ip)
  {
  }

  /** With an admitted name that is not normal, even an empty later document makes the difference. */
  lemma EmptyDocDiffers(gate: Gate, passive: seq<Doc>, active: seq<Doc>)
    requires NoCatchAll(passive + active) && !KeptNormal(Merged(passive, active), gate)
    ensures NoCatchAll(passive + (active + [EMPTY_DOC]))
    ensures Incremental(gate, passive, active, EMPTY_DOC) != Batch(gate, passive, active, EMPTY_DOC)
  {
    var rows := Merged(passive, active);
    EmptyDocMentionsNothing();
    assert NoCatchAll(passive + (active + [EMPTY_DOC])) by {
      assert forall d :: d in passive + (active + [EMPTY_DOC]) ==> d in passive + active || d == EMPTY_DOC;
      assert forall ip :: ip !in CatchAllIps(passive + active);
    }
    BatchRows(gate, passive, active, EMPTY_DOC);
    MergedShape(passive, active);
    OddHostLost(gate, rows);
    var h :| h in KeptHosts(rows, {}, gate) && h !in Seeded(map[], Flushed(rows, {}, gate).assets);
    MissingAsset(gate, Seeded(map[], Flushed(rows, {}, gate).assets), rows, h);
  }

  /** Without catch-all reports, appending any later document to a written asset list gives exactly what merging it
      at once gives, if and only if every admitted host name is already in normal form. */
  lemma IncrementalIffNormal(gate: Gate, passive: seq<Doc>, active: seq<Doc>)
    requires NoCatchAll(passive + active)
    ensures KeptNormal(Merged(passive, active), gate) <==>
      forall doc :: NoCatchAll(passive + (active + [doc])) ==>
        Incremental(gate, passive, active, doc) == Batch(gate, passive, active, doc)
  {
    hide NoCatchAll, KeptNormal, Incremental, Batch;
    if KeptNormal(Merged(passive, active), gate) {
      forall doc | NoCatchAll(passive + (active + [doc]))
        ensures Incremental(gate, passive, active, doc) == Batch(gate, passive, active, doc)
      {
        IncrementalWhenNormal(gate, passive, active, doc);
      }
    } else {
      EmptyDocDiffers(gate, passive, active);
    }
  }

  lemma MissingAsset(gate: Gate, s: Buckets, rows: Buckets, h: string)
    requires h !in s && h in KeptHosts(rows, {}, gate)
    ensures Flushed(s, {}, gate) != Flushed(rows, {}, gate)
  {
    hide Flushed;
    AssetHosts(s, {}, gate, h);
    AssetHosts(rows, {}, gate, h);
  }

  /** A name that loses its normal form: one trailing space hides behind the dot. */
  lemma OddName()
    ensures NormHost("a.b .") == "a.b " && NormHost("a.b ") == "a.b" && !Normal("a.b ")
  {
    assert LTrim("a.b .", IsSpace) == "a.b ." && RTrim("a.b .", IsSpace) == "a.b .";
    assert Lower("a.b .") == "a.b .";
    assert "a.b ."[..4] == "a.b ";
    assert RTrim("a.b .", IsDot) == RTrim("a.b ", IsDot) == "a.b ";
    assert LTrim("a.b ", IsSpace) == "a.b ";
    assert "a.b "[..3] == "a.b";
    assert RTrim("a.b ", IsSpace) == RTrim("a.b", IsSpace) == "a.b";
    assert Lower("a.b") == "a.b";
    assert RTrim("a.b", IsDot) == "a.b";
  }

  /** A gate that admits every name. */
  function AdmitAll(name: string): Verdict {
    Verdict(true, "")
  }

  const ODD_DOC := Doc("recon", [Entry("a.b .", "", "", "", Meta([], [], None, [], false, None, None, [], ""))],
                       [], [], [], [], [])

  lemma OddMention()
    ensures |Mentions(ODD_DOC, Passive)| == 1 && Mentions(ODD_DOC, Passive)[0].host == "a.b "
    ensures OneBranch(Mentions(ODD_DOC, Passive), Passive)
    ensures Merged([ODD_DOC], []) == Fold(map[], Mentions(ODD_DOC, Passive))
  {
    OddName();
    var e := ODD_DOC.candidates[0];
    assert NameOf(Candidate, e) == "a.b ";
    assert ODD_DOC.candidates[..0] == [];
    assert Named(Candidate, ODD_DOC.candidates) == [] + [("a.b ", e.meta)];
    hide NameOf;
    assert NamedRows(ODD_DOC) == [("a.b ", e.meta)];
    var ms := Mentions(ODD_DOC, Passive);
    assert [ODD_DOC][..0] == [];
    assert AllMentions([ODD_DOC], Passive) == [] + ms && AllMentions([], Active) == [];
    assert [] + ms + [] == ms;
  }

  /** One document that names the host "a.b ." under a gate that admits it: appending an empty document to the written
      list does not give what merging both gives. */
  lemma OddMerge()
    ensures Incremental(AdmitAll, [ODD_DOC], [], EMPTY_DOC) != Batch(AdmitAll, [ODD_DOC], [], EMPTY_DOC)
  {
    OddMention();
    OddName();
    assert NoCatchAll([ODD_DOC] + []) by { OddCatchesNothing(); }
    hide Mentions, Normal, NormHost, Saturated, OneBranch, NoCatchAll, Merged, Fold, Incremental, Batch;
    FoldSaturates(map[], Mentions(ODD_DOC, Passive), Passive, 0);
    assert "a.b " in Merged([ODD_DOC], []) && AdmitAll("a.b ").ok;
    EmptyDocDiffers(AdmitAll, [ODD_DOC], []);
  }

  lemma OddCatchesNothing()
    ensures NoCatchAll([ODD_DOC] + [])
  {
    forall ip ensures !ReportsCatchAll(ODD_DOC, ip) {
    }
  }

  /** The rows that a flush keeps. */
  ghost function KeptRows(rows: Buckets, wild: set<string>, gate: Gate): Buckets {
    map h | h in KeptHosts(rows, wild, gate) :: rows[h]
  }

  lemma KeptRowsFlushed(gate: Gate, rows: Buckets, wild: set<string>)
    ensures Flushed(KeptRows(rows, wild, gate), {}, gate) == Payload(Flushed(rows, wild, gate).assets, [])
  {
    var kept := KeptRows(rows, wild, gate);
    NothingQuarantined(kept, gate);
    assert KeptHosts(kept, {}, gate) == KeptHosts(rows, wild, gate);
    var hosts := SortedSeq(KeptHosts(rows, wild, gate));
    assert forall i :: 0 <= i < |hosts| ==> hosts[i] in KeptHosts(rows, wild, gate);
    hide OnlyCatchAll, InScopeIps, SortedSeq;
    assert AssetRows(kept, gate, hosts) == AssetRows(rows, gate, hosts);
    assert SortedSeq({}) == [] by { NoneSorted(); }
  }

  lemma NoneSorted()
    ensures SortedSeq({}) == []
  {
  }

  /** Re-flushing what a flush wrote gives the same assets, whatever addresses were catch-alls then, when every kept host
      name is in normal form; what was held back stays out. */
  lemma ReflushIdentity(gate: Gate, rows: Buckets, wild: set<string>)
    requires CleanRows(rows) && forall h :: h in KeptHosts(rows, wild, gate) ==> Normal(h)
    ensures Flushed(Seeded(map[], Flushed(rows, wild, gate).assets), {}, gate)
         == Payload(Flushed(rows, wild, gate).assets, [])
  {
    var kept := KeptRows(rows, wild, gate);
    KeptRowsFlushed(gate, rows, wild);
    hide Flushed, Normal, CleanStrings, Kept, Seeded;
    SeedCovers(gate, kept);
    CoversFlush(gate, Seeded(map[], Flushed(kept, {}, gate).assets), kept);
  }
}
