/** MERGE (pipeline/merge.py): the discovery documents of both branches become one asset list.
    This file holds the data and the stage itself; MergeTheorems.dfy says what it promises. */
module Merge {
  import opened Basics
  import opened Text

  // ------------------------------------------------------------- documents

  datatype Attribution = Passive | Active | Both
  type Branch = b: Attribution | b != Both witness Passive

  /** What one row of a tool document says about a host; "" stands for an absent string. */
  datatype Meta = Meta(
    sources: seq<string>, ips: seq<string>, alive: Option<bool>, tags: seq<string>, misconfig: bool,
    httpStatus: Option<int>, length: Option<int>, tech: seq<string>, title: string)

  datatype Entry = Entry(host: string, fqdn: string, vhost: string, source: string, meta: Meta)

  datatype Suspect = Bare(text: string) | Tagged(ip: string, wildcardIp: string)

  datatype Doc = Doc(
    moduleName: string, candidates: seq<Entry>, hosts: seq<Entry>, resolved: seq<Entry>, vhosts: seq<Entry>,
    wildcardIps: seq<string>, suspects: seq<Suspect>)

  /** `_norm_host`, with "" for None. */
  function NormHost(raw: string): string {
    RTrim(Lower(Strip(raw)), IsDot)
  }

  function Or(a: string, b: string): string {
    if a != "" then a else b
  }

  datatype Slot = Candidate | Host | Resolved | Vhost

  function NameOf(slot: Slot, e: Entry): string {
    NormHost(match slot
             case Candidate => Or(e.host, e.fqdn)
             case Host => Or(e.fqdn, e.host)
             case Resolved => e.host
             case Vhost => e.vhost)
  }

  function Named(slot: Slot, entries: seq<Entry>): seq<(string, Meta)> {
    if entries == [] then []
    else
      var n := |entries| - 1;
      var name := NameOf(slot, entries[n]);
      Named(slot, entries[..n]) + if name != "" then [(name, entries[n].meta)] else []
  }

  function NamedRows(doc: Doc): seq<(string, Meta)> {
    Named(Candidate, doc.candidates) + Named(Host, doc.hosts) + Named(Resolved, doc.resolved) + Named(Vhost, doc.vhosts)
  }

  method CollectNamed(slot: Slot, entries: seq<Entry>) returns (found: seq<(string, Meta)>)
    ensures found == Named(slot, entries)
  {
    hide NameOf;
    found := [];
    for i := 0 to |entries|
      invariant found == Named(slot, entries[..i])
    {
      assert entries[..i + 1][..i] == entries[..i];
      var name := NameOf(slot, entries[i]);
      if name != "" { found := found + [(name, entries[i].meta)]; }
    }
    assert entries[..|entries|] == entries;
  }

  method IterAssets(doc: Doc) returns (found: seq<(string, Meta)>)
    ensures found == NamedRows(doc)
  {
    var a := CollectNamed(Candidate, doc.candidates);
    var b := CollectNamed(Host, doc.hosts);
    var c := CollectNamed(Resolved, doc.resolved);
    var d := CollectNamed(Vhost, doc.vhosts);
    found := a + b + c + d;
  }

  // ------------------------------------------------------------- one bucket

  datatype Bucket = Bucket(
    attribution: Attribution, sources: set<string>, ips: seq<string>, alive: Option<bool>, tags: set<string>,
    misconfig: bool, httpStatus: Option<int>, length: Option<int>, tech: seq<string>, title: string)

  /** One row of one document, as one branch reports it. */
  datatype Mention = Mention(host: string, branch: Branch, tool: string, meta: Meta)

  function Fresh(branch: Branch): Bucket {
    Bucket(branch, {}, [], None, {}, false, None, None, [], "")
  }

  /** Append the nonempty strings of `xs` that are not there yet, in order. */
  function AppendNew(acc: seq<string>, xs: seq<string>): seq<string> {
    if xs == [] then acc
    else
      var n := |xs| - 1;
      var a := AppendNew(acc, xs[..n]);
      if xs[n] == "" || xs[n] in a then a else a + [xs[n]]
  }

  function Stripped(xs: seq<string>): (r: seq<string>)
    ensures |r| == |xs|
    ensures forall i :: 0 <= i < |xs| ==> r[i] == Strip(xs[i])
  {
    seq(|xs|, i requires 0 <= i < |xs| => Strip(xs[i]))
  }

  function Elems(xs: seq<string>): set<string> {
    set x | x in xs
  }

  /** `None` < `Some(false)` < `Some(true)`. */
  function JoinAlive(a: Option<bool>, b: Option<bool>): Option<bool> {
    if b == Some(true) then b else if b == Some(false) && a == None then b else a
  }

  function Later(old_: Option<int>, new_: Option<int>): Option<int> {
    if new_.Some? then new_ else old_
  }

  /** The field updates of one row, after the attribution. */
  function WithMeta(row: Bucket, tool: string, meta: Meta): Bucket {
    Bucket(
      row.attribution,
      row.sources + {tool} + Elems(meta.sources),
      AppendNew(row.ips, meta.ips),
      JoinAlive(row.alive, meta.alive),
      row.tags + Elems(meta.tags),
      row.misconfig || meta.misconfig,
      Later(row.httpStatus, meta.httpStatus),
      Later(row.length, meta.length),
      AppendNew(row.tech, Stripped(meta.tech)),
      if meta.title != "" && row.title == "" then meta.title else row.title)
  }

  function Credit(a: Attribution, branch: Branch): Attribution {
    if a != branch then Both else a
  }

  function Absorb(row: Bucket, m: Mention): Bucket {
    WithMeta(row.(attribution := Credit(row.attribution, m.branch)), m.tool, m.meta)
  }

  type Buckets = map<string, Bucket>

  function RowOf(rows: Buckets, m: Mention): Bucket {
    if m.host in rows then rows[m.host] else Fresh(m.branch)
  }

  function Touch(rows: Buckets, m: Mention): Buckets {
    rows[m.host := Absorb(RowOf(rows, m), m)]
  }

  function Fold(rows: Buckets, ms: seq<Mention>): Buckets {
    if ms == [] then rows else Touch(Fold(rows, ms[..|ms| - 1]), ms[|ms| - 1])
  }

  function BranchName(branch: Branch): string {
    if branch == Passive then "passive" else "active"
  }

  /** The rows of one document, tagged with its branch and tool. */
  function Mentions(doc: Doc, branch: Branch): (ms: seq<Mention>)
    ensures |ms| == |NamedRows(doc)|
  {
    var rows := NamedRows(doc);
    var tool := Or(doc.moduleName, BranchName(branch));
    seq(|rows|, i requires 0 <= i < |rows| => Mention(rows[i].0, branch, tool, rows[i].1))
  }

  function AllMentions(docs: seq<Doc>, branch: Branch): seq<Mention> {
    if docs == [] then []
    else AllMentions(docs[..|docs| - 1], branch) + Mentions(docs[|docs| - 1], branch)
  }

  lemma {:induction false} FoldAppend(rows: Buckets, a: seq<Mention>, b: seq<Mention>)
    ensures Fold(rows, a + b) == Fold(Fold(rows, a), b)
  {
    if b == [] {
      assert a + b == a;
    } else {
      var n := |b| - 1;
      FoldAppend(rows, a, b[..n]);
      assert (a + b)[..|a + b| - 1] == a + b[..n];
    }
  }

  // ------------------------------------------------------------- catch-all addresses

  predicate AllDigits(s: string) {
    s != "" && forall i :: 0 <= i < |s| ==> '0' <= s[i] <= '9'
  }

  function Decimal(s: string): nat
    requires forall i :: 0 <= i < |s| ==> '0' <= s[i] <= '9'
  {
    if s == "" then 0 else 10 * Decimal(s[..|s| - 1]) + (s[|s| - 1] as int - '0' as int)
  }

  predicate LooksIp(value: string) {
    var parts := Split(value, '.');
    if |parts| != 4 then ':' in value
    else forall i :: 0 <= i < 4 ==> AllDigits(parts[i]) && Decimal(parts[i]) <= 255
  }

  ghost predicate Reported(listed: seq<string>, suspects: seq<Suspect>, resolved: seq<Entry>, ip: string) {
    && LooksIp(ip)
    && (|| ip in listed
        || Bare(ip) in suspects
        || (exists s :: s in suspects && s.Tagged? && (s.ip == ip || s.wildcardIp == ip))
        || (exists e :: e in resolved && e.source == "wildcard" && ip in e.meta.ips))
  }

  /** The document names `ip` as a catch-all address. */
  ghost predicate ReportsCatchAll(doc: Doc, ip: string) {
    Reported(doc.wildcardIps, doc.suspects, doc.resolved, ip)
  }

  /** Every address some document names as a catch-all. */
  ghost function CatchAllIps(docs: seq<Doc>): (r: set<string>)
    ensures forall ip :: ip in r <==> exists d :: d in docs && ReportsCatchAll(d, ip)
  {
    var r := set d, ip | d in docs && ip in NamedIps(d) && ReportsCatchAll(d, ip) :: ip;
    assert forall ip :: (exists d :: d in docs && ReportsCatchAll(d, ip)) ==> ip in r by {
      forall ip, d | d in docs && ReportsCatchAll(d, ip) ensures ip in r { assert ip in NamedIps(d); }
    }
    r
  }

  ghost function NamedIps(doc: Doc): set<string> {
    Elems(doc.wildcardIps)
    + (set s | s in doc.suspects && s.Bare? :: s.text)
    + (set s | s in doc.suspects && s.Tagged? :: s.ip)
    + (set s | s in doc.suspects && s.Tagged? :: s.wildcardIp)
    + (set e, ip | e in doc.resolved && ip in e.meta.ips :: ip)
  }

  method KeepIps(acc: set<string>, items: seq<string>) returns (r: set<string>)
    ensures r == acc + set x | x in items && LooksIp(x)
  {
    r := acc;
    for i := 0 to |items|
      invariant r == acc + set x | x in items[..i] && LooksIp(x)
    {
      if LooksIp(items[i]) { r := r + {items[i]}; }
    }
  }

  method WildcardIps(docs: seq<Doc>) returns (ips: set<string>)
    ensures ips == CatchAllIps(docs)
  {
    hide LooksIp;
    ips := {};
    for i := 0 to |docs|
      invariant forall ip :: ip in ips <==> exists d :: d in docs[..i] && ReportsCatchAll(d, ip)
    {
      hide ReportsCatchAll;
      ips := DocCatchAll(ips, docs[i]);
      assert docs[..i + 1] == docs[..i] + [docs[i]];
    }
    assert docs[..|docs|] == docs;
  }

  method DocCatchAll(acc: set<string>, doc: Doc) returns (ips: set<string>)
    ensures forall ip :: ip in ips <==> (ip in acc || ReportsCatchAll(doc, ip))
  {
    hide LooksIp;
    ips := KeepIps(acc, doc.wildcardIps);
    for j := 0 to |doc.suspects|
      invariant forall ip :: ip in ips <==> (ip in acc || Reported(doc.wildcardIps, doc.suspects[..j], [], ip))
    {
      var s := doc.suspects[j];
      ips := KeepIps(ips, match s case Bare(text) => [text] case Tagged(a, b) => [a, b]);
    }
    assert doc.suspects[..|doc.suspects|] == doc.suspects;
    for j := 0 to |doc.resolved|
      invariant forall ip :: ip in ips <==>
        (ip in acc || Reported(doc.wildcardIps, doc.suspects, doc.resolved[..j], ip))
    {
      var e := doc.resolved[j];
      if e.source == "wildcard" { ips := KeepIps(ips, e.meta.ips); }
    }
    assert doc.resolved[..|doc.resolved|] == doc.resolved;
  }

  // ------------------------------------------------------------- verdicts

  datatype Verdict = Verdict(ok: bool, reason: string)

  /** The scope gate's `validate_candidate`. */
  type Gate = string -> Verdict

  datatype Reason = Wildcard | CatchAll

  datatype Asset = Asset(
    host: string, ips: seq<string>, alive: Option<bool>, attribution: Attribution, sources: seq<string>,
    tags: seq<string>, misconfig: bool, httpStatus: Option<int>, length: Option<int>, tech: seq<string>,
    title: string)

  datatype Held = Held(host: string, ips: seq<string>, reason: Reason)

  datatype Rejection = Rejection(name: string, reason: string)

  datatype Payload = Payload(assets: seq<Asset>, quarantine: seq<Held>)

  predicate KeepIp(gate: Gate, ip: string) {
    var v := gate(ip);
    v.ok || v.reason == "no IP includes" || v.reason == "IP not in included CIDRs"
  }

  function InScopeIps(gate: Gate, ips: seq<string>): seq<string> {
    if ips == [] then []
    else
      var n := |ips| - 1;
      InScopeIps(gate, ips[..n]) + if KeepIp(gate, ips[n]) then [ips[n]] else []
  }

  function RejectedIps(gate: Gate, ips: seq<string>): seq<Rejection> {
    if ips == [] then []
    else
      var n := |ips| - 1;
      RejectedIps(gate, ips[..n]) + if KeepIp(gate, ips[n]) then [] else [Rejection(ips[n], gate(ips[n]).reason)]
  }

  /** Two places in the rows hold `ip`. */
  ghost predicate Crowded(rows: Buckets, ip: string) {
    exists h1, i1, h2, i2 :: HoldsAt(rows, ip, h1, i1) && HoldsAt(rows, ip, h2, i2) && (h1, i1) != (h2, i2)
  }

  ghost predicate HoldsAt(rows: Buckets, ip: string, h: string, i: int) {
    h in rows && 0 <= i < |rows[h].ips| && rows[h].ips[i] == ip
  }

  /** Every address of the row is a catch-all address, and there is one. */
  predicate OnlyCatchAll(ips: seq<string>, wild: set<string>) {
    ips != [] && forall i :: 0 <= i < |ips| ==> ips[i] in wild
  }

  ghost function QuarantineReason(rows: Buckets, wild: set<string>, ips: seq<string>): Option<Reason> {
    if !OnlyCatchAll(ips, wild) then None
    else if exists i :: 0 <= i < |ips| && Crowded(rows, ips[i]) then Some(CatchAll)
    else Some(Wildcard)
  }

  ghost predicate Kept(rows: Buckets, wild: set<string>, gate: Gate, h: string) {
    h in rows && gate(h).ok && !OnlyCatchAll(rows[h].ips, wild)
  }

  ghost predicate Quarantined(rows: Buckets, wild: set<string>, gate: Gate, h: string) {
    h in rows && gate(h).ok && OnlyCatchAll(rows[h].ips, wild)
  }

  ghost function AssetOf(gate: Gate, h: string, row: Bucket): Asset {
    var ips := InScopeIps(gate, row.ips);
    Asset(h, ips, if ips != [] then Some(true) else row.alive, row.attribution, SortedSeq(row.sources),
          SortedSeq(row.tags), row.misconfig, row.httpStatus, row.length, row.tech, row.title)
  }

  ghost function AssetRows(rows: Buckets, gate: Gate, hosts: seq<string>): (r: seq<Asset>)
    requires forall h :: h in hosts ==> h in rows
    ensures |r| == |hosts|
    ensures forall i :: 0 <= i < |r| ==> r[i] == AssetOf(gate, hosts[i], rows[hosts[i]])
  {
    seq(|hosts|, i requires 0 <= i < |hosts| => AssetOf(gate, hosts[i], rows[hosts[i]]))
  }

  ghost function HeldRows(rows: Buckets, wild: set<string>, hosts: seq<string>): (r: seq<Held>)
    requires forall h :: h in hosts ==> h in rows && OnlyCatchAll(rows[h].ips, wild)
    ensures |r| == |hosts|
    ensures forall i :: 0 <= i < |r| ==> r[i].host == hosts[i] && r[i].ips == rows[hosts[i]].ips
  {
    seq(|hosts|, i requires 0 <= i < |hosts| =>
      Held(hosts[i], rows[hosts[i]].ips, QuarantineReason(rows, wild, rows[hosts[i]].ips).value))
  }

  ghost function KeptHosts(rows: Buckets, wild: set<string>, gate: Gate): set<string> {
    set h | h in rows && Kept(rows, wild, gate, h)
  }

  ghost function QuarantinedHosts(rows: Buckets, wild: set<string>, gate: Gate): set<string> {
    set h | h in rows && Quarantined(rows, wild, gate, h)
  }

  ghost function RejectedHosts(rows: Buckets, gate: Gate): set<string> {
    set h | h in rows && !gate(h).ok
  }

  /** What a flush writes: one ascending row per kept host, one per quarantined host. */
  ghost function Flushed(rows: Buckets, wild: set<string>, gate: Gate): Payload {
    Payload(AssetRows(rows, gate, SortedSeq(KeptHosts(rows, wild, gate))),
            HeldRows(rows, wild, SortedSeq(QuarantinedHosts(rows, wild, gate))))
  }

  /** The asset rows of `hosts`, visited in order. */
  ghost function AssetWalk(rows: Buckets, wild: set<string>, gate: Gate, hosts: seq<string>): seq<Asset>
    requires forall h :: h in hosts ==> h in rows
  {
    if hosts == [] then []
    else
      var n := |hosts| - 1;
      var h := hosts[n];
      AssetWalk(rows, wild, gate, hosts[..n])
      + if Kept(rows, wild, gate, h) then [AssetOf(gate, h, rows[h])] else []
  }

  ghost function HeldWalk(rows: Buckets, wild: set<string>, gate: Gate, hosts: seq<string>): seq<Held>
    requires forall h :: h in hosts ==> h in rows
  {
    if hosts == [] then []
    else
      var n := |hosts| - 1;
      var h := hosts[n];
      HeldWalk(rows, wild, gate, hosts[..n])
      + if Quarantined(rows, wild, gate, h)
        then [Held(h, rows[h].ips, QuarantineReason(rows, wild, rows[h].ips).value)]
        else []
  }

  /** The members of `hosts` that lie in `wanted`, in order. */
  function Select(hosts: seq<string>, wanted: set<string>): (r: seq<string>)
    ensures forall h :: h in r <==> h in hosts && h in wanted
  {
    if hosts == [] then []
    else
      var n := |hosts| - 1;
      Select(hosts[..n], wanted) + if hosts[n] in wanted then [hosts[n]] else []
  }

  lemma {:induction false} SelectSorted(hosts: seq<string>, wanted: set<string>)
    requires StrictlySorted(hosts)
    ensures StrictlySorted(Select(hosts, wanted))
  {
    if hosts != [] {
      var n := |hosts| - 1;
      SelectSorted(hosts[..n], wanted);
      var sub := Select(hosts[..n], wanted);
      forall j | 0 <= j < |sub| ensures Less(sub[j], hosts[n]) {
        assert sub[j] in sub;
        var k :| 0 <= k < n && hosts[k] == sub[j];
      }
    }
  }

  lemma {:induction false} AssetWalkSelects(rows: Buckets, wild: set<string>, gate: Gate, hosts: seq<string>)
    requires forall h :: h in hosts ==> h in rows
    ensures AssetWalk(rows, wild, gate, hosts) == AssetRows(rows, gate, Select(hosts, KeptHosts(rows, wild, gate)))
  {
    if hosts != [] {
      AssetWalkSelects(rows, wild, gate, hosts[..|hosts| - 1]);
    }
  }

  lemma {:induction false} HeldWalkSelects(rows: Buckets, wild: set<string>, gate: Gate, hosts: seq<string>)
    requires forall h :: h in hosts ==> h in rows
    ensures HeldWalk(rows, wild, gate, hosts) == HeldRows(rows, wild, Select(hosts, QuarantinedHosts(rows, wild, gate)))
  {
    if hosts != [] {
      HeldWalkSelects(rows, wild, gate, hosts[..|hosts| - 1]);
    }
  }

  lemma WalkIsFlush(rows: Buckets, wild: set<string>, gate: Gate)
    ensures Flushed(rows, wild, gate)
         == Payload(AssetWalk(rows, wild, gate, SortedSeq(rows.Keys)), HeldWalk(rows, wild, gate, SortedSeq(rows.Keys)))
  {
    var hosts := SortedSeq(rows.Keys);
    var kept, held := KeptHosts(rows, wild, gate), QuarantinedHosts(rows, wild, gate);
    AssetWalkSelects(rows, wild, gate, hosts);
    HeldWalkSelects(rows, wild, gate, hosts);
    SelectSorted(hosts, kept);
    SelectSorted(hosts, held);
    SortedUnique(Select(hosts, kept), SortedSeq(kept));
    SortedUnique(Select(hosts, held), SortedSeq(held));
  }

  /** What a flush writes to the out-of-scope log, for `hosts` in order. */
  ghost function LogOf(rows: Buckets, wild: set<string>, gate: Gate, hosts: seq<string>): seq<Rejection>
    requires forall h :: h in hosts ==> h in rows
  {
    if hosts == [] then []
    else
      var n := |hosts| - 1;
      var h := hosts[n];
      LogOf(rows, wild, gate, hosts[..n])
      + if !gate(h).ok then [Rejection(h, gate(h).reason)]
        else if Kept(rows, wild, gate, h) then RejectedIps(gate, rows[h].ips)
        else []
  }

  ghost function FlushLog(rows: Buckets, wild: set<string>, gate: Gate): seq<Rejection> {
    LogOf(rows, wild, gate, SortedSeq(rows.Keys))
  }

  // ------------------------------------------------------------- seeding from a written asset list

  function SeedBucket(a: Asset): Bucket {
    Bucket(a.attribution, Elems(a.sources), NonEmpty(a.ips), a.alive, Elems(a.tags), a.misconfig, a.httpStatus, a.length,
           NonEmpty(a.tech), a.title)
  }

  function NonEmpty(xs: seq<string>): seq<string> {
    if xs == [] then []
    else
      var n := |xs| - 1;
      NonEmpty(xs[..n]) + if xs[n] != "" then [xs[n]] else []
  }

  function Seeded(rows: Buckets, assets: seq<Asset>): Buckets {
    if assets == [] then rows
    else
      var n := |assets| - 1;
      var host := NormHost(assets[n].host);
      var before := Seeded(rows, assets[..n]);
      if host == "" then before else before[host := SeedBucket(assets[n])]
  }

  lemma TwoMembers<T>(s: set<T>)
    ensures |s| > 1 <==> exists x, y :: x in s && y in s && x != y
  {
    if s != {} {
      var x :| x in s;
      assert |s - {x}| == |s| - 1;
      if |s| > 1 {
        var y :| y in s - {x};
      }
    }
  }

  // ------------------------------------------------------------- the stage

  /** The bucket dictionary of one merge. */
  class Stage {
    var rows: Buckets

    constructor ()
      ensures rows == map[]
    {
      rows := map[];
    }

    method Ingest(doc: Doc, branch: Branch)
      modifies this
      ensures rows == Fold(old(rows), Mentions(doc, branch))
    {
      var tool := if doc.moduleName != "" then doc.moduleName else BranchName(branch);
      var named := IterAssets(doc);
      ghost var ms := Mentions(doc, branch);
      hide NamedRows, Touch;
      for i := 0 to |named|
        invariant rows == Fold(old(rows), ms[..i])
      {
        IngestRow(named[i].0, branch, tool, named[i].1);
        assert ms[..i + 1][..i] == ms[..i];
      }
      assert ms[..|ms|] == ms;
    }

    method IngestRow(host: string, branch: Branch, tool: string, meta: Meta)
      modifies this
      ensures rows == Touch(old(rows), Mention(host, branch, tool, meta))
    {
      var row := Fresh(branch);
      if host in rows {
        row := rows[host];
        if row.attribution != branch { row := row.(attribution := Both); }
      }
      row := AbsorbFields(row, tool, meta);
      rows := rows[host := row];
    }

    /** The field updates of `_ingest`, after the attribution. */
    static method AbsorbFields(row: Bucket, tool: string, meta: Meta) returns (r: Bucket)
      ensures r == WithMeta(row, tool, meta)
    {
      var sources := row.sources + {tool};
      for i := 0 to |meta.sources|
        invariant sources == row.sources + {tool} + Elems(meta.sources[..i])
      {
        sources := sources + {meta.sources[i]};
      }
      var ips := row.ips;
      for i := 0 to |meta.ips|
        invariant ips == AppendNew(row.ips, meta.ips[..i])
      {
        assert meta.ips[..i + 1][..i] == meta.ips[..i];
        if meta.ips[i] != "" && meta.ips[i] !in ips { ips := ips + [meta.ips[i]]; }
      }
      assert meta.ips[..|meta.ips|] == meta.ips && meta.sources[..|meta.sources|] == meta.sources;
      var alive := row.alive;
      if meta.alive == Some(true) {
        alive := Some(true);
      } else if meta.alive == Some(false) && alive == None {
        alive := Some(false);
      }
      var tags := row.tags;
      for i := 0 to |meta.tags|
        invariant tags == row.tags + Elems(meta.tags[..i])
      {
        tags := tags + {meta.tags[i]};
      }
      ghost var stripped := Stripped(meta.tech);
      var tech := row.tech;
      for i := 0 to |meta.tech|
        invariant tech == AppendNew(row.tech, stripped[..i])
      {
        assert stripped[..i + 1][..i] == stripped[..i];
        var text := Strip(meta.tech[i]);
        if text != "" && text !in tech { tech := tech + [text]; }
      }
      assert stripped[..|stripped|] == stripped && meta.tags[..|meta.tags|] == meta.tags;
      r := row.(sources := sources, ips := ips, alive := alive, tags := tags, tech := tech);
      if meta.misconfig { r := r.(misconfig := true); }
      if meta.httpStatus.Some? { r := r.(httpStatus := meta.httpStatus); }
      if meta.length.Some? { r := r.(length := meta.length); }
      if meta.title != "" && r.title == "" { r := r.(title := meta.title); }
    }

    method SeedFromAssets(existing: Payload)
      modifies this
      ensures rows == Seeded(old(rows), existing.assets)
    {
      var assets := existing.assets;
      for i := 0 to |assets|
        invariant rows == Seeded(old(rows), assets[..i])
      {
        assert assets[..i + 1][..i] == assets[..i];
        var host := NormHost(assets[i].host);
        if host != "" { rows := rows[host := SeedBucket(assets[i])]; }
      }
      assert assets[..|assets|] == assets;
    }

    /** For each address, the hosts that list it; only how many there are matters. */
    method HostsByIp() returns (places: map<string, seq<string>>)
      ensures forall ip :: ip in places && |places[ip]| > 1 <==> Crowded(rows, ip)
    {
      places := map[];
      ghost var at: map<string, set<(string, int)>> := map[];
      var left := rows.Keys;
      while left != {}
        invariant left <= rows.Keys
        invariant Tallied(places, at)
        invariant forall ip, h, i :: ip in at && (h, i) in at[ip] ==> HoldsAt(rows, ip, h, i) && h !in left
        invariant forall ip, h, i :: HoldsAt(rows, ip, h, i) && h !in left ==> ip in at && (h, i) in at[ip]
      {
        var host :| host in left;
        var ips := rows[host].ips;
        for k := 0 to |ips|
          invariant Tallied(places, at)
          invariant forall ip, h, i :: ip in at && (h, i) in at[ip] ==>
            HoldsAt(rows, ip, h, i) && (h !in left || (h == host && i < k))
          invariant forall ip, h, i :: HoldsAt(rows, ip, h, i) && (h !in left || (h == host && i < k)) ==>
            ip in at && (h, i) in at[ip]
        {
          var ip := ips[k];
          places := places[ip := (if ip in places then places[ip] else []) + [host]];
          at := at[ip := (if ip in at then at[ip] else {}) + {(host, k)}];
        }
        left := left - {host};
      }
      forall ip ensures ip in places && |places[ip]| > 1 <==> Crowded(rows, ip) {
        if ip in at {
          TwoMembers(at[ip]);
          if |at[ip]| > 1 {
            var a, b :| a in at[ip] && b in at[ip] && a != b;
            assert HoldsAt(rows, ip, a.0, a.1) && HoldsAt(rows, ip, b.0, b.1);
          }
          if Crowded(rows, ip) {
            var h1, i1, h2, i2 :| HoldsAt(rows, ip, h1, i1) && HoldsAt(rows, ip, h2, i2) && (h1, i1) != (h2, i2);
            assert (h1, i1) in at[ip] && (h2, i2) in at[ip];
          }
        }
      }
    }

    static ghost predicate Tallied(places: map<string, seq<string>>, at: map<string, set<(string, int)>>) {
      places.Keys == at.Keys && forall ip :: ip in places ==> |places[ip]| == |at[ip]|
    }

    /** `_quarantine_reason`. */
    static method JudgeIps(ips: seq<string>, wild: set<string>, places: map<string, seq<string>>, ghost all: Buckets)
      returns (reason: Option<Reason>)
      requires forall ip :: ip in places && |places[ip]| > 1 <==> Crowded(all, ip)
      ensures reason == QuarantineReason(all, wild, ips) && (reason.Some? <==> OnlyCatchAll(ips, wild))
    {
      if ips == [] || wild == {} {
        assert ips != [] ==> ips[0] !in wild;
        return None;
      }
      for i := 0 to |ips|
        invariant forall k :: 0 <= k < i ==> ips[k] in wild
      {
        if ips[i] !in wild { return None; }
      }
      for i := 0 to |ips|
        invariant forall k :: 0 <= k < i ==> !Crowded(all, ips[k])
      {
        if ips[i] in places && |places[ips[i]]| > 1 { return Some(CatchAll); }
      }
      return Some(Wildcard);
    }

    static method SplitIps(gate: Gate, ips: seq<string>) returns (kept: seq<string>, log: seq<Rejection>)
      ensures kept == InScopeIps(gate, ips) && log == RejectedIps(gate, ips)
    {
      kept, log := [], [];
      for i := 0 to |ips|
        invariant kept == InScopeIps(gate, ips[..i]) && log == RejectedIps(gate, ips[..i])
      {
        assert ips[..i + 1][..i] == ips[..i];
        var v := gate(ips[i]);
        if v.ok {
          kept := kept + [ips[i]];
        } else if v.reason == "no IP includes" || v.reason == "IP not in included CIDRs" {
          kept := kept + [ips[i]];
        } else {
          log := log + [Rejection(ips[i], v.reason)];
        }
      }
      assert ips[..|ips|] == ips;
    }

    static method BuildAsset(gate: Gate, host: string, row: Bucket) returns (asset: Asset, rejected: seq<Rejection>)
      ensures asset == AssetOf(gate, host, row) && rejected == RejectedIps(gate, row.ips)
    {
      var ips;
      ips, rejected := SplitIps(gate, row.ips);
      var sources := SortStrings(row.sources);
      var tags := SortStrings(row.tags);
      asset := Asset(host, ips, if ips != [] then Some(true) else row.alive, row.attribution, sources, tags,
                     row.misconfig, row.httpStatus, row.length, row.tech, row.title);
    }

    /** `_flush_merged`: the written payload and the out-of-scope log. */
    method Flush(gate: Gate, wild: set<string>) returns (payload: Payload, log: seq<Rejection>)
      ensures payload == Flushed(rows, wild, gate)
      ensures log == FlushLog(rows, wild, gate)
    {
      hide AssetOf, QuarantineReason, Crowded, RejectedIps, OnlyCatchAll;
      var places := HostsByIp();
      var hosts := SortStrings(rows.Keys);
      var assets: seq<Asset> := [];
      var quarantine: seq<Held> := [];
      log := [];
      for i := 0 to |hosts|
        invariant log == LogOf(rows, wild, gate, hosts[..i])
        invariant assets == AssetWalk(rows, wild, gate, hosts[..i])
        invariant quarantine == HeldWalk(rows, wild, gate, hosts[..i])
      {
        var host := hosts[i];
        assert hosts[..i + 1][..i] == hosts[..i];
        assert host in hosts;
        var row := rows[host];
        var v := gate(host);
        if !v.ok {
          log := log + [Rejection(host, v.reason)];
        } else {
          var reason := JudgeIps(row.ips, wild, places, rows);
          if reason.Some? {
            quarantine := quarantine + [Held(host, row.ips, reason.value)];
          } else {
            var asset, rejected := BuildAsset(gate, host, row);
            log := log + rejected;
            assets := assets + [asset];
          }
        }
      }
      assert hosts[..|hosts|] == hosts;
      WalkIsFlush(rows, wild, gate);
      payload := Payload(assets, quarantine);
    }
  }

  lemma AllMentionsNext(rows: Buckets, before: seq<Mention>, docs: seq<Doc>, i: nat, branch: Branch)
    requires i < |docs|
    ensures Fold(rows, before + AllMentions(docs[..i + 1], branch))
         == Fold(Fold(rows, before + AllMentions(docs[..i], branch)), Mentions(docs[i], branch))
    ensures [] + AllMentions(docs[..i], branch) == AllMentions(docs[..i], branch)
    ensures [] + AllMentions(docs[..i + 1], branch) == AllMentions(docs[..i + 1], branch)
  {
    hide Mentions, Fold;
    assert docs[..i + 1][..i] == docs[..i];
    var a := AllMentions(docs[..i], branch);
    assert before + (a + Mentions(docs[i], branch)) == (before + a) + Mentions(docs[i], branch);
    FoldAppend(rows, before + a, Mentions(docs[i], branch));
  }

  method MergeBranches(gate: Gate, passive: seq<Doc>, active: seq<Doc>)
    returns (payload: Payload, log: seq<Rejection>)
    ensures payload == Flushed(Merged(passive, active), CatchAllIps(passive + active), gate)
    ensures log == FlushLog(Merged(passive, active), CatchAllIps(passive + active), gate)
  {
    var wild := WildcardIps(passive + active);
    var stage := new Stage();
    for i := 0 to |passive|
      invariant stage.rows == Fold(map[], AllMentions(passive[..i], Passive))
    {
      stage.Ingest(passive[i], Passive);
      AllMentionsNext(map[], [], passive, i, Passive);
    }
    assert passive[..|passive|] == passive;
    ghost var p := AllMentions(passive, Passive);
    assert p + [] == p;
    for i := 0 to |active|
      invariant stage.rows == Fold(map[], p + AllMentions(active[..i], Active))
    {
      stage.Ingest(active[i], Active);
      AllMentionsNext(map[], p, active, i, Active);
    }
    assert active[..|active|] == active;
    payload, log := stage.Flush(gate, wild);
  }

  /** The buckets of a whole merge. */
  function Merged(passive: seq<Doc>, active: seq<Doc>): Buckets {
    Fold(map[], AllMentions(passive, Passive) + AllMentions(active, Active))
  }

  /** The buckets of a re-merge of `existing` with one more ACTIVE document. */
  function Remerged(existing: Payload, doc: Doc): Buckets {
    Fold(Seeded(map[], existing.assets), Mentions(doc, Active))
  }

  method AppendActiveDoc(gate: Gate, existing: Option<Payload>, doc: Doc)
    returns (payload: Payload, log: seq<Rejection>)
    ensures var rows := Remerged(if existing.Some? then existing.value else Payload([], []), doc);
      payload == Flushed(rows, CatchAllIps([doc]), gate) && log == FlushLog(rows, CatchAllIps([doc]), gate)
  {
    var stage := new Stage();
    if existing.Some? { stage.SeedFromAssets(existing.value); }
    var wild := WildcardIps([doc]);
    stage.Ingest(doc, Active);
    payload, log := stage.Flush(gate, wild);
  }
}
