/** Two snapshots of a target and the diff between them (pipeline/history.py). */
module Diff {
  import opened Basics

  // ------------------------------------------------------------- rows and their keys

  datatype Row =
    | Host(host: string, facts: string)
    | Vhost(base: string, vhost: string, ip: string, port: string, scheme: string, facts: string)
    | Port(owner: Option<string>, ip: string, port: string, proto: string, facts: string)
    | Service(at: Option<string>, on: Option<string>, proto: string, facts: string)
    | PassiveIp(ip: string, facts: string)

  function Shown(field: Option<string>): string {
    if field.Some? then field.value else ""
  }

  /** The key a row is indexed under; a port row of a host scan names its host, one of an address scan does not. */
  function KeyOf(r: Row): string {
    match r
    case Host(host, _) => host
    case Vhost(base, vhost, ip, port, scheme, _) => base + "|" + vhost + "|" + ip + "|" + port + "|" + scheme
    case Port(owner, ip, port, proto, _) =>
      (if owner.Some? then owner.value + "|" else "") + ip + "|" + port + "|" + proto
    case Service(at, on, proto, _) => Shown(at) + "|" + Shown(on) + "|" + proto
    case PassiveIp(ip, _) => ip
  }

  // ------------------------------------------------------------- ordered maps

  /** A dict in insertion order. */
  type Entries = seq<(string, Row)>

  function Locate(es: Entries, k: string): (i: nat)
    ensures i <= |es| && (forall j :: 0 <= j < i ==> es[j].0 != k) && (i < |es| ==> es[i].0 == k)
  {
    if es == [] || es[0].0 == k then 0
    else
      var i := Locate(es[1..], k);
      assert forall j :: 1 <= j < |es| ==> es[j] == es[1..][j - 1];
      1 + i
  }

  predicate Has(es: Entries, k: string) {
    Locate(es, k) < |es|
  }

  function Get(es: Entries, k: string): Row
    requires Has(es, k)
  {
    es[Locate(es, k)].1
  }

  /** Assigning a key keeps its place, or adds it at the end. */
  function Put(es: Entries, k: string, r: Row): Entries {
    var i := Locate(es, k);
    if i < |es| then es[i := (k, r)] else es + [(k, r)]
  }

  ghost predicate Distinct(es: Entries) {
    forall i, j :: 0 <= i < j < |es| ==> es[i].0 != es[j].0
  }

  /** Every row stands under its own key. */
  ghost predicate Keyed(es: Entries) {
    Distinct(es) && forall i :: 0 <= i < |es| ==> es[i].0 == KeyOf(es[i].1)
  }

  ghost predicate SameMap(a: Entries, b: Entries) {
    && (forall k :: Has(a, k) <==> Has(b, k))
    && (forall k :: Has(a, k) ==> Get(a, k) == Get(b, k))
  }

  lemma PutKeyed(es: Entries, r: Row)
    requires Keyed(es)
    ensures Keyed(Put(es, KeyOf(r), r))
  {
    hide KeyOf;
  }

  lemma Member(es: Entries, i: nat)
    requires Distinct(es) && i < |es|
    ensures Locate(es, es[i].0) == i
  {
  }

  // ------------------------------------------------------------- a snapshot's index

  datatype PortItem = PortItem(port: Option<string>, proto: string, facts: string)

  /** The parts of one data.json that are indexed; None or an empty string stands for a missing field. */
  datatype Doc = Doc(
    vhosts: seq<Row>, results: seq<(string, string, seq<PortItem>)>, scans: seq<(string, seq<PortItem>)>,
    services: seq<Row>, passive: seq<Row>)

  datatype Index = Index(hosts: Entries, vhosts: Entries, ports: Entries, services: Entries, passive: Entries)

  ghost predicate KeyedIndex(x: Index) {
    Keyed(x.hosts) && Keyed(x.vhosts) && Keyed(x.ports) && Keyed(x.services) && Keyed(x.passive)
  }

  predicate Kept(r: Row) {
    match r
    case Host(host, _) => host != ""
    case Vhost(_, vhost, _, _, _, _) => vhost != ""
    case PassiveIp(ip, _) => ip != ""
    case Service(at, on, _, _) => at.Some? && on.Some?
    case Port(_, _, _, _, _) => true
  }

  /** What the entries hold under a key. */
  function Found(es: Entries, k: string): Option<Row> {
    if Has(es, k) then Some(Get(es, k)) else None
  }

  /** The entries after these rows, each put under its own key. */
  function Indexed(es: Entries, rows: seq<Row>): Entries {
    if rows == [] then es
    else
      var r, before := rows[|rows| - 1], Indexed(es, rows[..|rows| - 1]);
      if Kept(r) then Put(before, KeyOf(r), r) else before
  }

  /** The last of these rows that is kept under a key. */
  function Last(rows: seq<Row>, k: string): Option<Row> {
    if rows == [] then None
    else
      var r := rows[|rows| - 1];
      if Kept(r) && KeyOf(r) == k then Some(r) else Last(rows[..|rows| - 1], k)
  }

  method IndexRows(es: Entries, rows: seq<Row>) returns (out: Entries)
    ensures out == Indexed(es, rows)
  {
    hide KeyOf, Kept;
    out := es;
    for i := 0 to |rows|
      invariant out == Indexed(es, rows[..i])
    {
      assert rows[..i + 1][..i] == rows[..i];
      if Kept(rows[i]) { out := Put(out, KeyOf(rows[i]), rows[i]); }
    }
    assert rows[..|rows|] == rows;
  }

  lemma {:induction false} IndexedOn(es: Entries, a: seq<Row>, b: seq<Row>)
    ensures Indexed(es, a + b) == Indexed(Indexed(es, a), b)
  {
    hide KeyOf, Kept, Put;
    if b == [] {
      assert a + b == a;
    } else {
      var n := |b| - 1;
      IndexedOn(es, a, b[..n]);
      assert (a + b)[..|a + b| - 1] == a + b[..n];
    }
  }

  /** An index holds exactly the last kept row of every key, each under the key its own fields make. */
  lemma {:induction false} IndexedExactly(rows: seq<Row>, k: string)
    ensures Keyed(Indexed([], rows)) && Found(Indexed([], rows), k) == Last(rows, k)
  {
    if rows != [] {
      var r, before := rows[|rows| - 1], Indexed([], rows[..|rows| - 1]);
      IndexedExactly(rows[..|rows| - 1], k);
      PutKeyed(before, r);
      PutHas(before, KeyOf(r), r);
      hide KeyOf, Kept, Put, Keyed, Has, Get;
    }
  }

  lemma LocateIs(es: Entries, k: string, i: nat)
    requires i <= |es| && (forall j :: 0 <= j < i ==> es[j].0 != k) && (i < |es| ==> es[i].0 == k)
    ensures Locate(es, k) == i
  {
  }

  lemma PutOther(es: Entries, k: string, r: Row, x: string)
    requires x != k
    ensures Has(Put(es, k, r), x) <==> Has(es, x)
    ensures Has(es, x) ==> Get(Put(es, k, r), x) == Get(es, x)
  {
    var out, i := Put(es, k, r), Locate(es, x);
    assert forall j :: 0 <= j < |es| ==> out[j].0 == es[j].0;
    assert forall j :: |es| <= j < |out| ==> out[j].0 == k;
    if i < |es| { LocateIs(out, x, i); } else { LocateIs(out, x, |out|); }
  }

  lemma PutHas(es: Entries, k: string, r: Row)
    ensures Has(Put(es, k, r), k) && Get(Put(es, k, r), k) == r
    ensures forall x :: x != k ==> (Has(Put(es, k, r), x) <==> Has(es, x)) && (Has(es, x) ==> Get(Put(es, k, r), x) == Get(es, x))
  {
    LocateIs(Put(es, k, r), k, Locate(es, k));
    hide Put;
    forall x | x != k
      ensures Has(Put(es, k, r), x) <==> Has(es, x)
      ensures Has(es, x) ==> Get(Put(es, k, r), x) == Get(es, x)
    {
      PutOther(es, k, r, x);
    }
  }

  function PortRows(owner: Option<string>, ip: string, items: seq<PortItem>): seq<Row> {
    if items == [] then []
    else
      var item := items[|items| - 1];
      PortRows(owner, ip, items[..|items| - 1])
      + if item.port.Some? then [Port(owner, ip, item.port.value, item.proto, item.facts)] else []
  }

  function Vhosts(docs: seq<Doc>): seq<Row> {
    if docs == [] then [] else Vhosts(docs[..|docs| - 1]) + docs[|docs| - 1].vhosts
  }

  function Services(docs: seq<Doc>): seq<Row> {
    if docs == [] then [] else Services(docs[..|docs| - 1]) + docs[|docs| - 1].services
  }

  function Passives(docs: seq<Doc>): seq<Row> {
    if docs == [] then [] else Passives(docs[..|docs| - 1]) + docs[|docs| - 1].passive
  }

  function ResultPorts(results: seq<(string, string, seq<PortItem>)>): seq<Row> {
    if results == [] then []
    else
      var (host, ip, items) := results[|results| - 1];
      ResultPorts(results[..|results| - 1]) + PortRows(Some(host), ip, items)
  }

  function ScanPorts(scans: seq<(string, seq<PortItem>)>): seq<Row> {
    if scans == [] then []
    else
      var (ip, items) := scans[|scans| - 1];
      ScanPorts(scans[..|scans| - 1]) + PortRows(None, ip, items)
  }

  function Ports(docs: seq<Doc>): seq<Row> {
    if docs == [] then []
    else
      var d := docs[|docs| - 1];
      Ports(docs[..|docs| - 1]) + (ResultPorts(d.results) + ScanPorts(d.scans))
  }

  function IndexOf(assets: seq<Row>, docs: seq<Doc>): Index {
    Index(Indexed([], assets), Indexed([], Vhosts(docs)), Indexed([], Ports(docs)), Indexed([], Services(docs)),
          Indexed([], Passives(docs)))
  }

  method IndexPorts(es: Entries, d: Doc) returns (out: Entries)
    ensures out == Indexed(es, ResultPorts(d.results) + ScanPorts(d.scans))
  {
    hide Indexed, PortRows;
    IndexedNone(es);
    IndexedOn(es, ResultPorts(d.results), ScanPorts(d.scans));
    out := es;
    for j := 0 to |d.results|
      invariant out == Indexed(es, ResultPorts(d.results[..j]))
    {
      assert d.results[..j + 1][..j] == d.results[..j];
      var rows := PortRows(Some(d.results[j].0), d.results[j].1, d.results[j].2);
      IndexedOn(es, ResultPorts(d.results[..j]), rows);
      out := IndexRows(out, rows);
    }
    assert d.results[..|d.results|] == d.results;
    ghost var half := out;
    IndexedNone(half);
    for j := 0 to |d.scans|
      invariant out == Indexed(half, ScanPorts(d.scans[..j]))
    {
      assert d.scans[..j + 1][..j] == d.scans[..j];
      var rows := PortRows(None, d.scans[j].0, d.scans[j].1);
      IndexedOn(half, ScanPorts(d.scans[..j]), rows);
      out := IndexRows(out, rows);
    }
    assert d.scans[..|d.scans|] == d.scans;
  }

  lemma IndexedNone(es: Entries)
    ensures Indexed(es, []) == es
  {
  }

  lemma NextDoc(docs: seq<Doc>, i: nat)
    requires i < |docs|
    ensures var (a, b) := (docs[..i], docs[..i + 1]);
      && Indexed([], Vhosts(b)) == Indexed(Indexed([], Vhosts(a)), docs[i].vhosts)
      && Indexed([], Ports(b)) == Indexed(Indexed([], Ports(a)), ResultPorts(docs[i].results) + ScanPorts(docs[i].scans))
      && Indexed([], Services(b)) == Indexed(Indexed([], Services(a)), docs[i].services)
      && Indexed([], Passives(b)) == Indexed(Indexed([], Passives(a)), docs[i].passive)
  {
    hide Indexed, ResultPorts, ScanPorts;
    assert docs[..i + 1][..i] == docs[..i];
    IndexedOn([], Vhosts(docs[..i]), docs[i].vhosts);
    IndexedOn([], Ports(docs[..i]), ResultPorts(docs[i].results) + ScanPorts(docs[i].scans));
    IndexedOn([], Services(docs[..i]), docs[i].services);
    IndexedOn([], Passives(docs[..i]), docs[i].passive);
  }

  /** `extract_classes`: for every class the index of the rows of all documents, so that it holds exactly the last kept
      row of each key. */
  method Extract(assets: seq<Row>, docs: seq<Doc>) returns (x: Index)
    ensures x == IndexOf(assets, docs) && KeyedIndex(x)
    ensures forall k :: Found(x.hosts, k) == Last(assets, k) && Found(x.vhosts, k) == Last(Vhosts(docs), k)
    ensures forall k :: Found(x.ports, k) == Last(Ports(docs), k) && Found(x.services, k) == Last(Services(docs), k)
    ensures forall k :: Found(x.passive, k) == Last(Passives(docs), k)
  {
    hide Indexed, Vhosts, Ports, Services, Passives, ResultPorts, ScanPorts, Found, Last, Keyed;
    var hosts := IndexRows([], assets);
    NoRows(docs[..0]);
    x := Index(hosts, [], [], [], []);
    for i := 0 to |docs|
      invariant x == Index(hosts, Indexed([], Vhosts(docs[..i])), Indexed([], Ports(docs[..i])),
                           Indexed([], Services(docs[..i])), Indexed([], Passives(docs[..i])))
    {
      NextDoc(docs, i);
      var vhosts := IndexRows(x.vhosts, docs[i].vhosts);
      var ports := IndexPorts(x.ports, docs[i]);
      var services := IndexRows(x.services, docs[i].services);
      var passive := IndexRows(x.passive, docs[i].passive);
      x := Index(x.hosts, vhosts, ports, services, passive);
    }
    assert docs[..|docs|] == docs;
    ClassesExactly(assets, docs);
  }

  lemma NoRows(docs: seq<Doc>)
    requires docs == []
    ensures Indexed([], Vhosts(docs)) == Indexed([], Ports(docs)) == Indexed([], Services(docs))
         == Indexed([], Passives(docs)) == []
  {
  }

  lemma ClassesExactly(assets: seq<Row>, docs: seq<Doc>)
    ensures var x := IndexOf(assets, docs);
      && KeyedIndex(x)
      && (forall k :: Found(x.hosts, k) == Last(assets, k) && Found(x.vhosts, k) == Last(Vhosts(docs), k))
      && (forall k :: Found(x.ports, k) == Last(Ports(docs), k) && Found(x.services, k) == Last(Services(docs), k))
      && (forall k :: Found(x.passive, k) == Last(Passives(docs), k))
  {
    hide Indexed, Vhosts, Ports, Services, Passives, Found, Last, Keyed;
    forall rows: seq<Row>, k ensures Keyed(Indexed([], rows)) && Found(Indexed([], rows), k) == Last(rows, k) {
      IndexedExactly(rows, k);
    }
    assert Found(Indexed([], assets), "") == Last(assets, "");
    assert Found(Indexed([], Vhosts(docs)), "") == Last(Vhosts(docs), "");
    assert Found(Indexed([], Ports(docs)), "") == Last(Ports(docs), "");
    assert Found(Indexed([], Services(docs)), "") == Last(Services(docs), "");
    assert Found(Indexed([], Passives(docs)), "") == Last(Passives(docs), "");
  }

  // ------------------------------------------------------------- the diff of one class

  datatype Delta = Delta(added: seq<Row>, removed: seq<Row>, changed: seq<(Row, Row)>)

  const NOTHING := Delta([], [], [])

  /** The rows of `a` whose keys `b` does not have, in the order of `a`. */
  function Only(a: Entries, b: Entries): seq<Row> {
    if a == [] then []
    else
      var (k, r) := a[|a| - 1];
      Only(a[..|a| - 1], b) + if Has(b, k) then [] else [r]
  }

  function ChangedRows(older: Entries, newer: Entries): seq<(Row, Row)> {
    if newer == [] then []
    else
      var (k, r) := newer[|newer| - 1];
      ChangedRows(older, newer[..|newer| - 1]) + if Has(older, k) && Get(older, k) != r then [(Get(older, k), r)] else []
  }

  function DiffOf(older: Entries, newer: Entries): Delta {
    Delta(Only(newer, older), Only(older, newer), ChangedRows(older, newer))
  }

  /** `diff_maps` for one class. */
  method DiffClass(older: Entries, newer: Entries) returns (d: Delta)
    ensures d == DiffOf(older, newer)
  {
    hide Has, Get;
    d := NOTHING;
    for i := 0 to |newer|
      invariant d == Delta(Only(newer[..i], older), [], ChangedRows(older, newer[..i]))
    {
      assert newer[..i + 1][..i] == newer[..i];
      var (k, r) := newer[i];
      if !Has(older, k) {
        d := d.(added := d.added + [r]);
      } else if Get(older, k) != r {
        d := d.(changed := d.changed + [(Get(older, k), r)]);
      }
    }
    assert newer[..|newer|] == newer;
    for i := 0 to |older|
      invariant d == Delta(Only(newer, older), Only(older[..i], newer), ChangedRows(older, newer))
    {
      assert older[..i + 1][..i] == older[..i];
      var (k, r) := older[i];
      if !Has(newer, k) { d := d.(removed := d.removed + [r]); }
    }
    assert older[..|older|] == older;
  }

  lemma {:induction false} OnlyMembers(a: Entries, b: Entries, r: Row)
    ensures r in Only(a, b) <==> exists i :: 0 <= i < |a| && a[i].1 == r && !Has(b, a[i].0)
  {
    hide Has;
    if a != [] {
      var n := |a| - 1;
      OnlyMembers(a[..n], b, r);
      if r in Only(a[..n], b) {
        var i :| 0 <= i < n && a[..n][i].1 == r && !Has(b, a[..n][i].0);
        assert a[i] == a[..n][i];
      }
      if i :| 0 <= i < n && a[i].1 == r && !Has(b, a[i].0) { assert a[..n][i] == a[i]; }
    }
  }

  lemma {:induction false} ChangedMembers(older: Entries, newer: Entries, c: (Row, Row))
    ensures c in ChangedRows(older, newer) <==>
      exists i :: 0 <= i < |newer| && newer[i].1 == c.1 && Has(older, newer[i].0) && Get(older, newer[i].0) == c.0 != c.1
  {
    hide Has, Get;
    if newer != [] {
      var n := |newer| - 1;
      ChangedMembers(older, newer[..n], c);
      if c in ChangedRows(older, newer[..n]) {
        var i :| 0 <= i < n && newer[..n][i].1 == c.1 && Has(older, newer[..n][i].0) && Get(older, newer[..n][i].0) == c.0 != c.1;
        assert newer[i] == newer[..n][i];
      }
      if i :| 0 <= i < n && newer[i].1 == c.1 && Has(older, newer[i].0) && Get(older, newer[i].0) == c.0 != c.1 {
        assert newer[..n][i] == newer[i];
      }
    }
  }

  // ------------------------------------------------------------- a diff is a patch

  /** Applying a diff that names rows only: removed keys go, changed and added rows go under their own keys. */
  function Patched(es: map<string, Row>, d: Delta): map<string, Row> {
    (es - KeysOf(d.removed)) + UnderKeys(Afters(d.changed)) + UnderKeys(d.added)
  }

  function KeysOf(rows: seq<Row>): set<string> {
    set r | r in rows :: KeyOf(r)
  }

  function Afters(changed: seq<(Row, Row)>): (rs: seq<Row>)
    ensures |rs| == |changed| && forall i :: 0 <= i < |changed| ==> rs[i] == changed[i].1
  {
    seq(|changed|, i requires 0 <= i < |changed| => changed[i].1)
  }

  function UnderKeys(rows: seq<Row>): map<string, Row> {
    if rows == [] then map[] else UnderKeys(rows[..|rows| - 1])[KeyOf(rows[|rows| - 1]) := rows[|rows| - 1]]
  }

  function ToMap(es: Entries): map<string, Row> {
    map k | k in KeySet(es) :: Get(es, k)
  }

  function KeySet(es: Entries): (ks: set<string>)
    ensures forall k :: k in ks <==> Has(es, k)
  {
    var ks := set i | 0 <= i < |es| :: es[i].0;
    assert forall k :: Has(es, k) ==> es[Locate(es, k)].0 in ks;
    ks
  }

  /** Rows that stand under their own keys in `m` are found there again. */
  lemma {:induction false} UnderKeysOf(rows: seq<Row>, m: map<string, Row>)
    requires forall r :: r in rows ==> KeyOf(r) in m && m[KeyOf(r)] == r
    requires forall k :: k in m ==> KeyOf(m[k]) == k
    ensures forall k :: k in UnderKeys(rows) <==> k in m && m[k] in rows
    ensures forall k :: k in UnderKeys(rows) ==> UnderKeys(rows)[k] == m[k]
  {
    hide KeyOf;
    if rows != [] {
      var n := |rows| - 1;
      assert rows == rows[..n] + [rows[n]];
      UnderKeysOf(rows[..n], m);
    }
  }

  lemma KeyedMap(es: Entries)
    requires Keyed(es)
    ensures forall k :: k in ToMap(es) ==> KeyOf(ToMap(es)[k]) == k
    ensures forall i :: 0 <= i < |es| ==> Has(es, es[i].0) && Get(es, es[i].0) == es[i].1 && KeyOf(es[i].1) == es[i].0
  {
    hide KeyOf;
    forall i | 0 <= i < |es| ensures Has(es, es[i].0) && Get(es, es[i].0) == es[i].1 { Member(es, i); }
  }

  /** The added rows are those of the new map alone. */
  lemma OnlyRows(a: Entries, b: Entries)
    requires Keyed(a)
    ensures forall r :: r in Only(a, b) <==> KeyOf(r) in ToMap(a) && ToMap(a)[KeyOf(r)] == r && KeyOf(r) !in ToMap(b)
  {
    KeyedMap(a);
    hide KeyOf, Has, Get, Only;
    forall r ensures r in Only(a, b) <==> KeyOf(r) in ToMap(a) && ToMap(a)[KeyOf(r)] == r && KeyOf(r) !in ToMap(b) {
      OnlyMembers(a, b, r);
      if KeyOf(r) in ToMap(a) && ToMap(a)[KeyOf(r)] == r && KeyOf(r) !in ToMap(b) {
        var i := Locate(a, KeyOf(r));
        FoundRow(a, KeyOf(r));
      }
    }
  }

  lemma FoundRow(es: Entries, k: string)
    requires Has(es, k)
    ensures exists i :: 0 <= i < |es| && es[i].1 == Get(es, k) && es[i].0 == k
  {
    assert es[Locate(es, k)].0 == k;
  }

  /** The after-rows are those under a key of both maps that differ. */
  lemma AfterRows(older: Entries, newer: Entries)
    requires Keyed(newer)
    ensures forall r :: r in Afters(ChangedRows(older, newer)) <==>
      KeyOf(r) in ToMap(newer) && ToMap(newer)[KeyOf(r)] == r && KeyOf(r) in ToMap(older) && ToMap(older)[KeyOf(r)] != r
  {
    KeyedMap(newer);
    hide KeyOf, Has, Get;
    var changed := ChangedRows(older, newer);
    forall r ensures r in Afters(changed) <==>
      KeyOf(r) in ToMap(newer) && ToMap(newer)[KeyOf(r)] == r && KeyOf(r) in ToMap(older) && ToMap(older)[KeyOf(r)] != r
    {
      if r in Afters(changed) {
        var i :| 0 <= i < |changed| && changed[i].1 == r;
        assert changed[i] in changed;
        ChangedMembers(older, newer, changed[i]);
      }
      if KeyOf(r) in ToMap(newer) && ToMap(newer)[KeyOf(r)] == r && KeyOf(r) in ToMap(older) && ToMap(older)[KeyOf(r)] != r {
        FoundRow(newer, KeyOf(r));
        var c := (Get(older, KeyOf(r)), r);
        ChangedMembers(older, newer, c);
        assert c in changed;
        var i :| 0 <= i < |changed| && changed[i] == c;
        assert Afters(changed)[i] == r;
      }
    }
  }

  lemma PatchFrom(o: map<string, Row>, n: map<string, Row>, removed: set<string>, changed: map<string, Row>,
                  added: map<string, Row>)
    requires forall k :: k in removed <==> k in o && k !in n
    requires forall k :: k in changed <==> k in n && k in o && o[k] != n[k]
    requires forall k :: k in added <==> k in n && k !in o
    requires (forall k :: k in changed ==> changed[k] == n[k]) && (forall k :: k in added ==> added[k] == n[k])
    ensures (o - removed) + changed + added == n
  {
  }

  lemma RemovedKeys(older: Entries, newer: Entries)
    requires Keyed(older)
    ensures forall k :: k in KeysOf(Only(older, newer)) <==> k in ToMap(older) && k !in ToMap(newer)
  {
    KeyedMap(older);
    OnlyRows(older, newer);
    hide KeyOf, Only, ToMap, Keyed;
    forall k ensures k in KeysOf(Only(older, newer)) <==> k in ToMap(older) && k !in ToMap(newer) {
      if k in ToMap(older) && k !in ToMap(newer) {
        assert ToMap(older)[k] in Only(older, newer);
      }
    }
  }

  lemma AddedMap(older: Entries, newer: Entries)
    requires Keyed(newer)
    ensures var added := UnderKeys(Only(newer, older));
      && (forall k :: k in added <==> k in ToMap(newer) && k !in ToMap(older))
      && forall k :: k in added ==> added[k] == ToMap(newer)[k]
  {
    KeyedMap(newer);
    OnlyRows(newer, older);
    hide KeyOf, Only, ToMap, Keyed;
    UnderKeysOf(Only(newer, older), ToMap(newer));
    hide UnderKeys;
    forall k | k in ToMap(newer) ensures ToMap(newer)[k] in Only(newer, older) <==> k !in ToMap(older) {
    }
  }

  lemma ChangedMap(older: Entries, newer: Entries)
    requires Keyed(newer)
    ensures var changed := UnderKeys(Afters(ChangedRows(older, newer)));
      && (forall k :: k in changed <==> k in ToMap(newer) && k in ToMap(older) && ToMap(older)[k] != ToMap(newer)[k])
      && forall k :: k in changed ==> changed[k] == ToMap(newer)[k]
  {
    KeyedMap(newer);
    AfterRows(older, newer);
    hide KeyOf, ChangedRows, ToMap, Keyed, Afters;
    var rows := Afters(ChangedRows(older, newer));
    UnderKeysOf(rows, ToMap(newer));
    hide UnderKeys;
    forall k | k in ToMap(newer)
      ensures ToMap(newer)[k] in rows <==> k in ToMap(older) && ToMap(older)[k] != ToMap(newer)[k]
    {
    }
  }

  /** The diff is a patch: applied to the older map it gives the newer one. */
  lemma DiffPatches(older: Entries, newer: Entries)
    requires Keyed(older) && Keyed(newer)
    ensures Patched(ToMap(older), DiffOf(older, newer)) == ToMap(newer)
  {
    hide Only, ChangedRows, ToMap, Keyed, Afters, KeysOf, UnderKeys;
    RemovedKeys(older, newer);
    AddedMap(older, newer);
    ChangedMap(older, newer);
    var d := DiffOf(older, newer);
    PatchFrom(ToMap(older), ToMap(newer), KeysOf(d.removed), UnderKeys(Afters(d.changed)), UnderKeys(d.added));
  }

  // ------------------------------------------------------------- nothing lost, nothing twice

  /** The rows that stand unchanged under one key in both. */
  function Same(older: Entries, newer: Entries): seq<Row> {
    if newer == [] then []
    else
      var (k, r) := newer[|newer| - 1];
      Same(older, newer[..|newer| - 1]) + if Has(older, k) && Get(older, k) == r then [r] else []
  }

  lemma AftersNext(c: seq<(Row, Row)>, b: Row, r: Row)
    ensures Afters(c + [(b, r)]) == Afters(c) + [r]
  {
  }

  lemma RowsNext(es: Entries)
    requires es != []
    ensures RowsOf(es) == RowsOf(es[..|es| - 1]) + [es[|es| - 1].1]
  {
  }

  /** Every row of the newer map is added, changed or unchanged, exactly once. */
  lemma {:induction false} NewerSplit(older: Entries, newer: Entries)
    ensures multiset(Only(newer, older)) + multiset(Afters(ChangedRows(older, newer))) + multiset(Same(older, newer))
         == multiset(RowsOf(newer))
  {
    hide Has, Get, RowsOf, Afters;
    if newer == [] {
      assert Afters([]) == [] && RowsOf([]) == [];
    } else {
      var n := |newer| - 1;
      var (k, r) := newer[n];
      NewerSplit(older, newer[..n]);
      RowsNext(newer);
      var o, c, s := Only(newer[..n], older), ChangedRows(older, newer[..n]), Same(older, newer[..n]);
      assert c + [] == c && o + [] == o && s + [] == s;
      if Has(older, k) {
        AftersNext(c, Get(older, k), r);
      }
    }
  }

  function RowsOf(es: Entries): (rs: seq<Row>)
    ensures |rs| == |es|
  {
    seq(|es|, i requires 0 <= i < |es| => es[i].1)
  }

  /** Swapping the snapshots swaps added with removed, exactly, and before with after in every change. */
  lemma SwapSwaps(older: Entries, newer: Entries)
    requires Distinct(older) && Distinct(newer)
    ensures DiffOf(newer, older).added == DiffOf(older, newer).removed
    ensures DiffOf(newer, older).removed == DiffOf(older, newer).added
    ensures forall b, a :: (b, a) in DiffOf(older, newer).changed <==> (a, b) in DiffOf(newer, older).changed
  {
    hide Only, ChangedRows;
    forall b, a ensures (b, a) in ChangedRows(older, newer) <==> (a, b) in ChangedRows(newer, older) {
      if (b, a) in ChangedRows(older, newer) { Swapped(older, newer, b, a); }
      if (a, b) in ChangedRows(newer, older) { Swapped(newer, older, a, b); }
    }
  }

  lemma Swapped(older: Entries, newer: Entries, b: Row, a: Row)
    requires Distinct(older) && Distinct(newer) && (b, a) in ChangedRows(older, newer)
    ensures (a, b) in ChangedRows(newer, older)
  {
    ChangedMembers(older, newer, (b, a));
    ChangedMembers(newer, older, (a, b));
    hide ChangedRows;
    var i :| 0 <= i < |newer| && newer[i].1 == a && Has(older, newer[i].0) && Get(older, newer[i].0) == b != a;
    Member(newer, i);
    var j := Locate(older, newer[i].0);
    assert older[j].1 == b && older[j].0 == newer[i].0;
  }

  /** The diff is empty exactly when both snapshots hold the same rows under the same keys; so diff(m, m) is empty. */
  lemma EmptyExactly(older: Entries, newer: Entries)
    requires Distinct(older) && Distinct(newer)
    ensures DiffOf(older, newer) == NOTHING <==> SameMap(older, newer)
  {
    hide Only, ChangedRows, Has, Get;
    var d := DiffOf(older, newer);
    if SameMap(older, newer) {
      if d.added != [] { OnlyMembers(newer, older, d.added[0]); InMap(newer); }
      if d.removed != [] { OnlyMembers(older, newer, d.removed[0]); InMap(older); }
      if d.changed != [] { ChangedMembers(older, newer, d.changed[0]); InMap(newer); }
    }
    if d == NOTHING {
      forall k ensures Has(older, k) <==> Has(newer, k)
               ensures Has(older, k) ==> Get(older, k) == Get(newer, k) {
        if Has(newer, k) {
          FoundRow(newer, k);
          OnlyMembers(newer, older, Get(newer, k));
          if Has(older, k) { ChangedMembers(older, newer, (Get(older, k), Get(newer, k))); }
        }
        if Has(older, k) {
          FoundRow(older, k);
          OnlyMembers(older, newer, Get(older, k));
        }
      }
    }
  }

  lemma InMap(es: Entries)
    requires Distinct(es)
    ensures forall i :: 0 <= i < |es| ==> Has(es, es[i].0) && Get(es, es[i].0) == es[i].1
  {
    forall i | 0 <= i < |es| ensures Has(es, es[i].0) && Get(es, es[i].0) == es[i].1 { Member(es, i); }
  }
}
