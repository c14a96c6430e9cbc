/** The nesting depths of DNS and vhost recursion (pipeline/recon_depth.py), and the split of the query rate. */
module ReconDepth {
  import opened Basics
  import opened Text
  import opened Scope

  /** A host name as every function here reads it. */
  function Norm(s: string): string {
    RTrim(Lower(Strip(s)), IsDot)
  }

  function Dots(s: string): nat {
    if s == "" then 0 else Dots(s[1..]) + if s[0] == '.' then 1 else 0
  }

  predicate DoubleDot(s: string) {
    |s| >= 2 && ((s[0] == '.' && s[1] == '.') || DoubleDot(s[1..]))
  }

  /** The depth of a part in front of the dot and the base; -1 for an empty label in the middle. */
  function RelDepth(rel: string): int {
    if rel == "" || DoubleDot(rel) then -1 else Dots(rel) + 1
  }

  /** `child_depth` of names in normal form. */
  function Depth(h: string, a: string): int {
    if h == "" || a == "" then -1
    else if h == a then 0
    else if !Under(h, a) then -1
    else RelDepth(h[..|h| - |a| - 1])
  }

  function ChildDepth(host: string, apex: string): int {
    Depth(Norm(host), Norm(apex))
  }

  // ------------------------------------------------------------- depth adds up

  lemma {:induction false} DotsAppend(a: string, b: string)
    ensures Dots(a + b) == Dots(a) + Dots(b)
  {
    if a == "" {
      assert a + b == b;
    } else {
      DotsAppend(a[1..], b);
      assert (a + b)[1..] == a[1..] + b;
    }
  }

  lemma {:induction false} DoubleDotAppend(a: string, b: string)
    ensures DoubleDot(a + b) <==>
      DoubleDot(a) || DoubleDot(b) || (a != "" && b != "" && a[|a| - 1] == '.' && b[0] == '.')
  {
    if a == "" {
      assert a + b == b;
    } else {
      DoubleDotAppend(a[1..], b);
      assert (a + b)[1..] == a[1..] + b;
    }
  }

  /** The depth of `x` in front of `y` is the sum of both, unless the dot between them meets another one. */
  lemma RelAdds(x: string, y: string)
    requires RelDepth(x) >= 1 && RelDepth(y) >= 1
    ensures RelDepth(x + "." + y) == if x[|x| - 1] == '.' || y[0] == '.' then -1 else RelDepth(x) + RelDepth(y)
  {
    assert x + "." + y == x + ("." + y);
    assert ("." + y)[1..] == y;
    DotsAppend(x, "." + y);
    DoubleDotAppend(x, "." + y);
  }

  lemma UnderParts(h: string, b: string)
    requires Under(h, b)
    ensures h == h[..|h| - |b| - 1] + "." + b
  {
    assert h[|h| - |b| - 1..] == "." + b;
  }

  lemma UnderChain(h: string, b: string, a: string)
    requires Under(h, b) && Under(b, a)
    ensures Under(h, a) && h[..|h| - |a| - 1] == h[..|h| - |b| - 1] + "." + b[..|b| - |a| - 1]
  {
    UnderParts(h, b);
    UnderParts(b, a);
    var x, y := h[..|h| - |b| - 1], b[..|b| - |a| - 1];
    assert h == (x + "." + y) + "." + a;
    assert h[|h| - |a| - 1..] == "." + a && h[..|h| - |a| - 1] == x + "." + y;
  }

  /** Along a chain of names, depth adds up exactly when no empty label meets the joint: the part of `h` in front of `b`
      does not end with a dot and `b` does not begin with one. */
  lemma DepthAdds(h: string, b: string, a: string)
    requires Depth(h, b) >= 1 && Depth(b, a) >= 1
    ensures Depth(h, a) == Depth(h, b) + Depth(b, a) <==> h[|h| - |b| - 2] != '.' && b[0] != '.'
    ensures Depth(h, a) != Depth(h, b) + Depth(b, a) ==> Depth(h, a) == -1
  {
    UnderChain(h, b, a);
    var x, y := h[..|h| - |b| - 1], b[..|b| - |a| - 1];
    RelAdds(x, y);
    assert x[|x| - 1] == h[|h| - |b| - 2] && y[0] == b[0];
    hide Under, RelDepth;
  }

  /** A label a wordlist puts in front of a parent. */
  predicate Word(w: string) {
    w != "" && '.' !in w && forall i :: 0 <= i < |w| ==> !IsSpace(w[i]) && LowerChar(w[i]) == w[i]
  }

  lemma {:induction false} NoDots(w: string)
    requires '.' !in w
    ensures Dots(w) == 0 && !DoubleDot(w)
  {
    if w != "" { NoDots(w[1..]); }
  }

  /** Fuzzing under a parent goes one level down, or nowhere when the parent begins with a dot. */
  lemma FuzzDepth(w: string, p: string, a: string)
    requires Word(w) && p != "" && Depth(p, a) >= 0
    ensures Depth(w + "." + p, a) == if p != a && p[0] == '.' then -1 else Depth(p, a) + 1
  {
    var h := w + "." + p;
    assert h[|h| - |p| - 1..] == "." + p && h[..|h| - |p| - 1] == w;
    NoDots(w);
    assert Depth(h, p) == 1;
    if p != a {
      assert Depth(p, a) >= 1 by { DepthPositive(p, a); }
      DepthAdds(h, p, a);
      assert h[|h| - |p| - 2] == w[|w| - 1];
    }
  }

  lemma DepthPositive(p: string, a: string)
    requires Depth(p, a) >= 0 && p != a
    ensures Depth(p, a) >= 1
  {
  }

  // ------------------------------------------------------------- parents for the second pass

  datatype Row = Row(ips: seq<string>, unresolved: bool)

  /** What a run knows: resolved names in the order of the dict, and its two readings of a set of names. */
  datatype Known = Known(resolved: seq<(string, Row)>, skip: set<string>, wild: set<string>)

  function Find(rows: seq<(string, Row)>, host: string): Option<Row> {
    if rows == [] then None else if rows[0].0 == host then Some(rows[0].1) else Find(rows[1..], host)
  }

  /** A name, normalised once, to brute under: between the apex and the depth limit, not known dead, not skipped. */
  predicate Parent(k: Known, apex: string, limit: int, host: string) {
    && host != "" && host !in k.skip && host != apex && host !in k.wild
    && 1 <= ChildDepth(host, apex) < limit
    && !(Find(k.resolved, host).Some? && Find(k.resolved, host).value.unresolved && Find(k.resolved, host).value.ips == [])
  }

  /** The parents among the names, each once, in the order of their first mention. */
  function ParentsOf(k: Known, apex: string, limit: int, names: seq<string>): seq<string> {
    if names == [] then []
    else
      var before := ParentsOf(k, apex, limit, names[..|names| - 1]);
      var host := Norm(names[|names| - 1]);
      if Parent(k, apex, limit, host) && host !in before then before + [host] else before
  }

  /** Python's `out[:cap]`, taken when a cap is set and exceeded. */
  function Capped(out: seq<string>, cap: int): (r: seq<string>)
    ensures r <= out
  {
    if cap > 0 && |out| > cap then out[..cap]
    else if cap < 0 then if -cap >= |out| then [] else out[..|out| + cap]
    else out
  }

  function Names(rows: seq<(string, Row)>): (r: seq<string>)
    ensures |r| == |rows|
  {
    seq(|rows|, i requires 0 <= i < |rows| => rows[i].0)
  }

  /** `vhost_driven_parents`. */
  method VhostDrivenParents(k: Known, apex: string, limit: int, extra: seq<string>, cap: int) returns (out: seq<string>)
    ensures out == Capped(ParentsOf(k, Norm(apex), limit, extra + Names(k.resolved)), cap)
  {
    hide Norm, ChildDepth, Find;
    var a := Norm(apex);
    var names := extra + Names(k.resolved);
    out := [];
    var seen: set<string> := {};
    for i := 0 to |names|
      invariant out == ParentsOf(k, a, limit, names[..i])
      invariant forall h :: h in seen <==> h in out
    {
      assert names[..i + 1][..i] == names[..i];
      var host := Norm(names[i]);
      if host == "" || host in seen || host in k.skip || host == a || host in k.wild { continue; }
      var depth := ChildDepth(host, a);
      if depth < 1 || depth >= limit { continue; }
      var row := Find(k.resolved, host);
      if row.Some? && row.value.unresolved && row.value.ips == [] { continue; }
      seen := seen + {host};
      out := out + [host];
    }
    assert names[..|names|] == names;
    out := Capped(out, cap);
  }

  ghost predicate NoneTwice(xs: seq<string>) {
    forall i, j :: 0 <= i < j < |xs| ==> xs[i] != xs[j]
  }

  lemma OneMore(xs: seq<string>, x: string)
    requires NoneTwice(xs) && x !in xs
    ensures NoneTwice(xs + [x])
  {
  }

  function Normed(names: seq<string>): (r: seq<string>)
    ensures |r| == |names|
  {
    seq(|names|, i requires 0 <= i < |names| => Norm(names[i]))
  }

  lemma NormedNext(names: seq<string>)
    requires names != []
    ensures Normed(names) == Normed(names[..|names| - 1]) + [Norm(names[|names| - 1])]
  {
    hide Norm;
  }

  /** Before the cap the parents are exactly the eligible names, without repetition. */
  lemma {:induction false} ParentsExactly(k: Known, apex: string, limit: int, names: seq<string>)
    ensures forall h :: h in ParentsOf(k, apex, limit, names) <==> Parent(k, apex, limit, h) && h in Normed(names)
    ensures NoneTwice(ParentsOf(k, apex, limit, names))
  {
    hide Norm, Parent, Normed;
    if names == [] {
      assert Normed([]) == [];
    } else {
      var n := |names| - 1;
      var before, host := ParentsOf(k, apex, limit, names[..n]), Norm(names[n]);
      ParentsExactly(k, apex, limit, names[..n]);
      NormedNext(names);
      if host !in before { OneMore(before, host); }
      var all := ParentsOf(k, apex, limit, names);
      assert all == if Parent(k, apex, limit, host) && host !in before then before + [host] else before;
      forall h ensures h in all <==> Parent(k, apex, limit, h) && h in Normed(names) {
        assert h in before <==> Parent(k, apex, limit, h) && h in Normed(names[..n]);
        assert h in Normed(names) <==> h in Normed(names[..n]) || h == host;
      }
    }
  }

  lemma NormStart(raw: string)
    ensures Norm(raw) != "" ==> !IsSpace(Norm(raw)[0])
  {
    TrimShape(raw, IsSpace);
    RTrimShape(Lower(Strip(raw)), IsDot);
    hide Trim;
  }

  lemma LowerWord(w: string, x: string)
    requires Word(w)
    ensures Lower(w + "." + x) == w + "." + Lower(x)
  {
  }

  /** A word in front of a normalised name stays in front of it when both are normalised again. */
  lemma WordNorm(w: string, raw: string)
    requires Word(w) && Norm(Norm(raw)) != ""
    ensures Norm(w + "." + Norm(raw)) == w + "." + Norm(Norm(raw))
  {
    var p := Norm(raw);
    var s := w + "." + p;
    NormStart(raw);
    assert p != "";
    hide Norm;
    RTrimShape(p, IsSpace);
    assert RTrim(p, IsSpace) != "";
    assert LTrim(p, IsSpace) == p && LTrim(s, IsSpace) == s;
    RTrimAppend(w + ".", p, IsSpace);
    LowerWord(w, RTrim(p, IsSpace));
    NormTwice(p, RTrim(p, IsSpace));
    NormTwice(s, w + "." + RTrim(p, IsSpace));
    RTrimAppend(w + ".", Lower(RTrim(p, IsSpace)), IsDot);
  }

  lemma NormTwice(p: string, stripped: string)
    requires Strip(p) == stripped
    ensures Norm(p) == RTrim(Lower(stripped), IsDot)
  {
  }

  lemma NormFirst(p: string)
    requires p != "" && !IsSpace(p[0]) && Norm(p) != ""
    ensures Norm(p)[0] == LowerChar(p[0])
  {
    RTrimShape(p, IsSpace);
    RTrimShape(Lower(RTrim(p, IsSpace)), IsDot);
    assert LTrim(p, IsSpace) == p;
    hide RTrim;
  }

  lemma FuzzOne(apex: string, raw: string, w: string)
    requires Word(w) && ChildDepth(Norm(raw), apex) >= 1
    ensures var p := Norm(raw);
      p != "" && ChildDepth(w + "." + p, apex) == if p[0] == '.' then -1 else ChildDepth(p, apex) + 1
  {
    var p := Norm(raw);
    NormStart(raw);
    assert Norm(p) != "" && Norm(p) != Norm(apex) && p != "";
    WordNorm(w, raw);
    NormFirst(p);
    FuzzDepth(w, Norm(p), Norm(apex));
    hide Norm, Depth;
  }

  /** The recursion limit holds: whatever word is put in front of a returned parent, the depth stays within it. */
  lemma FuzzWithinLimit(k: Known, apex: string, limit: int, names: seq<string>, cap: int, p: string, w: string)
    requires p in Capped(ParentsOf(k, apex, limit, names), cap) && Word(w)
    ensures p != "" && 1 <= ChildDepth(p, apex) < limit
    ensures ChildDepth(w + "." + p, apex) <= limit
    ensures p[0] != '.' ==> ChildDepth(w + "." + p, apex) == ChildDepth(p, apex) + 1
  {
    hide Norm, ChildDepth, Word, Normed;
    ParentsExactly(k, apex, limit, names);
    assert p in ParentsOf(k, apex, limit, names);
    hide ParentsOf, Capped;
    var i :| 0 <= i < |names| && Normed(names)[i] == p;
    NormedAt(names, i);
    FuzzOne(apex, names[i], w);
  }

  lemma NormedAt(names: seq<string>, i: nat)
    requires i < |names|
    ensures Normed(names)[i] == Norm(names[i])
  {
    hide Norm;
  }

  // ------------------------------------------------------------- parents of one level

  predicate HasIp(ips: seq<string>) {
    exists i :: 0 <= i < |ips| && ips[i] != ""
  }

  predicate Meets(ips: seq<string>, wild: set<string>) {
    exists i :: 0 <= i < |ips| && ips[i] in wild
  }

  predicate OnLevel(resolved: map<string, Row>, apex: string, want: int, wild: set<string>, host: string) {
    && host in resolved && ChildDepth(host, apex) == want
    && HasIp(resolved[host].ips) && !Meets(resolved[host].ips, wild)
  }

  function OnLevelOf(resolved: map<string, Row>, apex: string, want: int, wild: set<string>, hosts: seq<string>): seq<string> {
    if hosts == [] then []
    else
      var h := hosts[|hosts| - 1];
      OnLevelOf(resolved, apex, want, wild, hosts[..|hosts| - 1]) + if OnLevel(resolved, apex, want, wild, h) then [h] else []
  }

  /** `recursion_parents`, `wild` being the non-empty catch-all addresses. */
  method RecursionParents(resolved: map<string, Row>, apex: string, level: int, wild: set<string>, cap: int)
    returns (out: seq<string>)
    requires "" !in wild
    ensures out == if level <= 1 then [apex]
                   else Capped(OnLevelOf(resolved, apex, level - 1, wild, SortedSeq(resolved.Keys)), cap)
  {
    hide ChildDepth, HasIp, Meets, SortedSeq;
    if level <= 1 { return [apex]; }
    var hosts := SortStrings(resolved.Keys);
    out := [];
    for i := 0 to |hosts|
      invariant out == OnLevelOf(resolved, apex, level - 1, wild, hosts[..i])
    {
      assert hosts[..i + 1][..i] == hosts[..i];
      assert hosts[i] in hosts;
      if ChildDepth(hosts[i], apex) != level - 1 { continue; }
      var ips := resolved[hosts[i]].ips;
      if !HasIp(ips) { continue; }
      if Meets(ips, wild) { continue; }
      out := out + [hosts[i]];
    }
    assert hosts[..|hosts|] == hosts;
    out := Capped(out, cap);
  }

  lemma {:induction false} OnLevelMembers(
    resolved: map<string, Row>, apex: string, want: int, wild: set<string>, hosts: seq<string>)
    ensures forall h :: h in OnLevelOf(resolved, apex, want, wild, hosts) <==>
      h in hosts && OnLevel(resolved, apex, want, wild, h)
  {
    hide OnLevel;
    if hosts != [] {
      var n := |hosts| - 1;
      OnLevelMembers(resolved, apex, want, wild, hosts[..n]);
      assert hosts == hosts[..n] + [hosts[n]];
    }
  }

  /** Every parent of a level above the first lies exactly one level up, so fuzzing under it lands on the level. */
  lemma LevelExactly(resolved: map<string, Row>, apex: string, level: int, wild: set<string>, cap: int, p: string, w: string)
    requires level > 1 && Word(w)
    requires p in Capped(OnLevelOf(resolved, apex, level - 1, wild, SortedSeq(resolved.Keys)), cap)
    ensures p in resolved && ChildDepth(p, apex) == level - 1
    ensures Norm(p)[0] != '.' ==> Depth(w + "." + Norm(p), Norm(apex)) == level
  {
    var hosts := SortedSeq(resolved.Keys);
    OnLevelMembers(resolved, apex, level - 1, wild, hosts);
    assert p in OnLevelOf(resolved, apex, level - 1, wild, hosts);
    hide OnLevelOf, Capped, Norm;
    FuzzDepth(w, Norm(p), Norm(apex));
  }

  // ------------------------------------------------------------- vhost bases

  /** `_add`: the name is normalised once more, and added unless it is there. */
  function Added(out: seq<string>, host: string): seq<string> {
    if Norm(host) != "" && Norm(host) !in out then out + [Norm(host)] else out
  }

  function BasesOf(apex: string, limit: int, names: seq<string>): seq<string> {
    if names == [] then Added([], apex)
    else
      var before := BasesOf(apex, limit, names[..|names| - 1]);
      var host := Norm(names[|names| - 1]);
      if 1 <= ChildDepth(host, apex) < limit then Added(before, host) else before
  }

  /** `vhost_bases`. */
  method VhostBases(apex: string, names: seq<string>, limit: int) returns (out: seq<string>)
    ensures out == if Norm(apex) == "" || limit < 1 then [] else BasesOf(Norm(apex), limit, names)
  {
    hide Norm, ChildDepth;
    var a := Norm(apex);
    if a == "" || limit < 1 { return []; }
    var seen: set<string>;
    out, seen := Add([], {}, a);
    for i := 0 to |names|
      invariant out == BasesOf(a, limit, names[..i])
      invariant forall h :: h in seen <==> h in out
    {
      assert names[..i + 1][..i] == names[..i];
      var host := Norm(names[i]);
      var extra := ChildDepth(host, a);
      if extra >= 1 && extra < limit { out, seen := Add(out, seen, host); }
    }
    assert names[..|names|] == names;
  }

  method Add(out: seq<string>, seen: set<string>, host: string) returns (out': seq<string>, seen': set<string>)
    requires forall h :: h in seen <==> h in out
    ensures out' == Added(out, host) && forall h :: h in seen' <==> h in out'
  {
    hide Norm;
    out', seen' := out, seen;
    var token := Norm(host);
    if token != "" && token !in seen' {
      seen' := seen' + {token};
      out' := out' + [token];
    }
  }

  lemma {:induction false} BasesMembers(apex: string, limit: int, names: seq<string>)
    requires limit >= 1
    ensures forall b :: b in BasesOf(apex, limit, names) ==> b != "" && 0 <= Depth(b, Norm(apex)) < limit
    ensures NoneTwice(BasesOf(apex, limit, names))
  {
    assert Norm(apex) != "" ==> Depth(Norm(apex), Norm(apex)) == 0;
    hide Norm, Depth;
    if names != [] {
      var n := |names| - 1;
      var before, host := BasesOf(apex, limit, names[..n]), Norm(names[n]);
      BasesMembers(apex, limit, names[..n]);
      if Norm(host) !in before { OneMore(before, Norm(host)); }
      var all := BasesOf(apex, limit, names);
      assert all == if 1 <= ChildDepth(host, apex) < limit then Added(before, host) else before;
    }
  }

  /** Fuzzing under any base stays within the vhost depth. */
  lemma BasesWithinLimit(apex: string, limit: int, names: seq<string>, b: string, w: string)
    requires limit >= 1 && b in BasesOf(apex, limit, names) && Word(w)
    ensures Depth(w + "." + b, Norm(apex)) <= limit
  {
    BasesMembers(apex, limit, names);
    hide BasesOf, Norm;
    FuzzDepth(w, b, Norm(apex));
  }

  // ------------------------------------------------------------- the query rate

  function Max(a: int, b: int): int {
    if a > b then a else b
  }

  function Min(a: int, b: int): int {
    if a < b then a else b
  }

  /** `clamp_dnsx_parallel_parents`, given the three settings. */
  function ParallelParents(low: int, high: int, wanted: int): int {
    var lo := Max(1, low);
    Max(lo, Min(Max(lo, high), wanted))
  }

  /** `dnsx_parent_worker_count`, given the same settings. */
  function Workers(low: int, high: int, wanted: int, parents: int, qps: int): (r: int)
    ensures r >= 1
  {
    Max(1, Min(ParallelParents(low, high, wanted), Min(Max(1, parents), Max(1, qps))))
  }

  /** `dnsx_job_qps`. */
  function JobQps(qps: int, workers: int): int {
    Max(1, qps / Max(1, workers))
  }

  lemma Quotient(q: int, n: int)
    requires 1 <= n <= q
    ensures q / n >= 1 && n * (q / n) <= q
  {
  }

  /** The jobs together stay within the rate exactly when there is a rate of at least one. */
  lemma RateSplit(low: int, high: int, wanted: int, parents: int, qps: int)
    ensures var n := Workers(low, high, wanted, parents, qps); n * JobQps(qps, n) <= qps <==> qps >= 1
  {
    var n := Workers(low, high, wanted, parents, qps);
    if qps >= 1 {
      assert 1 <= n <= qps;
      Quotient(qps, n);
    } else {
      assert n == 1 && JobQps(qps, n) >= 1;
    }
  }
}
