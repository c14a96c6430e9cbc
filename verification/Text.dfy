/** Strings as the program handles them: ASCII whitespace, `strip`, `lower`, `split` and `join`. */
module Text {

  /** The ASCII characters removed by `str.strip()`. */
  predicate IsSpace(c: char) {
    var n := c as int;
    n == 32 || 9 <= n <= 13 || 28 <= n <= 31
  }

  predicate IsDot(c: char) {
    c == '.'
  }

  function LTrim(s: string, p: char -> bool): string {
    if s != "" && p(s[0]) then LTrim(s[1..], p) else s
  }

  function RTrim(s: string, p: char -> bool): string {
    if s != "" && p(s[|s| - 1]) then RTrim(s[..|s| - 1], p) else s
  }

  function Trim(s: string, p: char -> bool): string {
    RTrim(LTrim(s, p), p)
  }

  function Strip(s: string): string {
    Trim(s, IsSpace)
  }

  function LowerChar(c: char): char {
    if 'A' <= c <= 'Z' then (c as int + 32) as char else c
  }

  function Lower(s: string): (r: string)
    ensures |r| == |s|
    ensures forall i :: 0 <= i < |s| ==> r[i] == LowerChar(s[i])
  {
    seq(|s|, i requires 0 <= i < |s| => LowerChar(s[i]))
  }

  /** No character accepted by `p` at either end. */
  predicate Trimmed(s: string, p: char -> bool) {
    s != "" ==> !p(s[0]) && !p(s[|s| - 1])
  }

  lemma {:induction false} LTrimShape(s: string, p: char -> bool)
    ensures |LTrim(s, p)| <= |s|
    ensures LTrim(s, p) == s[|s| - |LTrim(s, p)|..]
    ensures forall i :: 0 <= i < |s| - |LTrim(s, p)| ==> p(s[i])
    ensures LTrim(s, p) != "" ==> !p(LTrim(s, p)[0])
  {
    if s != "" && p(s[0]) {
      LTrimShape(s[1..], p);
      forall i | 0 <= i < |s| - |LTrim(s, p)| ensures p(s[i]) {
        if i > 0 { assert s[i] == s[1..][i - 1]; }
      }
    }
  }

  lemma {:induction false} RTrimShape(s: string, p: char -> bool)
    ensures |RTrim(s, p)| <= |s|
    ensures RTrim(s, p) == s[..|RTrim(s, p)|]
    ensures forall i :: |RTrim(s, p)| <= i < |s| ==> p(s[i])
    ensures RTrim(s, p) != "" ==> !p(RTrim(s, p)[|RTrim(s, p)| - 1])
  {
    if s != "" && p(s[|s| - 1]) {
      RTrimShape(s[..|s| - 1], p);
    }
  }

  lemma {:induction false} RTrimAppend(a: string, b: string, p: char -> bool)
    requires RTrim(b, p) != ""
    ensures RTrim(a + b, p) == a + RTrim(b, p)
  {
    if p(b[|b| - 1]) {
      assert (a + b)[..|a + b| - 1] == a + b[..|b| - 1];
      RTrimAppend(a, b[..|b| - 1], p);
    }
  }

  lemma {:induction false} RTrimAway(a: string, b: string, p: char -> bool)
    requires RTrim(b, p) == ""
    ensures RTrim(a + b, p) == RTrim(a, p)
  {
    if b == "" {
      assert a + b == a;
    } else {
      assert (a + b)[..|a + b| - 1] == a + b[..|b| - 1];
      RTrimAway(a, b[..|b| - 1], p);
    }
  }

  /** `Trim` removes exactly a run of accepted characters at each end. */
  lemma TrimShape(s: string, p: char -> bool)
    ensures Trimmed(Trim(s, p), p)
    ensures |Trim(s, p)| <= |s|
    ensures |Trim(s, p)| == |s| ==> Trim(s, p) == s
    ensures Trimmed(s, p) ==> Trim(s, p) == s
  {
    hide LTrim, RTrim;
    LTrimShape(s, p);
    RTrimShape(LTrim(s, p), p);
    var l := LTrim(s, p);
    var t := Trim(s, p);
    assert t == l[..|t|];
    assert t != "" ==> l[0] == t[0];
    assert Trimmed(s, p) && s != "" ==> p(s[0]) == false && l == s;
  }

  predicate StartsWith(s: string, t: string) {
    |t| <= |s| && s[..|t|] == t
  }

  predicate EndsWith(s: string, t: string) {
    |t| <= |s| && s[|s| - |t|..] == t
  }

  /** Index of the first `c` in `s`, or `|s|`. */
  function Find(s: string, c: char): (k: nat)
    ensures k <= |s|
    ensures c !in s[..k]
    ensures k < |s| ==> s[k] == c
  {
    if s == "" || s[0] == c then 0
    else
      var k := 1 + Find(s[1..], c);
      assert s[..k] == [s[0]] + s[1..][..k - 1];
      k
  }

  /** `s.split(c)`: never empty, and no part holds `c`. */
  function Split(s: string, c: char): (parts: seq<string>)
    ensures |parts| >= 1
    ensures forall i :: 0 <= i < |parts| ==> c !in parts[i]
    decreases |s|
  {
    var k := Find(s, c);
    if k == |s| then [s] else [s[..k]] + Split(s[k + 1..], c)
  }

  /** `c.join(parts)`. */
  function Join(parts: seq<string>, c: char): string {
    if parts == [] then "" else if |parts| == 1 then parts[0] else parts[0] + [c] + Join(parts[1..], c)
  }

  /** The text before and after the first `c`. */
  lemma Cut(s: string, c: char) returns (head: string, rest: string)
    requires c in s
    ensures s == head + [c] + rest && c !in head
  {
    var k := Find(s, c);
    assert s[..|s|] == s;
    head, rest := s[..k], s[k + 1..];
  }

  lemma FindAt(a: string, c: char, b: string)
    requires c !in a
    ensures Find(a + [c] + b, c) == |a|
  {
    var s := a + [c] + b;
    var k := Find(s, c);
    hide Find;
    assert s[|a|] == c;
    assert forall i :: 0 <= i < |a| ==> s[i] == a[i] && a[i] in a;
    assert forall i :: 0 <= i < k ==> s[i] in s[..k];
  }

  lemma SplitAt(a: string, c: char, b: string)
    requires c !in a
    ensures Split(a + [c] + b, c) == [a] + Split(b, c)
  {
    var s := a + [c] + b;
    FindAt(a, c, b);
    assert s[..|a|] == a && s[|a| + 1..] == b;
    hide Find;
    assert Split(s, c) == [s[..|a|]] + Split(s[|a| + 1..], c);
  }

  lemma SplitNone(s: string, c: char)
    requires c !in s
    ensures Split(s, c) == [s]
  {
    assert forall i :: 0 <= i < |s| ==> s[i] in s;
  }

  /** Splitting at one separator splits both sides. */
  lemma {:induction false} SplitAppend(a: string, b: string, c: char)
    ensures Split(a + [c] + b, c) == Split(a, c) + Split(b, c)
    decreases |a|
  {
    hide Split, Find;
    if c !in a {
      SplitNone(a, c);
      SplitAt(a, c, b);
    } else {
      var head, rest := Cut(a, c);
      assert a + [c] + b == head + [c] + (rest + [c] + b);
      SplitAt(head, c, rest + [c] + b);
      SplitAt(head, c, rest);
      SplitAppend(rest, b, c);
    }
  }

  lemma JoinCons(head: string, parts: seq<string>, c: char)
    requires parts != []
    ensures Join([head] + parts, c) == head + [c] + Join(parts, c)
  {
    assert ([head] + parts)[1..] == parts;
  }

  lemma {:induction false} JoinSplit(s: string, c: char)
    ensures Join(Split(s, c), c) == s
    decreases |s|
  {
    hide Split, Find;
    if c !in s {
      SplitNone(s, c);
    } else {
      var head, rest := Cut(s, c);
      SplitAt(head, c, rest);
      JoinSplit(rest, c);
      JoinCons(head, Split(rest, c), c);
    }
  }

  /** `split` undoes `join` on parts that do not hold the separator. */
  lemma {:induction false} SplitJoin(parts: seq<string>, c: char)
    requires parts != []
    requires forall i :: 0 <= i < |parts| ==> c !in parts[i]
    ensures Split(Join(parts, c), c) == parts
  {
    hide Split, Find;
    if |parts| == 1 {
      SplitNone(parts[0], c);
    } else {
      SplitJoin(parts[1..], c);
      SplitAt(parts[0], c, Join(parts[1..], c));
    }
  }

  // ------------------------------------------------------------- order

  /** Python's `<` on strings: by code point, a proper prefix first. */
  predicate Less(a: string, b: string) {
    b != "" && (a == "" || a[0] < b[0] || (a[0] == b[0] && Less(a[1..], b[1..])))
  }

  lemma {:induction false} LessTotal(a: string, b: string)
    ensures Less(a, b) || a == b || Less(b, a)
  {
    if a != "" && b != "" && a[0] == b[0] {
      LessTotal(a[1..], b[1..]);
      assert a == [a[0]] + a[1..] && b == [b[0]] + b[1..];
    }
  }

  lemma {:induction false} LessIrreflexive(a: string)
    ensures !Less(a, a)
  {
    if a != "" { LessIrreflexive(a[1..]); }
  }

  lemma {:induction false} LessTransitive(a: string, b: string, c: string)
    requires Less(a, b) && Less(b, c)
    ensures Less(a, c)
  {
    if a != "" && a[0] == b[0] && b[0] == c[0] {
      LessTransitive(a[1..], b[1..], c[1..]);
    }
  }

  predicate StrictlySorted(s: seq<string>) {
    forall i, j :: 0 <= i < j < |s| ==> Less(s[i], s[j])
  }

  lemma SortedHead(s: seq<string>, t: seq<string>)
    requires s != [] && t != [] && StrictlySorted(s) && StrictlySorted(t)
    requires s[0] in t && t[0] in s
    ensures s[0] == t[0]
  {
    hide Less;
    var j :| 0 <= j < |t| && t[j] == s[0];
    var i :| 0 <= i < |s| && s[i] == t[0];
    LessIrreflexive(s[0]);
    if i > 0 && j > 0 {
      assert Less(s[0], s[i]) && Less(t[0], t[j]);
      LessTransitive(s[0], t[0], s[0]);
    }
  }

  /** `sorted` on distinct strings has one possible result. */
  lemma {:induction false} SortedUnique(s: seq<string>, t: seq<string>)
    requires StrictlySorted(s) && StrictlySorted(t)
    requires forall x :: x in s <==> x in t
    ensures s == t
  {
    hide Less;
    assert t != [] ==> t[0] in t;
    if s != [] {
      assert s[0] in s && t != [] && t[0] in t;
      SortedHead(s, t);
      forall x ensures x in s[1..] <==> x in t[1..] {
        TailMember(s, x);
        TailMember(t, x);
      }
      SortedUnique(s[1..], t[1..]);
      assert s == [s[0]] + s[1..] && t == [t[0]] + t[1..];
    }
  }

  lemma TailMember(s: seq<string>, x: string)
    requires StrictlySorted(s) && s != []
    ensures x in s[1..] <==> x in s && x != s[0]
  {
    hide Less;
    if x in s[1..] {
      var i :| 0 <= i < |s[1..]| && s[1..][i] == x;
      assert Less(s[0], s[i + 1]);
      LessIrreflexive(s[0]);
    }
    if x in s && x != s[0] {
      var i :| 0 <= i < |s| && s[i] == x;
      assert s[1..][i - 1] == x;
    }
  }

  lemma {:induction false} Least(s: set<string>) returns (m: string)
    requires s != {}
    ensures m in s && forall x :: x in s && x != m ==> Less(m, x)
  {
    var y :| y in s;
    if s == {y} {
      m := y;
    } else {
      assert s - {y} != {} by { assert s != {y}; }
      var k := Least(s - {y});
      LessTotal(k, y);
      if Less(k, y) {
        m := k;
      } else {
        m := y;
        forall x | x in s && x != m ensures Less(m, x) {
          if x != k { assert Less(k, x); LessTransitive(y, k, x); }
        }
      }
    }
  }

  ghost predicate IsLeast(s: set<string>, m: string) {
    m in s && forall x :: x in s && x != m ==> Less(m, x)
  }

  /** The members of `s` in ascending order. */
  ghost function SortedSeq(s: set<string>): (r: seq<string>)
    ensures StrictlySorted(r)
    ensures forall x :: x in r <==> x in s
  {
    if s == {} then []
    else
      assert exists m :: IsLeast(s, m) by { var m := Least(s); assert IsLeast(s, m); }
      var m :| IsLeast(s, m);
      Prepend(m, SortedSeq(s - {m}));
      [m] + SortedSeq(s - {m})
  }

  lemma Prepend(m: string, rest: seq<string>)
    requires StrictlySorted(rest) && forall x :: x in rest ==> Less(m, x)
    ensures StrictlySorted([m] + rest)
    ensures forall x :: x in [m] + rest <==> x == m || x in rest
  {
    assert forall i :: 0 <= i < |rest| ==> rest[i] in rest;
  }

  /** `sorted(s)`. */
  method SortStrings(s: set<string>) returns (r: seq<string>)
    ensures r == SortedSeq(s)
  {
    r := [];
    var left := s;
    while left != {}
      invariant left <= s
      invariant StrictlySorted(r)
      invariant forall x :: x in r <==> x in s && x !in left
    {
      var x :| x in left;
      r := Insert(r, x);
      left := left - {x};
    }
    SortedUnique(r, SortedSeq(s));
  }

  method Insert(s: seq<string>, x: string) returns (r: seq<string>)
    requires StrictlySorted(s) && x !in s
    ensures StrictlySorted(r)
    ensures forall y :: y in r <==> y == x || y in s
  {
    var k := 0;
    while k < |s| && Less(s[k], x)
      invariant 0 <= k <= |s|
      invariant forall i :: 0 <= i < k ==> Less(s[i], x)
    {
      k := k + 1;
    }
    r := s[..k] + [x] + s[k..];
    if k < |s| {
      LessTotal(s[k], x);
      assert s[k] in s;
      forall j | k < j < |s| ensures Less(x, s[j]) { LessTransitive(x, s[k], s[j]); }
    }
  }
}
