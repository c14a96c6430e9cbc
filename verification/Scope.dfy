/** The authorization gate (pipeline/scope.py): which candidates the written scope admits. Reading addresses, networks and
    URLs is the standard library's business and enters as parameters. */
module Scope {
  import opened Basics
  import opened Text

  // ------------------------------------------------------------- names and labels

  function Labels(name: string): seq<string> {
    Split(name, '.')
  }

  /** `b` is a tail of `a`. */
  predicate Tail(a: seq<string>, b: seq<string>) {
    |b| <= |a| && a[|a| - |b|..] == b
  }

  /** `host` lies under `base`: it ends with a dot and `base`. */
  predicate Under(host: string, base: string) {
    EndsWith(host, "." + base)
  }

  lemma UnderSplits(host: string, base: string)
    requires Under(host, base)
    ensures var rel := host[..|host| - |base| - 1];
      host == rel + "." + base && Labels(host) == Labels(rel) + Labels(base)
  {
    var rel := host[..|host| - |base| - 1];
    assert host == rel + ("." + base);
    assert host == rel + ['.'] + base;
    SplitAppend(rel, base, '.');
  }

  lemma {:induction false} JoinAppend(a: seq<string>, b: seq<string>, c: char)
    requires a != [] && b != []
    ensures Join(a + b, c) == Join(a, c) + [c] + Join(b, c)
  {
    if |a| == 1 {
      JoinCons(a[0], b, c);
      assert a + b == [a[0]] + b;
    } else {
      JoinAppend(a[1..], b, c);
      assert a + b == [a[0]] + (a[1..] + b);
      JoinCons(a[0], a[1..] + b, c);
      JoinCons(a[0], a[1..], c);
      assert a == [a[0]] + a[1..];
      assert a[0] + [c] + (Join(a[1..], c) + [c] + Join(b, c)) == (a[0] + [c] + Join(a[1..], c)) + [c] + Join(b, c);
    }
  }

  lemma JoinedUnder(host: string, rel: string, base: string)
    requires host == rel + ['.'] + base
    ensures Under(host, base)
  {
    assert host == rel + ("." + base);
  }

  lemma TailJoins(h: seq<string>, b: seq<string>)
    requires b != [] && Tail(h, b)
    ensures h == b || exists rel :: Join(h, '.') == rel + ['.'] + Join(b, '.')
  {
    var head := h[..|h| - |b|];
    assert h == head + b;
    hide Join;
    if head != [] { JoinAppend(head, b, '.'); }
  }

  lemma TailIsSuffix(host: string, base: string)
    requires Tail(Labels(host), Labels(base))
    ensures host == base || Under(host, base)
  {
    JoinSplit(host, '.');
    JoinSplit(base, '.');
    TailJoins(Labels(host), Labels(base));
    hide Split, Join, Under, EndsWith, Tail;
    if Labels(host) != Labels(base) {
      var rel :| host == rel + ['.'] + base;
      JoinedUnder(host, rel, base);
    }
  }

  /** Ending with a dot and a base, or being the base, is having its labels as last labels; for all strings. */
  lemma SuffixIsLabelTail(host: string, base: string)
    ensures host == base || Under(host, base) <==> Tail(Labels(host), Labels(base))
    ensures Under(host, base) <==> host != base && Tail(Labels(host), Labels(base))
  {
    if Under(host, base) {
      UnderSplits(host, base);
      var rel := Labels(host[..|host| - |base| - 1]);
      hide Labels;
      assert Labels(host)[|rel|..] == Labels(base);
    }
    if Tail(Labels(host), Labels(base)) { TailIsSuffix(host, base); }
    hide Labels;
    assert Under(host, base) ==> |host| > |base|;
  }

  // ------------------------------------------------------------- addresses

  datatype Address = Address(version: int, value: nat)

  /** A block of addresses of one version. */
  datatype Network = Network(version: int, first: nat, size: nat)

  predicate In(a: Address, n: Network) {
    a.version == n.version && n.first <= a.value < n.first + n.size
  }

  predicate InAny(a: Address, ns: seq<Network>) {
    ns != [] && (In(a, ns[0]) || InAny(a, ns[1..]))
  }

  // ------------------------------------------------------------- the gate

  /** `network`, `address` and `hostname` are what the library reads a text as. */
  datatype Gate = Gate(
    includes: seq<string>, excludes: seq<string>, rfc1918: seq<Network>, loopback: seq<Network>, linkLocal: seq<Network>,
    cloud: seq<string>, network: string -> Option<Network>, address: string -> Option<Address>,
    hostname: string -> Option<string>)

  datatype Answer =
    | Empty | NoHost
    | ExcludedAddress | Private(range: string) | InScopeAddress | NotIncluded | NoAddressIncludes
    | ExcludedHost | Cloud(suffix: string) | InScopeHost | HostNotIncluded

  predicate Allowed(a: Answer) {
    a == InScopeAddress || a == InScopeHost
  }

  function NetworksFrom(g: Gate, entries: seq<string>): seq<Network> {
    if entries == [] then []
    else (if g.network(entries[0]).Some? then [g.network(entries[0]).value] else []) + NetworksFrom(g, entries[1..])
  }

  /** An autonomous-system entry: AS and digits. */
  predicate IsAsn(token: string) {
    |token| > 2 && Lower(token[..2]) == "as" && forall i :: 2 <= i < |token| ==> '0' <= token[i] <= '9'
  }

  function Token(entry: string): string {
    RTrim(Lower(Strip(entry)), IsDot)
  }

  predicate HostMatch(host: string, pattern: string) {
    if StartsWith(pattern, "*.") then host == pattern[2..] || Under(host, pattern[2..]) else host == pattern
  }

  /** An entry that speaks of hosts, not of addresses or autonomous systems. */
  predicate HostEntry(g: Gate, token: string) {
    !IsAsn(token) && g.network(token).None? && g.address(token).None?
  }

  predicate MatchesAny(g: Gate, host: string, entries: seq<string>) {
    entries != [] &&
      var token := Token(entries[0]);
      (HostEntry(g, token) && HostMatch(RTrim(Lower(host), IsDot), token)) || MatchesAny(g, host, entries[1..])
  }

  function CloudSuffix(host: string, suffixes: seq<string>): Option<string> {
    if suffixes == [] then None
    else if host == suffixes[0] || Under(host, suffixes[0]) then Some(suffixes[0])
    else CloudSuffix(host, suffixes[1..])
  }

  ghost function ValidateAddress(g: Gate, a: Address): Answer {
    var includes := NetworksFrom(g, g.includes);
    if InAny(a, NetworksFrom(g, g.excludes)) then ExcludedAddress
    else if InAny(a, g.rfc1918) && !InAny(a, includes) then Private("RFC1918")
    else if InAny(a, g.loopback) && !InAny(a, includes) then Private("loopback")
    else if InAny(a, g.linkLocal) && !InAny(a, includes) then Private("link-local")
    else if includes != [] && InAny(a, includes) then InScopeAddress
    else if includes != [] then NotIncluded
    else NoAddressIncludes
  }

  function ValidateHost(g: Gate, host: string): Answer {
    if MatchesAny(g, host, g.excludes) then ExcludedHost
    else
      var cloud := CloudSuffix(host, g.cloud);
      if cloud.Some? && !MatchesAny(g, host, g.includes) then Cloud(cloud.value)
      else if MatchesAny(g, host, g.includes) then InScopeHost
      else HostNotIncluded
  }

  predicate HasScheme(value: string) {
    |value| >= 3 && (value[..3] == "://" || HasScheme(value[1..]))
  }

  /** A host name read out of a URL is no URL. */
  ghost predicate Readable(g: Gate) {
    forall v :: g.hostname(v).Some? ==> !HasScheme(Strip(g.hostname(v).value))
  }

  /** `validate_candidate`. */
  ghost function Validate(g: Gate, candidate: string): Answer
    requires Readable(g)
    decreases if HasScheme(Strip(candidate)) then 1 else 0
  {
    var value := Strip(candidate);
    if value == "" then Empty
    else if HasScheme(value) then
      match g.hostname(value)
      case None => NoHost
      case Some(host) => if host == "" then NoHost else Validate(g, host)
    else if g.address(value).Some? then ValidateAddress(g, g.address(value).value)
    else ValidateHost(g, RTrim(Lower(value), IsDot))
  }

  // ------------------------------------------------------------- what is accepted

  /** `entry` covers `host`: the same name or, for a wildcard, its labels as the last labels of the host. */
  predicate Covers(g: Gate, entry: string, host: string) {
    var token := Token(entry);
    && HostEntry(g, token)
    && if StartsWith(token, "*.") then Tail(Labels(host), Labels(token[2..])) else host == token
  }

  lemma MatchIsCover(g: Gate, host: string, entry: string)
    ensures HostEntry(g, Token(entry)) && HostMatch(host, Token(entry)) <==> Covers(g, entry, host)
  {
    var token := Token(entry);
    if StartsWith(token, "*.") { SuffixIsLabelTail(host, token[2..]); }
    hide Token, Labels;
  }

  lemma {:induction false} MatchesExactly(g: Gate, host: string, entries: seq<string>)
    requires RTrim(Lower(host), IsDot) == host
    ensures MatchesAny(g, host, entries) <==> exists i :: 0 <= i < |entries| && Covers(g, entries[i], host)
  {
    hide Token, HostEntry, HostMatch, Covers;
    if entries != [] {
      MatchesExactly(g, host, entries[1..]);
      MatchIsCover(g, host, entries[0]);
      if i :| 0 <= i < |entries| && Covers(g, entries[i], host) {
        if i > 0 { assert entries[1..][i - 1] == entries[i]; }
      }
      if i :| 0 <= i < |entries[1..]| && Covers(g, entries[1..][i], host) { assert entries[i + 1] == entries[1..][i]; }
    }
  }

  lemma {:induction false} LowerTrim(s: string)
    ensures RTrim(Lower(RTrim(Lower(s), IsDot)), IsDot) == RTrim(Lower(s), IsDot)
  {
    var r := RTrim(Lower(s), IsDot);
    RTrimShape(Lower(s), IsDot);
    assert Lower(r) == r;
  }

  /** `entry` is a network that contains the address. */
  predicate Contains(g: Gate, entry: string, a: Address) {
    g.network(entry).Some? && In(a, g.network(entry).value)
  }

  lemma NetworksStep(g: Gate, entries: seq<string>, a: Address)
    requires entries != []
    ensures InAny(a, NetworksFrom(g, entries)) <==>
      Contains(g, entries[0], a) || InAny(a, NetworksFrom(g, entries[1..]))
  {
    var rest := NetworksFrom(g, entries[1..]);
    if g.network(entries[0]).Some? {
      assert ([g.network(entries[0]).value] + rest)[1..] == rest;
    } else {
      assert [] + rest == rest;
    }
  }

  lemma {:induction false} NetworksExactly(g: Gate, entries: seq<string>, a: Address)
    ensures InAny(a, NetworksFrom(g, entries)) <==> exists i :: 0 <= i < |entries| && Contains(g, entries[i], a)
  {
    hide Contains;
    if entries != [] {
      NetworksExactly(g, entries[1..], a);
      NetworksStep(g, entries, a);
      hide InAny, NetworksFrom;
      if i :| 0 <= i < |entries| && Contains(g, entries[i], a) {
        if i > 0 { assert entries[1..][i - 1] == entries[i]; }
      }
      if i :| 0 <= i < |entries[1..]| && Contains(g, entries[1..][i], a) { assert entries[i + 1] == entries[1..][i]; }
    }
  }

  /** An address is accepted exactly when no exclude contains it and some include does: the private ranges only choose
      the reason. */
  lemma AddressExactly(g: Gate, a: Address)
    ensures Allowed(ValidateAddress(g, a)) <==>
      && !(exists i :: 0 <= i < |g.excludes| && Contains(g, g.excludes[i], a))
      && exists i :: 0 <= i < |g.includes| && Contains(g, g.includes[i], a)
  {
    NetworksExactly(g, g.includes, a);
    NetworksExactly(g, g.excludes, a);
    assert !InAny(a, []);
    hide InAny, NetworksFrom, Contains;
  }

  /** A host is accepted exactly when no exclude covers it and some include does: the cloud suffixes only choose the
      reason. */
  lemma HostExactly(g: Gate, host: string)
    requires RTrim(Lower(host), IsDot) == host
    ensures Allowed(ValidateHost(g, host)) <==>
      && !(exists i :: 0 <= i < |g.excludes| && Covers(g, g.excludes[i], host))
      && exists i :: 0 <= i < |g.includes| && Covers(g, g.includes[i], host)
  {
    MatchesExactly(g, host, g.includes);
    MatchesExactly(g, host, g.excludes);
    hide MatchesAny, Covers, CloudSuffix, RTrim, Lower;
  }

  /** What a candidate is judged as: nothing, an address, or a host in normal form. */
  datatype Subject = Nothing | AnAddress(address: Address) | AHost(host: string)

  ghost function SubjectOf(g: Gate, candidate: string): Subject
    requires Readable(g)
    decreases if HasScheme(Strip(candidate)) then 1 else 0
  {
    var value := Strip(candidate);
    if value == "" then Nothing
    else if HasScheme(value) then
      if g.hostname(value).None? || g.hostname(value).value == "" then Nothing else SubjectOf(g, g.hostname(value).value)
    else if g.address(value).Some? then AnAddress(g.address(value).value)
    else AHost(RTrim(Lower(value), IsDot))
  }

  ghost predicate Excluded(g: Gate, s: Subject) {
    exists i :: 0 <= i < |g.excludes| && Speaks(g, g.excludes[i], s)
  }

  ghost predicate Included(g: Gate, s: Subject) {
    exists i :: 0 <= i < |g.includes| && Speaks(g, g.includes[i], s)
  }

  /** An entry speaks of a subject: its network contains the address, or its name covers the host. */
  predicate Speaks(g: Gate, entry: string, s: Subject) {
    match s
    case Nothing => false
    case AnAddress(a) => Contains(g, entry, a)
    case AHost(h) => Covers(g, entry, h)
  }

  /** Acceptance of any candidate, URL, address or name: no exclude speaks of it and some include does. */
  lemma {:induction false} AcceptedExactly(g: Gate, candidate: string)
    requires Readable(g)
    ensures Allowed(Validate(g, candidate)) <==>
      var s := SubjectOf(g, candidate); !Excluded(g, s) && Included(g, s)
    decreases if HasScheme(Strip(candidate)) then 1 else 0
  {
    hide Covers, Contains, ValidateAddress, ValidateHost, Strip, RTrim, Lower;
    var value := Strip(candidate);
    if value == "" {
    } else if HasScheme(value) {
      var host := g.hostname(value);
      if host.Some? && host.value != "" { AcceptedExactly(g, host.value); }
    } else if g.address(value).Some? {
      AddressExactly(g, g.address(value).value);
    } else {
      LowerTrim(value);
      HostExactly(g, RTrim(Lower(value), IsDot));
    }
  }
}
