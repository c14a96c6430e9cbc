/** The asset filters in a query string (dashboard/service.py), percent-coded after sections 2.1 and 2.3 of RFC 3986.
    A character stands for one byte of the UTF-8 form of a text. */
module Filters {
  import opened Basics
  import opened Text

  const KEYS: seq<string> := [
    "q", "source", "tag", "alive", "run", "scope", "host", "ip", "ports", "length", "tech", "first_seen", "last_seen"]

  predicate Allowed(key: string) {
    key in KEYS
  }

  predicate Bytes(s: string) {
    forall i :: 0 <= i < |s| ==> s[i] as int < 256
  }

  // ------------------------------------------------------------- percent coding

  predicate Unreserved(c: char) {
    'a' <= c <= 'z' || 'A' <= c <= 'Z' || '0' <= c <= '9' || c == '_' || c == '.' || c == '-' || c == '~'
  }

  function HexDigit(n: int): char
    requires 0 <= n < 16
  {
    if n < 10 then ('0' as int + n) as char else ('A' as int + n - 10) as char
  }

  /** The value of a hexadecimal digit of either case. */
  function HexValue(c: char): Option<int> {
    if '0' <= c <= '9' then Some(c as int - '0' as int)
    else if 'A' <= c <= 'F' then Some(c as int - 'A' as int + 10)
    else if 'a' <= c <= 'f' then Some(c as int - 'a' as int + 10)
    else None
  }

  predicate IsEscape(s: string) {
    |s| >= 3 && s[0] == '%' && HexValue(s[1]).Some? && HexValue(s[2]).Some?
  }

  function QuoteChar(c: char): string
    requires c as int < 256
  {
    if Unreserved(c) then [c] else ['%', HexDigit(c as int / 16), HexDigit(c as int % 16)]
  }

  /** `quote` with nothing safe but the unreserved characters. */
  function Quote(s: string): string
    requires Bytes(s)
  {
    if s == "" then "" else QuoteChar(s[0]) + Quote(s[1..])
  }

  /** `unquote`: an incomplete or foreign escape stands for itself. */
  function Unquote(s: string): string
    decreases |s|
  {
    if s == "" then ""
    else if IsEscape(s) then
      [(HexValue(s[1]).value * 16 + HexValue(s[2]).value) as char] + Unquote(s[3..])
    else [s[0]] + Unquote(s[1..])
  }

  lemma HexRoundTrip(n: int)
    requires 0 <= n < 16
    ensures HexValue(HexDigit(n)) == Some(n)
  {
  }

  lemma QuoteCharBack(c: char, rest: string)
    requires c as int < 256
    ensures Unquote(QuoteChar(c) + rest) == [c] + Unquote(rest)
  {
    var s := QuoteChar(c) + rest;
    if Unreserved(c) {
      assert s[0] == c && s[1..] == rest;
    } else {
      HexRoundTrip(c as int / 16);
      HexRoundTrip(c as int % 16);
      hide HexValue, HexDigit;
      assert s[0] == '%' && s[1] == HexDigit(c as int / 16) && s[2] == HexDigit(c as int % 16) && s[3..] == rest;
    }
  }

  /** Every byte survives the percent coding. */
  lemma {:induction false} QuoteBack(s: string)
    requires Bytes(s)
    ensures Unquote(Quote(s)) == s
  {
    if s != "" {
      QuoteBack(s[1..]);
      QuoteCharBack(s[0], Quote(s[1..]));
      hide Unquote, QuoteChar;
      assert [s[0]] + s[1..] == s;
    }
  }

  /** No coded value holds a separator of the query. */
  lemma {:induction false} QuoteSafe(s: string)
    requires Bytes(s)
    ensures '&' !in Quote(s) && '=' !in Quote(s)
  {
    if s != "" { QuoteSafe(s[1..]); }
  }

  // ------------------------------------------------------------- the query

  ghost predicate AllBytes(filters: map<string, string>) {
    forall k :: k in filters ==> Bytes(filters[k])
  }

  function Pairs(keys: seq<string>, filters: map<string, string>): (r: seq<string>)
    requires forall k :: k in keys ==> k in filters && Bytes(filters[k])
  {
    if keys == [] then []
    else
      var k := keys[|keys| - 1];
      Pairs(keys[..|keys| - 1], filters) + if Strip(filters[k]) != "" then [k + "=" + Quote(filters[k])] else []
  }

  ghost function Serialized(filters: map<string, string>): string
    requires AllBytes(filters)
  {
    Join(Pairs(SortedSeq(filters.Keys), filters), '&')
  }

  method PairLines(keys: seq<string>, filters: map<string, string>) returns (pairs: seq<string>)
    requires forall k :: k in keys ==> k in filters && Bytes(filters[k])
    ensures pairs == Pairs(keys, filters)
  {
    hide Quote, Strip, Bytes;
    pairs := [];
    for i := 0 to |keys|
      invariant pairs == Pairs(keys[..i], filters)
    {
      assert keys[i] in keys;
      assert keys[..i + 1][..i] == keys[..i] && keys[..i + 1][i] == keys[i];
      var k := keys[i];
      if Strip(filters[k]) != "" { pairs := pairs + [k + "=" + Quote(filters[k])]; }
    }
    assert keys[..|keys|] == keys;
  }

  /** `serialize_filters`. */
  method SerializeFilters(filters: map<string, string>) returns (query: string)
    requires AllBytes(filters)
    ensures query == Serialized(filters)
  {
    hide Pairs, Join, SortedSeq, Bytes;
    var keys := SortStrings(filters.Keys);
    var pairs := PairLines(keys, filters);
    query := Join(pairs, '&');
  }

  /** What one chunk of a query sets. */
  function Setting(chunk: string): Option<(string, string)> {
    if chunk == "" || '=' !in chunk then None
    else
      var k := Find(chunk, '=');
      if Allowed(chunk[..k]) then Some((chunk[..k], Unquote(chunk[if k < |chunk| then k + 1 else k..]))) else None
  }

  function Settings(chunks: seq<string>): map<string, string> {
    if chunks == [] then map[]
    else
      var before := Settings(chunks[..|chunks| - 1]);
      match Setting(chunks[|chunks| - 1])
      case None => before
      case Some((k, v)) => before[k := v]
  }

  /** `parse_filters_query`. */
  method ParseQuery(query: string) returns (filters: map<string, string>)
    ensures filters == Settings(Split(query, '&'))
  {
    hide Setting;
    filters := map[];
    var chunks := Split(query, '&');
    for i := 0 to |chunks|
      invariant filters == Settings(chunks[..i])
    {
      assert chunks[..i + 1][..i] == chunks[..i];
      var setting := Setting(chunks[i]);
      if setting.Some? { filters := filters[setting.value.0 := setting.value.1]; }
    }
    assert chunks[..|chunks|] == chunks;
  }

  // ------------------------------------------------------------- the round trip

  lemma {:induction false} KeysPlain(n: nat)
    requires n <= |KEYS|
    ensures forall i :: 0 <= i < n ==> '&' !in KEYS[i] && '=' !in KEYS[i]
  {
  }

  lemma PairSets(k: string, v: string)
    requires Allowed(k) && Bytes(v)
    ensures Setting(k + "=" + Quote(v)) == Some((k, v)) && '&' !in k + "=" + Quote(v)
  {
    KeysPlain(|KEYS|);
    QuoteSafe(v);
    QuoteBack(v);
    hide Quote, Unquote;
    FindAt(k, '=', Quote(v));
    var s := k + ['='] + Quote(v);
    assert s == k + "=" + Quote(v);
    assert s[..|k|] == k && s[|k| + 1..] == Quote(v) && s[|k|] == '=';
  }

  /** The filters that have a value. */
  function Valued(filters: map<string, string>): map<string, string> {
    map k | k in filters && Strip(filters[k]) != "" :: filters[k]
  }

  lemma SettingsNext(chunks: seq<string>, chunk: string)
    ensures Settings(chunks + [chunk]) == match Setting(chunk) case None => Settings(chunks) case Some((k, v)) => Settings(chunks)[k := v]
  {
    assert (chunks + [chunk])[..|chunks|] == chunks;
  }

  lemma SettingsNone()
    ensures Settings([]) == map[] && Settings([""]) == map[]
  {
    assert [""][..0] == [] && Setting("").None?;
  }

  lemma {:induction false} PairsSet(keys: seq<string>, filters: map<string, string>)
    requires forall k :: k in keys ==> k in filters && Bytes(filters[k]) && Allowed(k)
    ensures forall k :: k in Settings(Pairs(keys, filters)) <==> k in keys && Strip(filters[k]) != ""
    ensures forall k :: k in Settings(Pairs(keys, filters)) ==> Settings(Pairs(keys, filters))[k] == filters[k]
    ensures forall i :: 0 <= i < |Pairs(keys, filters)| ==> '&' !in Pairs(keys, filters)[i]
  {
    hide Quote, Strip, Setting, Allowed, Bytes, Settings;
    SettingsNone();
    if keys != [] {
      var n := |keys| - 1;
      assert keys == keys[..n] + [keys[n]];
      PairsSet(keys[..n], filters);
      var k := keys[n];
      var pairs := Pairs(keys[..n], filters);
      PairSets(k, filters[k]);
      SettingsNext(pairs, k + "=" + Quote(filters[k]));
      assert pairs + [] == pairs;
    }
  }

  lemma SettingsKeys(chunks: seq<string>)
    ensures forall k :: k in Settings(chunks) ==> Allowed(k)
  {
    if chunks != [] { SettingsKeys(chunks[..|chunks| - 1]); }
  }

  /** With allowed keys only, exactly the filters with a value come back. */
  lemma AllowedReadBack(filters: map<string, string>)
    requires AllBytes(filters) && forall k :: k in filters ==> Allowed(k)
    ensures Settings(Split(Serialized(filters), '&')) == Valued(filters)
  {
    hide Quote, Strip, Setting, Allowed, Bytes, Settings, Pairs;
    var keys := SortedSeq(filters.Keys);
    var pairs := Pairs(keys, filters);
    PairsSet(keys, filters);
    SettingsNone();
    if pairs == [] {
      SplitNone("", '&');
    } else {
      SplitJoin(pairs, '&');
    }
    assert Settings(Split(Serialized(filters), '&')) == Settings(pairs);
    assert Settings(pairs) == Valued(filters);
  }

  /** Parsing what was serialized gives the filters back exactly when every key is an allowed one and every value says
      something. */
  lemma RoundTripExactly(filters: map<string, string>)
    requires AllBytes(filters)
    ensures Settings(Split(Serialized(filters), '&')) == filters <==>
      forall k :: k in filters ==> Allowed(k) && Strip(filters[k]) != ""
  {
    hide Strip, Serialized, Settings, Split, Allowed;
    SettingsKeys(Split(Serialized(filters), '&'));
    if forall k :: k in filters ==> Allowed(k) {
      AllowedReadBack(filters);
      if Valued(filters) == filters {
        forall k | k in filters ensures Strip(filters[k]) != "" { assert k in Valued(filters); }
      }
    }
  }
}
