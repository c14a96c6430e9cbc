/** The .env file behind the key panel (dashboard/service.py): read into a map, rewritten without losing comments. */
module EnvFile {
  import opened Basics
  import opened Lines
  import opened Text

  // ------------------------------------------------------------- reading

  predicate IsDouble(c: char) {
    c == '"'
  }

  predicate IsSingle(c: char) {
    c == '\''
  }

  function Unquote(v: string): string {
    Trim(Trim(Strip(v), IsDouble), IsSingle)
  }

  /** The key and the value of a line, unless it is blank, a comment or no assignment. */
  function Parse(line: string): Option<(string, string)> {
    var s := Strip(line);
    if s == "" || s[0] == '#' || '=' !in s then None
    else
      var k := Find(s, '=');
      Some((Strip(s[..k]), Unquote(s[if k < |s| then k + 1 else k..])))
  }

  function ReadLines(lines: seq<string>): map<string, string> {
    if lines == [] then map[]
    else
      var before := ReadLines(lines[..|lines| - 1]);
      match Parse(lines[|lines| - 1])
      case None => before
      case Some((k, v)) => before[k := v]
  }

  /** `order` is the order of the keys of `env` in the program's dict. */
  ghost predicate OrderOf(order: seq<string>, env: map<string, string>) {
    forall k :: k in order <==> k in env
  }

  /** `_read_env_map`, with the order of the keys in the program's dict; a missing file reads like an empty one. */
  method ReadEnv(text: string) returns (env: map<string, string>, order: seq<string>)
    ensures env == ReadLines(SplitLines(text)) && OrderOf(order, env)
  {
    hide Parse;
    env, order := map[], [];
    var lines := SplitLines(text);
    for i := 0 to |lines|
      invariant env == ReadLines(lines[..i]) && OrderOf(order, env)
    {
      assert lines[..i + 1][..i] == lines[..i];
      var parsed := Parse(lines[i]);
      if parsed.Some? {
        if parsed.value.0 !in env { order := order + [parsed.value.0]; }
        env := env[parsed.value.0 := parsed.value.1];
      }
    }
    assert lines[..|lines|] == lines;
  }

  // ------------------------------------------------------------- writing

  function PairLine(k: string, v: string): string {
    k + "=" + v
  }

  /** The old lines with every known assignment rewritten and every other one dropped. */
  function Rewritten(prior: seq<string>, env: map<string, string>): seq<string> {
    if prior == [] then []
    else
      var line := prior[|prior| - 1];
      Rewritten(prior[..|prior| - 1], env)
      + match Parse(line)
        case None => [line]
        case Some((k, _)) => if k in env then [PairLine(k, env[k])] else []
  }

  function Seen(prior: seq<string>, env: map<string, string>): set<string> {
    if prior == [] then {}
    else
      Seen(prior[..|prior| - 1], env)
      + match Parse(prior[|prior| - 1])
        case None => {}
        case Some((k, _)) => if k in env then {k} else {}
  }

  /** Lines for the keys of `order` that the old file did not have. */
  function Added(order: seq<string>, env: map<string, string>, seen: set<string>): seq<string> {
    if order == [] then []
    else
      var k := order[|order| - 1];
      Added(order[..|order| - 1], env, seen) + if k in env && k !in seen then [PairLine(k, env[k])] else []
  }

  function Written(prior: seq<string>, order: seq<string>, env: map<string, string>): seq<string> {
    Rewritten(prior, env) + Added(order, env, Seen(prior, env))
  }

  function FileText(lines: seq<string>): string {
    var text := Join(lines, '\n');
    if text == "" then "" else text + "\n"
  }

  method RewriteLines(lines: seq<string>, env: map<string, string>) returns (out: seq<string>, seen: set<string>)
    ensures out == Rewritten(lines, env) && seen == Seen(lines, env)
  {
    hide Parse, PairLine;
    out, seen := [], {};
    for i := 0 to |lines|
      invariant out == Rewritten(lines[..i], env) && seen == Seen(lines[..i], env)
    {
      assert lines[..i + 1][..i] == lines[..i];
      match Parse(lines[i]) {
        case None => out := out + [lines[i]];
        case Some((k, _)) =>
          if k in env {
            out := out + [PairLine(k, env[k])];
            seen := seen + {k};
          }
      }
    }
    assert lines[..|lines|] == lines;
  }

  /** `_write_env_map`. */
  method WriteEnv(prior: string, order: seq<string>, env: map<string, string>) returns (text: string)
    ensures text == FileText(Written(SplitLines(prior), order, env))
  {
    hide SplitLines, Rewritten, Seen, PairLine;
    var out, seen := RewriteLines(SplitLines(prior), env);
    ghost var rewritten := out;
    for i := 0 to |order|
      invariant out == rewritten + Added(order[..i], env, seen)
    {
      assert order[..i + 1][..i] == order[..i];
      if order[i] in env && order[i] !in seen { out := out + [PairLine(order[i], env[order[i]])]; }
    }
    assert order[..|order|] == order;
    text := Join(out, '\n');
    if text != "" { text := text + "\n"; }
  }

  // ------------------------------------------------------------- which pairs survive

  /** A key that stands for itself in front of the equals sign. */
  predicate CleanKey(k: string) {
    Unbroken(k) && '=' !in k && Trimmed(k, IsSpace) && (k != "" ==> k[0] != '#')
  }

  /** A value that has nothing to strip. */
  predicate CleanValue(v: string) {
    Unbroken(v) && Unquote(v) == v
  }

  lemma {:induction false} TrimBoth(s: string)
    ensures Strip(RTrim(s, IsSpace)) == Strip(s)
    decreases |s|
  {
    var r := RTrim(s, IsSpace);
    if s != "" && IsSpace(s[|s| - 1]) {
      TrimBoth(s[..|s| - 1]);
      StripEnd(s);
    }
  }

  lemma {:induction false} StripEnd(s: string)
    requires s != "" && IsSpace(s[|s| - 1])
    ensures Strip(s[..|s| - 1]) == Strip(s)
  {
    var t := s[..|s| - 1];
    if IsSpace(s[0]) {
      if |s| > 1 {
        StripEnd(s[1..]);
        assert s[1..][..|s| - 2] == t[1..] && t[0] == s[0];
      }
    } else {
      assert |s| > 1 && t[0] == s[0];
      assert LTrim(s, IsSpace) == s;
      assert LTrim(t, IsSpace) == t;
    }
  }

  lemma {:induction false} RTrimBehind(a: string, b: string, p: char -> bool)
    requires a != "" && !p(a[|a| - 1])
    ensures RTrim(a + b, p) == a + RTrim(b, p)
  {
    if b != "" && p(b[|b| - 1]) {
      assert (a + b)[..|a + b| - 1] == a + b[..|b| - 1];
      RTrimBehind(a, b[..|b| - 1], p);
    } else if b == "" {
      assert a + b == a;
    }
  }

  /** The line of a pair with a clean key reads as that key and the unquoted value. */
  lemma PairReads(k: string, v: string)
    requires CleanKey(k)
    ensures Parse(PairLine(k, v)) == Some((k, Unquote(v)))
  {
    var head := k + "=";
    RTrimBehind(head, v, IsSpace);
    var rest := RTrim(v, IsSpace);
    var s := head + rest;
    assert LTrim(head + v, IsSpace) == head + v;
    assert Strip(PairLine(k, v)) == s;
    FindAt(k, '=', rest);
    assert k + ['='] + rest == s;
    assert s[|k|] == '=' && s[..|k|] == k && s[|k| + 1..] == rest;
    TrimShape(k, IsSpace);
    TrimBoth(v);
  }

  lemma TrimUnbroken(s: string, p: char -> bool)
    requires Unbroken(s)
    ensures Unbroken(Trim(s, p))
  {
    LTrimShape(s, p);
    RTrimShape(LTrim(s, p), p);
    hide LTrim, RTrim;
  }

  /** Whatever is read has a clean key and an unbroken value. */
  lemma ParsedClean(line: string)
    requires Unbroken(line) && Parse(line).Some?
    ensures CleanKey(Parse(line).value.0) && Unbroken(Parse(line).value.1)
  {
    var s := Strip(line);
    TrimUnbroken(line, IsSpace);
    TrimShape(line, IsSpace);
    var k := Find(s, '=');
    var key, value := s[..k], s[if k < |s| then k + 1 else k..];
    TrimUnbroken(key, IsSpace);
    TrimUnbroken(value, IsSpace);
    TrimUnbroken(Strip(value), IsDouble);
    TrimUnbroken(Trim(Strip(value), IsDouble), IsSingle);
    KeyKept(key);
    TrimShape(key, IsSpace);
    hide LTrim, RTrim;
  }

  /** Stripping takes nothing off a key that begins with a visible character but its end. */
  lemma KeyKept(key: string)
    requires Trimmed(key, IsSpace) || key == "" || !IsSpace(key[0])
    ensures |Strip(key)| <= |key| && Strip(key) == key[..|Strip(key)|]
  {
    assert LTrim(key, IsSpace) == key;
    RTrimShape(key, IsSpace);
  }

  lemma {:induction false} ReadClean(lines: seq<string>)
    requires forall i :: 0 <= i < |lines| ==> Unbroken(lines[i])
    ensures forall k :: k in ReadLines(lines) ==> CleanKey(k) && Unbroken(ReadLines(lines)[k])
  {
    hide Parse, CleanKey;
    if lines != [] {
      var n := |lines| - 1;
      ReadClean(lines[..n]);
      if Parse(lines[n]).Some? { ParsedClean(lines[n]); }
    }
  }

  // ------------------------------------------------------------- the round trip

  ghost predicate FromEnv(line: string, env: map<string, string>) {
    Parse(line).None? || exists k :: k in env && line == PairLine(k, env[k])
  }

  lemma {:induction false} RewrittenShape(prior: seq<string>, env: map<string, string>)
    ensures forall i :: 0 <= i < |Rewritten(prior, env)| ==> FromEnv(Rewritten(prior, env)[i], env)
    ensures forall k :: k in Seen(prior, env) ==> k in env && PairLine(k, env[k]) in Rewritten(prior, env)
  {
    hide Parse, PairLine;
    if prior != [] { RewrittenShape(prior[..|prior| - 1], env); }
  }

  lemma {:induction false} AddedShape(order: seq<string>, env: map<string, string>, seen: set<string>)
    ensures forall i :: 0 <= i < |Added(order, env, seen)| ==> FromEnv(Added(order, env, seen)[i], env)
    ensures forall k :: k in order && k in env && k !in seen ==> PairLine(k, env[k]) in Added(order, env, seen)
  {
    hide Parse, PairLine;
    if order != [] {
      var n := |order| - 1;
      AddedShape(order[..n], env, seen);
      assert order == order[..n] + [order[n]];
    }
  }

  lemma WrittenShape(prior: seq<string>, order: seq<string>, env: map<string, string>)
    requires OrderOf(order, env)
    ensures forall i :: 0 <= i < |Written(prior, order, env)| ==> FromEnv(Written(prior, order, env)[i], env)
    ensures forall k :: k in env ==> PairLine(k, env[k]) in Written(prior, order, env)
  {
    RewrittenShape(prior, env);
    AddedShape(order, env, Seen(prior, env));
    hide Rewritten, Added, Seen, FromEnv, PairLine;
  }

  /** Lines that only assign from `env`, by clean keys, read as the unquoted values of the keys that occur. */
  lemma {:induction false} ReadAssigned(lines: seq<string>, env: map<string, string>)
    requires forall k :: k in env ==> CleanKey(k)
    requires forall i :: 0 <= i < |lines| ==> FromEnv(lines[i], env)
    ensures forall k :: k in ReadLines(lines) ==> k in env && ReadLines(lines)[k] == Unquote(env[k])
    ensures forall k :: k in env && PairLine(k, env[k]) in lines ==> k in ReadLines(lines)
  {
    hide Parse, PairLine, CleanKey, Unquote;
    if lines != [] {
      var n := |lines| - 1;
      ReadAssigned(lines[..n], env);
      assert lines == lines[..n] + [lines[n]];
      forall k | k in env ensures Parse(PairLine(k, env[k])) == Some((k, Unquote(env[k]))) { PairReads(k, env[k]); }
    }
  }

  lemma TextReads(lines: seq<string>)
    requires forall i :: 0 <= i < |lines| ==> Unbroken(lines[i])
    ensures SplitLines(FileText(lines)) == if Join(lines, '\n') == "" then [] else lines
    ensures Join(lines, '\n') == "" ==> lines == [] || lines == [""]
    ensures ReadLines(SplitLines(FileText(lines))) == ReadLines(lines)
  {
    if lines != [] {
      JoinUnlines(lines);
      SplitUnlines(lines);
      if Join(lines, '\n') == "" {
        assert |lines| == 1;
        assert lines[..0] == [] && Parse("").None?;
      }
    }
  }

  lemma {:induction false} RewrittenUnbroken(prior: seq<string>, env: map<string, string>)
    requires forall i :: 0 <= i < |prior| ==> Unbroken(prior[i])
    requires forall k :: k in env ==> CleanKey(k) && Unbroken(env[k])
    ensures forall i :: 0 <= i < |Rewritten(prior, env)| ==> Unbroken(Rewritten(prior, env)[i])
  {
    hide Parse;
    if prior != [] { RewrittenUnbroken(prior[..|prior| - 1], env); }
  }

  lemma {:induction false} AddedUnbroken(order: seq<string>, env: map<string, string>, seen: set<string>)
    requires forall k :: k in env ==> CleanKey(k) && Unbroken(env[k])
    ensures forall i :: 0 <= i < |Added(order, env, seen)| ==> Unbroken(Added(order, env, seen)[i])
  {
    if order != [] { AddedUnbroken(order[..|order| - 1], env, seen); }
  }

  lemma WrittenUnbroken(prior: seq<string>, order: seq<string>, env: map<string, string>)
    requires forall i :: 0 <= i < |prior| ==> Unbroken(prior[i])
    requires forall k :: k in env ==> CleanKey(k) && Unbroken(env[k])
    ensures forall i :: 0 <= i < |Written(prior, order, env)| ==> Unbroken(Written(prior, order, env)[i])
  {
    hide Rewritten, Added, Seen, CleanKey, Unbroken;
    RewrittenUnbroken(prior, env);
    AddedUnbroken(order, env, Seen(prior, env));
  }

  /** With clean keys and unbroken values, what is read after writing is every value unquoted once more. */
  lemma WrittenReads(prior: string, order: seq<string>, env: map<string, string>)
    requires OrderOf(order, env) && forall k :: k in env ==> CleanKey(k) && Unbroken(env[k])
    ensures ReadLines(SplitLines(FileText(Written(SplitLines(prior), order, env)))) == map k | k in env :: Unquote(env[k])
  {
    hide Written, CleanKey, Unquote, Parse, FileText, SplitLines, PairLine, FromEnv, Unbroken;
    var lines := Written(SplitLines(prior), order, env);
    WrittenUnbroken(SplitLines(prior), order, env);
    TextReads(lines);
    WrittenShape(SplitLines(prior), order, env);
    ReadAssigned(lines, env);
    var read := ReadLines(lines);
    assert read.Keys == env.Keys;
  }

  lemma UnquotedSame(env: map<string, string>)
    ensures (map k | k in env :: Unquote(env[k])) == env <==> forall k :: k in env ==> Unquote(env[k]) == env[k]
  {
    hide Unquote;
    var again := map k | k in env :: Unquote(env[k]);
    if again == env {
      forall k | k in env ensures Unquote(env[k]) == env[k] { assert again[k] == env[k]; }
    }
  }

  /** Writing any environment over any old file, duplicate keys and all, reads back as that environment exactly when its
      keys and values are clean. */
  lemma RoundTripExactly(prior: string, order: seq<string>, env: map<string, string>)
    requires OrderOf(order, env)
    ensures ReadLines(SplitLines(FileText(Written(SplitLines(prior), order, env)))) == env <==>
      forall k :: k in env ==> CleanKey(k) && CleanValue(env[k])
  {
    hide CleanKey, Unquote, Written, ReadLines, SplitLines, FileText, Unbroken;
    var read := ReadLines(SplitLines(FileText(Written(SplitLines(prior), order, env))));
    ReadClean(SplitLines(FileText(Written(SplitLines(prior), order, env))));
    assert forall k :: k in read ==> CleanKey(k) && Unbroken(read[k]);
    if forall k :: k in env ==> CleanKey(k) && Unbroken(env[k]) {
      WrittenReads(prior, order, env);
      UnquotedSame(env);
    }
  }

  // ------------------------------------------------------------- setting and deleting a key

  /** `set_key`; None for its errors. */
  method SetKey(text: string, registry: set<string>, name: string, value: string) returns (r: Option<string>)
    ensures r.Some? <==> name in registry && Strip(value) != ""
    ensures r.Some? ==>
      var env := ReadLines(SplitLines(text))[name := Strip(value)];
      exists order :: OrderOf(order, env) && r.value == FileText(Written(SplitLines(text), order, env))
  {
    hide ReadLines, SplitLines, Strip, Written, FileText;
    if name !in registry { return None; }
    if Strip(value) == "" { return None; }
    var env, order := ReadEnv(text);
    if name !in env { order := order + [name]; }
    env := env[name := Strip(value)];
    var out := WriteEnv(text, order, env);
    r := Some(out);
  }

  /** `delete_key`; None for its error. */
  method DeleteKey(text: string, registry: set<string>, name: string) returns (r: Option<string>)
    ensures r.Some? <==> name in registry
    ensures r.Some? && name !in ReadLines(SplitLines(text)) ==> r.value == text
    ensures r.Some? && name in ReadLines(SplitLines(text)) ==>
      var env := ReadLines(SplitLines(text)) - {name};
      exists order :: OrderOf(order, env) && r.value == FileText(Written(SplitLines(text), order, env))
  {
    hide ReadLines, SplitLines, Written, FileText;
    if name !in registry { return None; }
    var env, order := ReadEnv(text);
    if name !in env { return Some(text); }
    env := env - {name};
    var rest := Without(order, name);
    var out := WriteEnv(text, rest, env);
    r := Some(out);
  }

  function Without(order: seq<string>, name: string): (r: seq<string>)
    ensures forall k :: k in r <==> k in order && k != name
  {
    if order == [] then [] else (if order[0] == name then [] else [order[0]]) + Without(order[1..], name)
  }

  /** Setting one key keeps all the others, and stores the new value, exactly when the new pair is clean and so is every
      other value in the file. */
  lemma SetKeyExactly(text: string, order: seq<string>, name: string, value: string)
    requires OrderOf(order, ReadLines(SplitLines(text))[name := value])
    ensures var before := ReadLines(SplitLines(text));
      ReadLines(SplitLines(FileText(Written(SplitLines(text), order, before[name := value])))) == before[name := value] <==>
        CleanKey(name) && CleanValue(value) && forall k :: k in before && k != name ==> CleanValue(before[k])
  {
    hide ReadLines, SplitLines, FileText, Written, CleanKey, CleanValue;
    ReadClean(SplitLines(text));
    var before := ReadLines(SplitLines(text));
    RoundTripExactly(text, order, before[name := value]);
    assert forall k :: k in before && k != name ==> before[name := value][k] == before[k];
    assert before[name := value][name] == value;
  }

  /** Deleting one key keeps all the others exactly when every other value in the file is clean. */
  lemma DeleteKeyExactly(text: string, order: seq<string>, name: string)
    requires OrderOf(order, ReadLines(SplitLines(text)) - {name})
    ensures var before := ReadLines(SplitLines(text));
      ReadLines(SplitLines(FileText(Written(SplitLines(text), order, before - {name})))) == before - {name} <==>
        forall k :: k in before && k != name ==> CleanValue(before[k])
  {
    hide ReadLines, SplitLines, FileText, Written, CleanKey, CleanValue;
    ReadClean(SplitLines(text));
    RoundTripExactly(text, order, ReadLines(SplitLines(text)) - {name});
  }

  lemma TrimPair(s: string, inner: string, p: char -> bool)
    requires inner != "" && Trimmed(inner, p) && |s| == |inner| + 2 && s[1..|s| - 1] == inner && p(s[0]) && p(s[|s| - 1])
    ensures Trim(s, p) == inner
  {
    var t := s[1..];
    assert t[..|inner|] == inner && t[0] == inner[0];
    assert LTrim(s, p) == LTrim(t, p) == t;
    assert RTrim(t, p) == RTrim(inner, p);
    TrimShape(inner, p);
    assert LTrim(inner, p) == inner;
  }

  /** Not every value in a file is clean: one in two kinds of quotes loses the inner ones when another key is set. */
  lemma QuotedValue(whole: string, inner: string)
    requires whole == ['\''] + inner + ['\''] && inner == ['"', 'x', '"']
    ensures Parse(PairLine("A", whole)) == Some(("A", inner)) && Unquote(inner) == "x" != inner
  {
    assert CleanKey("A");
    PairReads("A", whole);
    TrimShape(whole, IsSpace);
    TrimShape(whole, IsDouble);
    TrimPair(whole, inner, IsSingle);
    TrimShape(inner, IsSpace);
    TrimPair(inner, "x", IsDouble);
    TrimShape("x", IsSingle);
  }

  // ------------------------------------------------------------- comments

  /** The lines that assign nothing: blank ones, comments, and ones without an equals sign. */
  function Notes(lines: seq<string>): seq<string> {
    if lines == [] then []
    else
      var line := lines[|lines| - 1];
      Notes(lines[..|lines| - 1]) + if Parse(line).None? then [line] else []
  }

  lemma {:induction false} NotesAppend(a: seq<string>, b: seq<string>)
    ensures Notes(a + b) == Notes(a) + Notes(b)
  {
    hide Parse;
    if b == [] {
      assert a + b == a;
    } else {
      NotesAppend(a, b[..|b| - 1]);
      assert (a + b)[..|a + b| - 1] == a + b[..|b| - 1];
    }
  }

  lemma {:induction false} NotesRewritten(lines: seq<string>, env: map<string, string>)
    requires forall k :: k in env ==> CleanKey(k)
    ensures Notes(Rewritten(lines, env)) == Notes(lines)
  {
    hide Parse, CleanKey, PairLine;
    if lines != [] {
      var n := |lines| - 1;
      NotesRewritten(lines[..n], env);
      assert Rewritten(lines[..n], env) + [] == Rewritten(lines[..n], env) && Notes(lines[..n]) + [] == Notes(lines[..n]);
      var line := lines[n];
      if Parse(line).None? {
        NotesAppend(Rewritten(lines[..n], env), [line]);
        assert [line][..0] == [] && Notes([line]) == [line];
      } else if Parse(line).value.0 in env {
        var k := Parse(line).value.0;
        PairReads(k, env[k]);
        NotesAppend(Rewritten(lines[..n], env), [PairLine(k, env[k])]);
        assert [PairLine(k, env[k])][..0] == [] && Notes([PairLine(k, env[k])]) == [];
      }
    }
  }

  lemma {:induction false} NotesAdded(order: seq<string>, env: map<string, string>, seen: set<string>)
    requires forall k :: k in env ==> CleanKey(k)
    ensures Notes(Added(order, env, seen)) == []
  {
    hide Parse, CleanKey, PairLine;
    if order != [] {
      var n := |order| - 1;
      NotesAdded(order[..n], env, seen);
      assert Added(order[..n], env, seen) + [] == Added(order[..n], env, seen);
      var k := order[n];
      if k in env && k !in seen {
        PairReads(k, env[k]);
        NotesAppend(Added(order[..n], env, seen), [PairLine(k, env[k])]);
        assert [PairLine(k, env[k])][..0] == [] && Notes([PairLine(k, env[k])]) == [];
      }
    }
  }

  lemma {:induction false} NothingRewritten(lines: seq<string>)
    ensures Rewritten(lines, map[]) == Notes(lines)
  {
    hide Parse, PairLine;
    if lines != [] { NothingRewritten(lines[..|lines| - 1]); }
  }

  lemma {:induction false} NothingAdded(order: seq<string>, seen: set<string>)
    ensures Added(order, map[], seen) == []
  {
    if order != [] { NothingAdded(order[..|order| - 1], seen); }
  }

  /** A single empty line is all that is written exactly when no key is left and no other note. */
  lemma OneEmptyLine(prior: seq<string>, order: seq<string>, env: map<string, string>)
    requires OrderOf(order, env)
    ensures Written(prior, order, env) == [""] <==> env == map[] && Notes(prior) == [""]
  {
    if env == map[] {
      NothingRewritten(prior);
      NothingAdded(order, Seen(prior, env));
      assert Notes(prior) + [] == Notes(prior);
    } else {
      WrittenShape(prior, order, env);
      var k :| k in env;
      assert PairLine(k, env[k]) in Written(prior, order, env) && PairLine(k, env[k])[|k|] == '=';
    }
    hide Notes, Rewritten, Added, Seen;
  }

  /** Rewriting keeps the comments and blank lines, in order, unless the environment is empty and a single empty line is
      all there is to keep. */
  lemma NotesKept(prior: string, order: seq<string>, env: map<string, string>)
    requires OrderOf(order, env) && forall k :: k in env ==> CleanKey(k) && Unbroken(env[k])
    ensures Notes(SplitLines(FileText(Written(SplitLines(prior), order, env)))) == Notes(SplitLines(prior))
      <==> !(env == map[] && Notes(SplitLines(prior)) == [""])
  {
    hide Parse, CleanKey, PairLine, SplitLines, FileText, Rewritten, Added, Seen, Unbroken;
    var a, b := Rewritten(SplitLines(prior), env), Added(order, env, Seen(SplitLines(prior), env));
    NotesRewritten(SplitLines(prior), env);
    NotesAdded(order, env, Seen(SplitLines(prior), env));
    NotesAppend(a, b);
    WrittenUnbroken(SplitLines(prior), order, env);
    OneEmptyLine(SplitLines(prior), order, env);
    var lines := Written(SplitLines(prior), order, env);
    assert lines == a + b;
    assert forall i :: 0 <= i < |lines| ==> Unbroken(lines[i]);
    TextReads(lines);
    assert Notes(a) + [] == Notes(a);
    if lines == [""] { LoneBlank(lines); }
  }

  lemma LoneBlank(lines: seq<string>)
    requires lines == [""]
    ensures Notes(lines) == [""] && Join(lines, '\n') == "" && Notes([]) == []
  {
    assert lines[..0] == [];
    assert Parse("").None?;
  }

  lemma TwoLines(prior: string)
    requires prior == "A=1\n\n"
    ensures SplitLines(prior) == ["A=1", ""]
  {
    var lines := ["A=1", ""];
    assert Unlines([""]) == "\n" by { assert [""][1..] == []; }
    assert lines[1..] == [""];
    assert Unlines(lines) == prior;
    SplitUnlines(lines);
  }

  lemma NotesOfTwo(a: string, b: string)
    requires Parse(a).Some? && Parse(b).None?
    ensures Notes([a, b]) == [b]
  {
    hide Parse;
    assert [a, b][..1] == [a] && [a][..0] == [];
    assert Notes([a]) == [] + [];
    assert Notes([a, b]) == Notes([a]) + [b];
  }

  lemma Pair()
    ensures Parse("A=1").Some? && Parse("").None?
  {
    PairReads("A", "1");
    assert PairLine("A", "1") == "A=1";
  }

  lemma BlankWritten(lines: seq<string>)
    requires lines == ["A=1", ""]
    ensures Notes(lines) == [""] && Written(lines, [], map[]) == [""]
  {
    Pair();
    NotesOfTwo("A=1", "");
    OneEmptyLine(lines, [], map[]);
  }

  lemma BlankText(lines: seq<string>)
    requires lines == [""]
    ensures FileText(lines) == ""
  {
  }

  lemma NoText()
    ensures Notes(SplitLines("")) == []
  {
  }

  /** A file of one key and one blank line behind it: deleting the key loses the blank line too. */
  lemma BlankLost()
    ensures Notes(SplitLines("A=1\n\n")) == [""]
    ensures FileText(Written(SplitLines("A=1\n\n"), [], map[])) == "" && Notes(SplitLines("")) == []
  {
    TwoLines("A=1\n\n");
    BlankWritten(SplitLines("A=1\n\n"));
    BlankText(Written(SplitLines("A=1\n\n"), [], map[]));
    NoText();
  }
}
