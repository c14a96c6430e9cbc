/** The DNS wire codec of the native probe (pipeline/fast_dns.py), after sections 3.1 and 4.1 of RFC 1035. */
module Dns {
  import opened Basics
  import opened Text

  type byte = x: int | 0 <= x < 256
  type u16 = x: int | 0 <= x < 65536

  // ------------------------------------------------------------- query names

  /** The labels of a textual name. */
  function Labels(name: string): seq<string> {
    Split(Lower(Trim(name, IsDot)), '.')
  }

  predicate Ascii(s: string) {
    forall i :: 0 <= i < |s| ==> s[i] as int < 128
  }

  predicate LegalLabel(l: string) {
    1 <= |l| <= 63 && Ascii(l)
  }

  predicate LegalLabels(ls: seq<string>) {
    forall i :: 0 <= i < |ls| ==> LegalLabel(ls[i])
  }

  function Raw(l: string): (r: seq<byte>)
    requires Ascii(l)
    ensures |r| == |l| && forall i :: 0 <= i < |l| ==> r[i] == l[i] as int
  {
    seq(|l|, i requires 0 <= i < |l| => l[i] as int)
  }

  function RawAll(ls: seq<string>): (r: seq<seq<byte>>)
    requires LegalLabels(ls)
    ensures |r| == |ls| && forall i :: 0 <= i < |ls| ==> r[i] == Raw(ls[i])
  {
    seq(|ls|, i requires 0 <= i < |ls| => Raw(ls[i]))
  }

  /** `encode_qname`, with None for the ValueError. */
  method EncodeQname(name: string) returns (r: Option<seq<byte>>)
    ensures r.Some? <==> LegalLabels(Labels(name))
    ensures r.Some? ==> r.value == NameBytes(Name(RawAll(Labels(name)), Root))
  {
    hide Labels;
    var out: seq<byte> := [];
    var labels := Labels(name);
    for i := 0 to |labels|
      invariant LegalLabels(labels[..i])
      invariant out == LabelBytes(RawAll(labels[..i]))
    {
      var label_ := labels[i];
      if !Ascii(label_) || label_ == "" || |label_| > 63 { return None; }
      assert labels[..i + 1] == labels[..i] + [label_];
      var raw := Raw(label_);
      LabelsSnoc(RawAll(labels[..i]), raw);
      assert RawAll(labels[..i + 1]) == RawAll(labels[..i]) + [raw];
      out := out + [|raw|] + raw;
    }
    assert labels[..|labels|] == labels;
    r := Some(out + [0]);
  }

  // ------------------------------------------------------------- names on the wire

  datatype End = Root | Pointer(hi: byte, lo: byte)

  datatype Name = Name(labels: seq<seq<byte>>, end: End)

  /** What the reader takes for a name: label lengths below the pointer mark, then a root or a pointer. */
  predicate Readable(n: Name) {
    && (forall i :: 0 <= i < |n.labels| ==> 1 <= |n.labels[i]| <= 191)
    && (n.end.Pointer? ==> n.end.hi >= 192)
  }

  function LabelBytes(ls: seq<seq<byte>>): seq<byte>
    requires forall i :: 0 <= i < |ls| ==> |ls[i]| < 256
  {
    if ls == [] then [] else [|ls[0]| as byte] + ls[0] + LabelBytes(ls[1..])
  }

  function EndBytes(e: End): seq<byte> {
    match e case Root => [0] case Pointer(hi, lo) => [hi, lo]
  }

  function NameBytes(n: Name): seq<byte>
    requires forall i :: 0 <= i < |n.labels| ==> |n.labels[i]| < 256
  {
    LabelBytes(n.labels) + EndBytes(n.end)
  }

  lemma {:induction false} LabelsSnoc(ls: seq<seq<byte>>, l: seq<byte>)
    requires |l| < 256 && forall i :: 0 <= i < |ls| ==> |ls[i]| < 256
    ensures LabelBytes(ls + [l]) == LabelBytes(ls) + [|l|] + l
  {
    if ls == [] {
      assert LabelBytes([l]) == [|l| as byte] + l + LabelBytes([]);
    } else {
      LabelsSnoc(ls[1..], l);
      assert (ls + [l])[1..] == ls[1..] + [l];
    }
  }

  /** `x` stands in `buf` at `off`. */
  predicate At(buf: seq<byte>, off: nat, x: seq<byte>) {
    off + |x| <= |buf| && buf[off..off + |x|] == x
  }

  lemma AtBoth(buf: seq<byte>, off: nat, x: seq<byte>, y: seq<byte>)
    ensures At(buf, off, x + y) <==> At(buf, off, x) && At(buf, off + |x|, y)
  {
    if off + |x| + |y| <= |buf| {
      var whole := buf[off..off + |x| + |y|];
      assert whole[..|x|] == buf[off..off + |x|] && whole[|x|..] == buf[off + |x|..off + |x| + |y|];
      assert whole == whole[..|x|] + whole[|x|..];
      assert (x + y)[..|x|] == x && (x + y)[|x|..] == y;
    }
  }

  lemma AtIndex(buf: seq<byte>, off: nat, x: seq<byte>, i: nat)
    requires At(buf, off, x) && i < |x|
    ensures off + i < |buf| && buf[off + i] == x[i]
  {
    assert buf[off..off + |x|][i] == buf[off + i];
  }

  /** Where the name that starts at `off` ends, as `_skip_name` finds it. */
  function Skip(buf: seq<byte>, off: nat): nat
    decreases if off < |buf| then |buf| - off else 0
  {
    if off >= |buf| then off
    else if buf[off] == 0 then off + 1
    else if buf[off] >= 192 then off + 2
    else Skip(buf, off + 1 + buf[off])
  }

  /** `_skip_name`, total on every buffer and offset. */
  method SkipName(buf: seq<byte>, start: nat) returns (end: nat)
    ensures end == Skip(buf, start)
  {
    var offset := start;
    while offset < |buf|
      invariant Skip(buf, offset) == Skip(buf, start)
      decreases if offset < |buf| then |buf| - offset else 0
    {
      var length := buf[offset];
      if length == 0 { return offset + 1; }
      if length >= 192 { return offset + 2; }
      offset := offset + 1 + length;
    }
    end := offset;
  }

  /** One more label in front of a name. */
  lemma NameCons(l: seq<byte>, n: Name)
    requires |l| < 256 && forall i :: 0 <= i < |n.labels| ==> |n.labels[i]| < 256
    ensures var m := Name([l] + n.labels, n.end);
      (forall i :: 0 <= i < |m.labels| ==> |m.labels[i]| < 256) && NameBytes(m) == ([|l| as byte] + l) + NameBytes(n)
  {
    assert ([l] + n.labels)[1..] == n.labels;
  }

  lemma LabelStands(buf: seq<byte>, off: nat, l: seq<byte>, n: Name)
    requires 1 <= |l| < 192 && forall i :: 0 <= i < |n.labels| ==> |n.labels[i]| < 256
    requires At(buf, off, NameBytes(Name([l] + n.labels, n.end)))
    ensures At(buf, off, [|l| as byte] + l) && At(buf, off + 1 + |l|, NameBytes(n))
    ensures off < |buf| && buf[off] == |l| && Skip(buf, off) == Skip(buf, off + 1 + |l|)
  {
    hide NameBytes;
    NameCons(l, n);
    AtBoth(buf, off, [|l| as byte] + l, NameBytes(n));
    AtIndex(buf, off, [|l| as byte] + l, 0);
  }

  /** Skipping a name that stands anywhere in any buffer lands exactly behind it. */
  lemma {:induction false} SkipLands(buf: seq<byte>, off: nat, n: Name)
    requires Readable(n) && At(buf, off, NameBytes(n))
    ensures Skip(buf, off) == off + |NameBytes(n)|
    decreases |n.labels|
  {
    if n.labels == [] {
      AtIndex(buf, off, NameBytes(n), 0);
    } else {
      hide NameBytes, Skip, At;
      var l, rest := n.labels[0], Name(n.labels[1..], n.end);
      assert n == Name([l] + rest.labels, rest.end);
      NameCons(l, rest);
      LabelStands(buf, off, l, rest);
      SkipLands(buf, off + 1 + |l|, rest);
    }
  }

  lemma EndReads(buf: seq<byte>, off: nat) returns (n: Name)
    requires Skip(buf, off) < |buf| && off < |buf| && (buf[off] == 0 || buf[off] >= 192)
    ensures Readable(n) && At(buf, off, NameBytes(n)) && Skip(buf, off) == off + |NameBytes(n)|
  {
    if buf[off] == 0 {
      n := Name([], Root);
      assert NameBytes(n) == [0] && buf[off..off + 1] == [0];
    } else {
      n := Name([], Pointer(buf[off], buf[off + 1]));
      assert NameBytes(n) == [buf[off], buf[off + 1]] && buf[off..off + 2] == [buf[off], buf[off + 1]];
    }
  }

  /** Conversely, a skip that ends inside the buffer passed over a readable name. */
  lemma {:induction false} SkipReads(buf: seq<byte>, off: nat) returns (n: Name)
    requires Skip(buf, off) < |buf|
    ensures Readable(n) && At(buf, off, NameBytes(n)) && Skip(buf, off) == off + |NameBytes(n)|
    decreases if off < |buf| then |buf| - off else 0
  {
    hide NameBytes;
    var b := buf[off];
    if b == 0 || b >= 192 {
      n := EndReads(buf, off);
    } else {
      var next := off + 1 + b;
      SkipForward(buf, next);
      var rest := SkipReads(buf, next);
      hide Skip;
      var l := buf[off + 1..next];
      n := Name([l] + rest.labels, rest.end);
      NameCons(l, rest);
      assert At(buf, off, [b] + l) by { assert buf[off..next] == [b] + l; }
      AtBoth(buf, off, [b] + l, NameBytes(rest));
    }
  }

  lemma {:induction false} SkipForward(buf: seq<byte>, off: nat)
    ensures Skip(buf, off) >= off
    decreases if off < |buf| then |buf| - off else 0
  {
    if off < |buf| && 0 < buf[off] < 192 { SkipForward(buf, off + 1 + buf[off]); }
  }

  /** The labels of an uncompressed name, read back from the wire. */
  function ReadLabels(buf: seq<byte>, off: nat): seq<seq<byte>>
    decreases if off < |buf| then |buf| - off else 0
  {
    if off >= |buf| || buf[off] == 0 || off + 1 + buf[off] > |buf| then []
    else [buf[off + 1..off + 1 + buf[off]]] + ReadLabels(buf, off + 1 + buf[off])
  }

  lemma LabelTaken(buf: seq<byte>, off: nat, l: seq<byte>)
    requires |l| < 256 && At(buf, off, [|l| as byte] + l)
    ensures off + 1 + |l| <= |buf| && buf[off + 1..off + 1 + |l|] == l
  {
    AtBoth(buf, off, [|l| as byte], l);
  }

  /** Reading back an encoded name gives its labels, at any offset of any buffer. */
  lemma {:induction false} DecodeInvertsEncode(buf: seq<byte>, off: nat, ls: seq<seq<byte>>)
    requires forall i :: 0 <= i < |ls| ==> 1 <= |ls[i]| <= 63
    requires At(buf, off, NameBytes(Name(ls, Root)))
    ensures ReadLabels(buf, off) == ls
    decreases |ls|
  {
    if ls == [] {
      AtIndex(buf, off, [0], 0);
    } else {
      hide NameBytes, Skip, At;
      var l, rest := ls[0], Name(ls[1..], Root);
      assert Name(ls, Root) == Name([l] + rest.labels, rest.end);
      LabelStands(buf, off, l, rest);
      LabelTaken(buf, off, l);
      DecodeInvertsEncode(buf, off + 1 + |l|, ls[1..]);
    }
  }

  /** An encoded query name decodes to the name's own labels. */
  lemma QnameRoundTrip(name: string)
    requires LegalLabels(Labels(name))
    ensures ReadLabels(NameBytes(Name(RawAll(Labels(name)), Root)), 0) == RawAll(Labels(name))
  {
    hide Labels;
    var bytes := NameBytes(Name(RawAll(Labels(name)), Root));
    assert bytes[0..|bytes|] == bytes;
    DecodeInvertsEncode(bytes, 0, RawAll(Labels(name)));
  }

  // ------------------------------------------------------------- messages

  function U16(n: u16): (r: seq<byte>)
    ensures |r| == 2
  {
    [n / 256, n % 256]
  }

  function Word(hi: byte, lo: byte): u16 {
    hi * 256 + lo
  }

  lemma WordOf(n: u16)
    ensures Word(U16(n)[0], U16(n)[1]) == n
  {
  }

  /** A question is a name and four bytes of type and class. */
  datatype Question = Question(name: Name, qtype: u16, qclass: u16)

  datatype Answer = Answer(name: Name, rtype: u16, rclass: u16, ttlHigh: u16, ttlLow: u16, rdata: seq<byte>)

  predicate GoodQuestion(q: Question) {
    Readable(q.name)
  }

  predicate GoodAnswer(a: Answer) {
    Readable(a.name) && |a.rdata| < 65536
  }

  function QuestionBytes(q: Question): seq<byte>
    requires GoodQuestion(q)
  {
    NameBytes(q.name) + (U16(q.qtype) + U16(q.qclass))
  }

  function FixedBytes(a: Answer): (r: seq<byte>)
    requires GoodAnswer(a)
    ensures |r| == 10
  {
    U16(a.rtype) + U16(a.rclass) + U16(a.ttlHigh) + U16(a.ttlLow) + U16(|a.rdata|)
  }

  function AnswerBytes(a: Answer): seq<byte>
    requires GoodAnswer(a)
  {
    NameBytes(a.name) + (FixedBytes(a) + a.rdata)
  }

  function QuestionsBytes(qs: seq<Question>): seq<byte>
    requires forall i :: 0 <= i < |qs| ==> GoodQuestion(qs[i])
  {
    if qs == [] then [] else QuestionBytes(qs[0]) + QuestionsBytes(qs[1..])
  }

  function AnswersBytes(ans: seq<Answer>): seq<byte>
    requires forall i :: 0 <= i < |ans| ==> GoodAnswer(ans[i])
  {
    if ans == [] then [] else AnswerBytes(ans[0]) + AnswersBytes(ans[1..])
  }

  predicate IsA(a: Answer) {
    a.rtype == 1 && |a.rdata| == 4
  }

  ghost predicate SomeA(ans: seq<Answer>) {
    exists i :: 0 <= i < |ans| && IsA(ans[i])
  }

  // ------------------------------------------------------------- the reader

  function WordAt(buf: seq<byte>, off: nat): u16
    requires off + 2 <= |buf|
  {
    Word(buf[off], buf[off + 1])
  }

  /** Where `n` questions from `off` end, if they fit the buffer. */
  function QuestionsEnd(buf: seq<byte>, off: nat, n: nat): Option<nat>
    decreases n
  {
    if n == 0 then Some(off)
    else
      var o := Skip(buf, off) + 4;
      if o > |buf| then None else QuestionsEnd(buf, o, n - 1)
  }

  datatype Verdict = Malformed | HasA | NoA

  function AnswersVerdict(buf: seq<byte>, off: nat, n: nat): Verdict
    decreases n
  {
    if n == 0 then NoA
    else
      var o := Skip(buf, off);
      if o + 10 > |buf| then Malformed
      else
        var rdlen := WordAt(buf, o + 8);
        if o + 10 + rdlen > |buf| then Malformed
        else if WordAt(buf, o) == 1 && rdlen == 4 then HasA
        else AnswersVerdict(buf, o + 10 + rdlen, n - 1)
  }

  predicate IsResponse(flags: u16) {
    flags >= 32768
  }

  function Rcode(flags: u16): int {
    flags % 16
  }

  predicate Spoke(flags: u16) {
    IsResponse(flags) && (Rcode(flags) == 0 || Rcode(flags) == 3)
  }

  predicate Accepts(buf: seq<byte>) {
    && |buf| >= 12
    && Spoke(WordAt(buf, 2))
    && var end := QuestionsEnd(buf, 12, WordAt(buf, 4));
    && end.Some?
    && var v := AnswersVerdict(buf, end.value, WordAt(buf, 6));
    && (v == HasA || (v == NoA && Rcode(WordAt(buf, 2)) == 0 && WordAt(buf, 6) > 0))
  }

  /** `response_has_a`: no precondition, so total and terminating on arbitrary bytes. */
  method ResponseHasA(buf: seq<byte>) returns (r: bool)
    ensures r == Accepts(buf)
  {
    if |buf| < 12 { return false; }
    var flags, qd, an := WordAt(buf, 2), WordAt(buf, 4), WordAt(buf, 6);
    if flags < 32768 { return false; }
    var rcode := flags % 16;
    if rcode != 0 && rcode != 3 { return false; }
    var offset: nat := 12;
    for i := 0 to qd
      invariant i <= qd && QuestionsEnd(buf, offset, qd - i) == QuestionsEnd(buf, 12, qd)
    {
      offset := SkipName(buf, offset);
      offset := offset + 4;
      if offset > |buf| { return false; }
    }
    ghost var begin: nat := offset;
    for i := 0 to an
      invariant i <= an && AnswersVerdict(buf, offset, an - i) == AnswersVerdict(buf, begin, an)
    {
      offset := SkipName(buf, offset);
      if offset + 10 > |buf| { return false; }
      var rtype, rdlen := WordAt(buf, offset), WordAt(buf, offset + 8);
      offset := offset + 10;
      if offset + rdlen > |buf| { return false; }
      if rtype == 1 && rdlen == 4 { return true; }
      offset := offset + rdlen;
    }
    return rcode == 0 && an > 0;
  }

  // ------------------------------------------------------------- the reader on rendered messages

  lemma WordStands(buf: seq<byte>, off: nat, n: u16)
    requires At(buf, off, U16(n))
    ensures off + 2 <= |buf| && WordAt(buf, off) == n
  {
    AtIndex(buf, off, U16(n), 0);
    AtIndex(buf, off, U16(n), 1);
    WordOf(n);
  }

  lemma {:induction false} QuestionsStand(buf: seq<byte>, off: nat, qs: seq<Question>)
    requires forall i :: 0 <= i < |qs| ==> GoodQuestion(qs[i])
    requires At(buf, off, QuestionsBytes(qs))
    ensures QuestionsEnd(buf, off, |qs|) == Some(off + |QuestionsBytes(qs)|)
    decreases |qs|
  {
    hide Skip, NameBytes, U16;
    if qs != [] {
      var q := qs[0];
      AtBoth(buf, off, QuestionBytes(q), QuestionsBytes(qs[1..]));
      AtBoth(buf, off, NameBytes(q.name), U16(q.qtype) + U16(q.qclass));
      SkipLands(buf, off, q.name);
      QuestionsStand(buf, off + |QuestionBytes(q)|, qs[1..]);
    }
  }

  lemma FixedStand(buf: seq<byte>, off: nat, a: Answer)
    requires GoodAnswer(a) && At(buf, off, FixedBytes(a))
    ensures off + 10 <= |buf| && WordAt(buf, off) == a.rtype && WordAt(buf, off + 8) == |a.rdata|
  {
    hide U16;
    var head := U16(a.rclass) + U16(a.ttlHigh) + U16(a.ttlLow);
    assert FixedBytes(a) == U16(a.rtype) + head + U16(|a.rdata|);
    AtBoth(buf, off, U16(a.rtype) + head, U16(|a.rdata|));
    AtBoth(buf, off, U16(a.rtype), head);
    WordStands(buf, off, a.rtype);
    WordStands(buf, off + 8, |a.rdata|);
  }

  lemma NoneIsA(ans: seq<Answer>)
    requires ans == []
    ensures !SomeA(ans)
  {
  }

  lemma SomeANext(ans: seq<Answer>)
    requires ans != []
    ensures SomeA(ans) <==> IsA(ans[0]) || SomeA(ans[1..])
  {
    if i :| 0 <= i < |ans| && IsA(ans[i]) {
      if i > 0 { assert IsA(ans[1..][i - 1]); }
    }
    if i :| 0 <= i < |ans[1..]| && IsA(ans[1..][i]) { assert IsA(ans[i + 1]); }
  }

  /** Behind `ans` the reader goes on with what is left, unless one of them is an A record. */
  lemma {:induction false} AnswersStand(buf: seq<byte>, off: nat, ans: seq<Answer>, more: nat)
    requires forall i :: 0 <= i < |ans| ==> GoodAnswer(ans[i])
    requires At(buf, off, AnswersBytes(ans))
    ensures AnswersVerdict(buf, off, |ans| + more)
         == if SomeA(ans) then HasA
            else AnswersVerdict(buf, off + |AnswersBytes(ans)|, more)
    decreases |ans|
  {
    hide Skip, NameBytes, FixedBytes, WordAt, SomeA;
    if ans == [] {
      assert !SomeA(ans) by { NoneIsA(ans); }
    } else {
      hide At;
      var a := ans[0];
      AtBoth(buf, off, AnswerBytes(a), AnswersBytes(ans[1..]));
      AtBoth(buf, off, NameBytes(a.name), FixedBytes(a) + a.rdata);
      AtBoth(buf, off + |NameBytes(a.name)|, FixedBytes(a), a.rdata);
      SkipLands(buf, off, a.name);
      FixedStand(buf, off + |NameBytes(a.name)|, a);
      AnswersStand(buf, off + |AnswerBytes(a)|, ans[1..], more);
      SomeANext(ans);
    }
  }

  datatype Header = Header(txid: u16, flags: u16, ns: u16, ar: u16)

  function HeaderBytes(h: Header, qd: u16, an: u16): (r: seq<byte>)
    ensures |r| == 12
  {
    U16(h.txid) + U16(h.flags) + U16(qd) + U16(an) + U16(h.ns) + U16(h.ar)
  }

  predicate GoodMessage(qs: seq<Question>, ans: seq<Answer>) {
    && |qs| < 65536 && |ans| < 65536
    && (forall i :: 0 <= i < |qs| ==> GoodQuestion(qs[i]))
    && (forall i :: 0 <= i < |ans| ==> GoodAnswer(ans[i]))
  }

  function MessageBytes(h: Header, an: u16, qs: seq<Question>, ans: seq<Answer>, tail: seq<byte>): seq<byte>
    requires GoodMessage(qs, ans)
  {
    HeaderBytes(h, |qs|, an) + QuestionsBytes(qs) + AnswersBytes(ans) + tail
  }

  lemma HeaderStands(buf: seq<byte>, h: Header, qd: u16, an: u16)
    requires At(buf, 0, HeaderBytes(h, qd, an))
    ensures |buf| >= 12 && WordAt(buf, 2) == h.flags && WordAt(buf, 4) == qd && WordAt(buf, 6) == an
  {
    hide U16;
    var a, b, c, d, e := U16(h.txid), U16(h.flags), U16(qd), U16(an), U16(h.ns) + U16(h.ar);
    assert HeaderBytes(h, qd, an) == a + b + c + d + e;
    AtBoth(buf, 0, a + b + c + d, e);
    AtBoth(buf, 0, a + b + c, d);
    AtBoth(buf, 0, a + b, c);
    AtBoth(buf, 0, a, b);
    WordStands(buf, 2, h.flags);
    WordStands(buf, 4, qd);
    WordStands(buf, 6, an);
  }

  lemma MessageStands(h: Header, an: u16, qs: seq<Question>, ans: seq<Answer>, tail: seq<byte>)
    requires GoodMessage(qs, ans)
    ensures var buf := MessageBytes(h, an, qs, ans, tail);
      && At(buf, 0, HeaderBytes(h, |qs|, an))
      && At(buf, 12, QuestionsBytes(qs))
      && At(buf, 12 + |QuestionsBytes(qs)|, AnswersBytes(ans))
  {
    hide HeaderBytes, QuestionsBytes, AnswersBytes;
    var buf := MessageBytes(h, an, qs, ans, tail);
    var a, b, c := HeaderBytes(h, |qs|, an), QuestionsBytes(qs), AnswersBytes(ans);
    assert buf[0..|buf|] == a + b + c + tail;
    AtBoth(buf, 0, a + b + c, tail);
    AtBoth(buf, 0, a + b, c);
    AtBoth(buf, 0, a, b);
  }

  /** On a message with all the answers its header announces, or with an A record among fewer of them, the reader depends
      only on the flags and on whether there is an answer and an A record. */
  lemma AcceptsMessage(h: Header, an: u16, qs: seq<Question>, ans: seq<Answer>, tail: seq<byte>)
    requires GoodMessage(qs, ans) && |ans| <= an && (|ans| == an || SomeA(ans))
    ensures Accepts(MessageBytes(h, an, qs, ans, tail)) <==>
      Spoke(h.flags) && (SomeA(ans) || (Rcode(h.flags) == 0 && an > 0))
  {
    hide HeaderBytes, QuestionsBytes, AnswersBytes, MessageBytes, QuestionsEnd, AnswersVerdict, WordAt;
    var buf := MessageBytes(h, an, qs, ans, tail);
    MessageStands(h, an, qs, ans, tail);
    HeaderStands(buf, h, |qs|, an);
    QuestionsStand(buf, 12, qs);
    AnswersStand(buf, 12 + |QuestionsBytes(qs)|, ans, an - |ans|);
    NoMoreAnswers(buf, 12 + |QuestionsBytes(qs)| + |AnswersBytes(ans)|);
  }

  lemma NoMoreAnswers(buf: seq<byte>, off: nat)
    ensures AnswersVerdict(buf, off, 0) == NoA
  {
  }

  /** On every rendered response, whatever follows it: true exactly when the resolver spoke (NOERROR or NXDOMAIN) and
      either it said NOERROR with some answer or some answer is an A record. */
  lemma ResponseExactly(h: Header, qs: seq<Question>, ans: seq<Answer>, tail: seq<byte>)
    requires GoodMessage(qs, ans)
    ensures Accepts(MessageBytes(h, |ans|, qs, ans, tail)) <==>
      Spoke(h.flags) && (SomeA(ans) || (Rcode(h.flags) == 0 && |ans| > 0))
  {
    hide Accepts, MessageBytes;
    AcceptsMessage(h, |ans|, qs, ans, tail);
  }

  // ------------------------------------------------------------- queries

  function QueryHeader(txid: u16): Header {
    Header(txid, 0x0100, 0, 0)
  }

  function QueryFor(name: string, qtype: u16): Question
    requires LegalLabels(Labels(name))
  {
    Question(Name(RawAll(Labels(name)), Root), qtype, 1)
  }

  lemma QueryShape(txid: u16, q: Question)
    requires GoodQuestion(q)
    ensures MessageBytes(QueryHeader(txid), 0, [q], [], []) == HeaderBytes(QueryHeader(txid), 1, 0) + QuestionBytes(q)
  {
    assert QuestionsBytes([q]) == QuestionBytes(q) + QuestionsBytes([q][1..]);
    hide HeaderBytes, QuestionBytes;
    assert QuestionsBytes([q]) == QuestionBytes(q);
    assert AnswersBytes([]) == [];
  }

  /** `build_query` with the random identifier as an argument; None for the ValueError of the encoder. */
  method BuildQuery(name: string, qtype: u16, txid: u16) returns (r: Option<seq<byte>>)
    ensures r.Some? <==> LegalLabels(Labels(name))
    ensures r.Some? ==> r.value == Query(name, qtype, txid)
  {
    hide Labels, MessageBytes, HeaderBytes, NameBytes;
    var header := HeaderBytes(QueryHeader(txid), 1, 0);
    var qname := EncodeQname(name);
    if qname.None? { return None; }
    QueryShape(txid, QueryFor(name, qtype));
    r := Some(header + (qname.value + (U16(qtype) + U16(1))));
  }

  lemma QueryStands(txid: u16, q: Question)
    requires GoodQuestion(q)
    ensures var query := MessageBytes(QueryHeader(txid), 0, [q], [], []);
      && |query| == 12 + |QuestionBytes(q)|
      && At(query, 0, HeaderBytes(QueryHeader(txid), 1, 0)) && At(query, 12, QuestionBytes(q))
      && QuestionsEnd(query, 12, 1) == Some(|query|)
  {
    MessageStands(QueryHeader(txid), 0, [q], [], []);
    QueryShape(txid, q);
    assert QuestionsBytes([q]) == QuestionBytes(q) by { assert QuestionBytes(q) + [] == QuestionBytes(q); }
    hide HeaderBytes, MessageBytes, NameBytes, Skip, At, QuestionBytes;
    QuestionsStand(MessageBytes(QueryHeader(txid), 0, [q], [], []), 12, [q]);
  }

  lemma QuestionStands(buf: seq<byte>, off: nat, q: Question)
    requires GoodQuestion(q) && At(buf, off, QuestionBytes(q))
    ensures var o := Skip(buf, off);
      At(buf, off, NameBytes(q.name)) && o + 4 == off + |QuestionBytes(q)| <= |buf|
      && WordAt(buf, o) == q.qtype && WordAt(buf, o + 2) == q.qclass
  {
    hide NameBytes, U16, Skip, WordAt;
    AtBoth(buf, off, NameBytes(q.name), U16(q.qtype) + U16(q.qclass));
    var o := off + |NameBytes(q.name)|;
    AtBoth(buf, o, U16(q.qtype), U16(q.qclass));
    SkipLands(buf, off, q.name);
    WordStands(buf, o, q.qtype);
    WordStands(buf, o + 2, q.qclass);
  }

  function Query(name: string, qtype: u16, txid: u16): seq<byte>
    requires LegalLabels(Labels(name))
  {
    MessageBytes(QueryHeader(txid), 0, [QueryFor(name, qtype)], [], [])
  }

  /** What a resolver reads in a query: one question, that name, type and class, and nothing behind it. */
  lemma QueryReadsBack(name: string, qtype: u16, txid: u16)
    requires LegalLabels(Labels(name))
    ensures QuestionsEnd(Query(name, qtype, txid), 12, 1) == Some(|Query(name, qtype, txid)|)
    ensures ReadLabels(Query(name, qtype, txid), 12) == RawAll(Labels(name))
    ensures var end := Skip(Query(name, qtype, txid), 12);
      && end + 4 == |Query(name, qtype, txid)|
      && WordAt(Query(name, qtype, txid), end) == qtype && WordAt(Query(name, qtype, txid), end + 2) == 1
  {
    hide Labels, HeaderBytes, MessageBytes, NameBytes, WordAt, Skip, ReadLabels, At, QuestionBytes, QuestionsEnd;
    var q := QueryFor(name, qtype);
    QueryStands(txid, q);
    var query := Query(name, qtype, txid);
    QuestionStands(query, 12, q);
    DecodeInvertsEncode(query, 12, q.name.labels);
  }

  /** No query, echoed back, passes for a response. */
  lemma QueryNoResponse(name: string, qtype: u16, txid: u16)
    requires LegalLabels(Labels(name))
    ensures !Accepts(Query(name, qtype, txid))
  {
    hide Labels, HeaderBytes, MessageBytes, WordAt, At, QuestionBytes, QuestionsEnd, AnswersVerdict;
    QueryStands(txid, QueryFor(name, qtype));
    HeaderStands(Query(name, qtype, txid), QueryHeader(txid), 1, 0);
  }

  // ------------------------------------------------------------- what acceptance of arbitrary bytes means

  /** `buf` is a response that ends, after some of its announced answers, with an A record, or that has all of them. */
  ghost predicate Reads(buf: seq<byte>, h: Header, an: u16, qs: seq<Question>, ans: seq<Answer>, tail: seq<byte>) {
    && GoodMessage(qs, ans) && |ans| <= an && buf == MessageBytes(h, an, qs, ans, tail)
    && Spoke(h.flags)
    && ((|ans| > 0 && IsA(ans[|ans| - 1])) || (|ans| == an && Rcode(h.flags) == 0 && an > 0))
  }

  lemma WordSplits(buf: seq<byte>, off: nat)
    requires off + 2 <= |buf|
    ensures At(buf, off, U16(WordAt(buf, off)))
  {
    assert buf[off..off + 2] == [buf[off], buf[off + 1]];
  }

  lemma {:induction false} QuestionsRead(buf: seq<byte>, off: nat, n: nat) returns (qs: seq<Question>)
    requires QuestionsEnd(buf, off, n).Some?
    ensures |qs| == n && (forall i :: 0 <= i < |qs| ==> GoodQuestion(qs[i]))
    ensures n == 0 || At(buf, off, QuestionsBytes(qs))
    ensures QuestionsEnd(buf, off, n) == Some(off + |QuestionsBytes(qs)|)
    decreases n
  {
    hide Skip, NameBytes, U16, WordAt;
    if n == 0 {
      qs := [];
    } else {
      var o := Skip(buf, off);
      var name := SkipReads(buf, off);
      var q := Question(name, WordAt(buf, o), WordAt(buf, o + 2));
      WordSplits(buf, o);
      WordSplits(buf, o + 2);
      AtBoth(buf, o, U16(q.qtype), U16(q.qclass));
      AtBoth(buf, off, NameBytes(name), U16(q.qtype) + U16(q.qclass));
      var rest := QuestionsRead(buf, o + 4, n - 1);
      qs := [q] + rest;
      assert qs[1..] == rest;
      if n == 1 { assert rest == [] && QuestionBytes(q) + [] == QuestionBytes(q); }
      AtBoth(buf, off, QuestionBytes(q), QuestionsBytes(rest));
    }
  }

  lemma FixedReads(buf: seq<byte>, o: nat) returns (a: Answer)
    requires o + 10 <= |buf| && o + 10 + WordAt(buf, o + 8) <= |buf|
    ensures a.name == Name([], Root) && GoodAnswer(a)
    ensures At(buf, o, FixedBytes(a) + a.rdata)
    ensures a.rtype == WordAt(buf, o) && |a.rdata| == WordAt(buf, o + 8)
  {
    hide U16, WordAt;
    var len := WordAt(buf, o + 8);
    a := Answer(Name([], Root), WordAt(buf, o), WordAt(buf, o + 2), WordAt(buf, o + 4), WordAt(buf, o + 6),
                buf[o + 10..o + 10 + len]);
    WordSplits(buf, o);
    WordSplits(buf, o + 2);
    WordSplits(buf, o + 4);
    WordSplits(buf, o + 6);
    WordSplits(buf, o + 8);
    AtBoth(buf, o, U16(a.rtype), U16(a.rclass));
    AtBoth(buf, o, U16(a.rtype) + U16(a.rclass), U16(a.ttlHigh));
    AtBoth(buf, o, U16(a.rtype) + U16(a.rclass) + U16(a.ttlHigh), U16(a.ttlLow));
    AtBoth(buf, o, U16(a.rtype) + U16(a.rclass) + U16(a.ttlHigh) + U16(a.ttlLow), U16(len));
    AtBoth(buf, o, FixedBytes(a), a.rdata);
  }

  lemma AnswerReads(buf: seq<byte>, off: nat) returns (a: Answer)
    requires var o := Skip(buf, off); o + 10 <= |buf| && o + 10 + WordAt(buf, o + 8) <= |buf|
    ensures GoodAnswer(a) && At(buf, off, AnswerBytes(a))
    ensures var o := Skip(buf, off);
      a.rtype == WordAt(buf, o) && |a.rdata| == WordAt(buf, o + 8) && o + 10 + |a.rdata| == off + |AnswerBytes(a)|
  {
    hide Skip, NameBytes, WordAt;
    var name := SkipReads(buf, off);
    var f := FixedReads(buf, Skip(buf, off));
    a := f.(name := name);
    assert FixedBytes(a) == FixedBytes(f) by { hide U16; }
    AtBoth(buf, off, NameBytes(name), FixedBytes(a) + a.rdata);
  }

  lemma {:induction false} AnswersRead(buf: seq<byte>, off: nat, n: nat) returns (ans: seq<Answer>)
    requires off <= |buf| && AnswersVerdict(buf, off, n) != Malformed
    ensures |ans| <= n && forall i :: 0 <= i < |ans| ==> GoodAnswer(ans[i])
    ensures At(buf, off, AnswersBytes(ans))
    ensures AnswersVerdict(buf, off, n) == HasA ==> |ans| > 0 && IsA(ans[|ans| - 1])
    ensures AnswersVerdict(buf, off, n) == NoA ==> |ans| == n
    decreases n
  {
    hide Skip, AnswerBytes, WordAt;
    if n == 0 {
      ans := [];
      assert buf[off..off] == [];
    } else {
      var a := AnswerReads(buf, off);
      if IsA(a) {
        ans := [a];
        assert ans[1..] == [] && AnswersBytes(ans) == AnswerBytes(a) + [];
        assert AnswerBytes(a) + [] == AnswerBytes(a);
      } else {
        var rest := AnswersRead(buf, off + |AnswerBytes(a)|, n - 1);
        ans := [a] + rest;
        assert ans[1..] == rest;
        AtBoth(buf, off, AnswerBytes(a), AnswersBytes(rest));
      }
    }
  }

  lemma HeaderReads(buf: seq<byte>) returns (h: Header)
    requires |buf| >= 12
    ensures h.flags == WordAt(buf, 2) && At(buf, 0, HeaderBytes(h, WordAt(buf, 4), WordAt(buf, 6)))
  {
    hide U16, WordAt;
    h := Header(WordAt(buf, 0), WordAt(buf, 2), WordAt(buf, 8), WordAt(buf, 10));
    var qd, an := WordAt(buf, 4), WordAt(buf, 6);
    WordSplits(buf, 0);
    WordSplits(buf, 2);
    WordSplits(buf, 4);
    WordSplits(buf, 6);
    WordSplits(buf, 8);
    WordSplits(buf, 10);
    AtBoth(buf, 0, U16(h.txid), U16(h.flags));
    AtBoth(buf, 0, U16(h.txid) + U16(h.flags), U16(qd));
    AtBoth(buf, 0, U16(h.txid) + U16(h.flags) + U16(qd), U16(an));
    AtBoth(buf, 0, U16(h.txid) + U16(h.flags) + U16(qd) + U16(an), U16(h.ns));
    AtBoth(buf, 0, U16(h.txid) + U16(h.flags) + U16(qd) + U16(an) + U16(h.ns), U16(h.ar));
  }

  /** Arbitrary bytes are accepted exactly when they read as such a response: nothing malformed passes. */
  lemma AcceptsExactly(buf: seq<byte>)
    ensures Accepts(buf) <==> exists h, an, qs, ans, tail :: Reads(buf, h, an, qs, ans, tail)
  {
    hide MessageBytes, QuestionsEnd, AnswersVerdict, WordAt, Spoke, Rcode, HeaderBytes;
    if Accepts(buf) {
      var h := HeaderReads(buf);
      var qd, an := WordAt(buf, 4), WordAt(buf, 6);
      var end := QuestionsEnd(buf, 12, qd).value;
      QuestionsInside(buf, 12, qd);
      var qs := QuestionsRead(buf, 12, qd);
      var ans := AnswersRead(buf, end, an);
      var tail := buf[end + |AnswersBytes(ans)|..];
      Assemble(buf, h, an, qs, ans, tail);
      assert Reads(buf, h, an, qs, ans, tail);
    }
    if h, an, qs, ans, tail :| Reads(buf, h, an, qs, ans, tail) {
      AcceptsMessage(h, an, qs, ans, tail);
    }
  }

  lemma {:induction false} QuestionsInside(buf: seq<byte>, off: nat, n: nat)
    requires off <= |buf| && QuestionsEnd(buf, off, n).Some?
    ensures QuestionsEnd(buf, off, n).value <= |buf|
    decreases n
  {
    hide Skip;
    if n > 0 { QuestionsInside(buf, Skip(buf, off) + 4, n - 1); }
  }

  lemma Assemble(buf: seq<byte>, h: Header, an: u16, qs: seq<Question>, ans: seq<Answer>, tail: seq<byte>)
    requires GoodMessage(qs, ans)
    requires At(buf, 0, HeaderBytes(h, |qs|, an))
    requires |qs| == 0 || At(buf, 12, QuestionsBytes(qs))
    requires At(buf, 12 + |QuestionsBytes(qs)|, AnswersBytes(ans))
    requires tail == buf[12 + |QuestionsBytes(qs)| + |AnswersBytes(ans)|..]
    ensures buf == MessageBytes(h, an, qs, ans, tail)
  {
    var a, b, c := HeaderBytes(h, |qs|, an), QuestionsBytes(qs), AnswersBytes(ans);
    if |qs| == 0 { assert At(buf, 12, b) by { assert b == [] && buf[12..12] == []; } }
    hide HeaderBytes, QuestionsBytes, AnswersBytes, GoodMessage;
    ThreeParts(buf, a, b, c);
    assert MessageBytes(h, an, qs, ans, tail) == a + b + c + tail;
  }

  lemma ThreeParts(buf: seq<byte>, a: seq<byte>, b: seq<byte>, c: seq<byte>)
    requires At(buf, 0, a) && At(buf, |a|, b) && At(buf, |a| + |b|, c)
    ensures buf == a + b + c + buf[|a| + |b| + |c|..]
  {
    AtBoth(buf, 0, a, b);
    AtBoth(buf, 0, a + b, c);
    var off := |a + b + c|;
    assert buf == buf[..off] + buf[off..];
  }
}
