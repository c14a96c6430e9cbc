/** Delivery through a pool of bot tokens (pipeline/notify.py): a token refused as invalid is never used again. */
module TokenPool {
  const OK: int := 200
  const UNAUTHORIZED: int := 401

  datatype Post = Post(token: string, code: int)

  function Refusals(posts: seq<Post>): nat {
    if posts == [] then 0 else Refusals(posts[..|posts| - 1]) + if posts[|posts| - 1].code == UNAUTHORIZED then 1 else 0
  }

  /** A refused token is known as such, is refused once, and is not posted with afterwards. */
  ghost predicate Remembered(rejected: set<string>, posts: seq<Post>) {
    && (forall i :: 0 <= i < |posts| && posts[i].code == UNAUTHORIZED ==> posts[i].token in rejected)
    && (forall i, j :: 0 <= i < j < |posts| && posts[i].code == UNAUTHORIZED ==> posts[j].token != posts[i].token)
    && Refusals(posts) == |rejected|
  }

  lemma PostNext(rejected: set<string>, posts: seq<Post>, p: Post)
    requires Remembered(rejected, posts) && p.token !in rejected
    ensures p.code == UNAUTHORIZED ==> Remembered(rejected + {p.token}, posts + [p])
    ensures p.code != UNAUTHORIZED ==> Remembered(rejected, posts + [p])
  {
    assert (posts + [p])[..|posts|] == posts;
  }

  class Sender {
    var rejected: set<string>
    ghost var posts: seq<Post>
    ghost var sends: nat

    /** Every send costs at most one post beyond the refusals. */
    ghost predicate Valid()
      reads this
    {
      Remembered(rejected, posts) && |posts| <= sends + |rejected|
    }

    constructor ()
      ensures Valid() && rejected == {} && posts == [] && sends == 0
    {
      rejected, posts, sends := {}, [], 0;
    }

    /** `_send_with_pool`, given the code each token is answered with. */
    method Send(pool: seq<string>, answer: string -> int) returns (ok: bool)
      requires Valid()
      modifies this
      ensures Valid() && sends == old(sends) + 1 && |posts| >= |old(posts)| && posts[..|old(posts)|] == old(posts)
      ensures rejected == old(rejected) + RefusedIn(pool, old(rejected), answer)
      ensures ok <==> Deciding(pool, old(rejected), answer) == OK
    {
      hide Remembered, Deciding, RefusedIn;
      sends := sends + 1;
      ghost var before := rejected;
      ok := false;
      for i := 0 to |pool|
        invariant Remembered(rejected, posts) && |posts| + 1 <= sends + |rejected| && !ok
        invariant sends == old(sends) + 1 && |posts| >= |old(posts)| && posts[..|old(posts)|] == old(posts)
        invariant rejected + RefusedIn(pool[i..], rejected, answer) == before + RefusedIn(pool, before, answer)
        invariant Deciding(pool[i..], rejected, answer) == Deciding(pool, before, answer)
      {
        var token := pool[i];
        NextToken(pool[i..], rejected, answer);
        assert pool[i..][1..] == pool[i + 1..] && pool[i..][0] == token;
        if token in rejected { continue; }
        var code := answer(token);
        PostNext(rejected, posts, Post(token, code));
        posts := posts + [Post(token, code)];
        assert code != UNAUTHORIZED ==> Remembered(rejected, posts) && Deciding(pool, before, answer) == code;
        assert code != UNAUTHORIZED ==> rejected == before + RefusedIn(pool, before, answer);
        if code == OK { return true; }
        if code != UNAUTHORIZED { return false; }
        rejected := rejected + {token};
      }
      NoToken(pool[|pool|..], rejected, answer);
    }
  }

  lemma NextToken(pool: seq<string>, rejected: set<string>, answer: string -> int)
    requires pool != []
    ensures var token, rest := pool[0], pool[1..];
      if token in rejected then
        && Deciding(pool, rejected, answer) == Deciding(rest, rejected, answer)
        && RefusedIn(pool, rejected, answer) == RefusedIn(rest, rejected, answer)
      else if answer(token) == UNAUTHORIZED then
        && Deciding(pool, rejected, answer) == Deciding(rest, rejected + {token}, answer)
        && rejected + RefusedIn(pool, rejected, answer)
           == (rejected + {token}) + RefusedIn(rest, rejected + {token}, answer)
      else
        && Deciding(pool, rejected, answer) == answer(token)
        && rejected + RefusedIn(pool, rejected, answer) == rejected
  {
  }

  lemma NoToken(pool: seq<string>, rejected: set<string>, answer: string -> int)
    requires pool == []
    ensures Deciding(pool, rejected, answer) != OK && rejected + RefusedIn(pool, rejected, answer) == rejected
  {
  }

  /** The answer that ends a send: the first one, in pool order, of a token not known as refused that is no refusal. */
  function Deciding(pool: seq<string>, rejected: set<string>, answer: string -> int): int {
    if pool == [] then UNAUTHORIZED
    else if pool[0] in rejected then Deciding(pool[1..], rejected, answer)
    else if answer(pool[0]) == UNAUTHORIZED then Deciding(pool[1..], rejected + {pool[0]}, answer)
    else answer(pool[0])
  }

  function RefusedIn(pool: seq<string>, rejected: set<string>, answer: string -> int): set<string> {
    if pool == [] then {}
    else if pool[0] in rejected then RefusedIn(pool[1..], rejected, answer)
    else if answer(pool[0]) == UNAUTHORIZED then {pool[0]} + RefusedIn(pool[1..], rejected + {pool[0]}, answer)
    else {}
  }

  /** The token at `i` delivers, and every one before it is known as refused or refuses. */
  ghost predicate DeliversAt(pool: seq<string>, rejected: set<string>, answer: string -> int, i: nat) {
    && i < |pool| && pool[i] !in rejected && answer(pool[i]) == OK
    && forall j :: 0 <= j < i ==> pool[j] in rejected || answer(pool[j]) == UNAUTHORIZED
  }

  /** A message is delivered exactly when some usable token delivers it and every usable one before it is refused. */
  lemma {:induction false} DeliveredExactly(pool: seq<string>, rejected: set<string>, answer: string -> int)
    ensures Deciding(pool, rejected, answer) == OK <==> exists i: nat :: DeliversAt(pool, rejected, answer, i)
  {
    if pool == [] {
    } else {
      var rest := pool[1..];
      var known := if pool[0] !in rejected && answer(pool[0]) == UNAUTHORIZED then rejected + {pool[0]} else rejected;
      DeliveredExactly(rest, known, answer);
      if i: nat :| DeliversAt(pool, rejected, answer, i) {
        if i > 0 { assert DeliversAt(rest, known, answer, i - 1); }
      }
      if pool[0] in known {
        if i: nat :| DeliversAt(rest, known, answer, i) { assert DeliversAt(pool, rejected, answer, i + 1); }
      } else if answer(pool[0]) == OK {
        assert DeliversAt(pool, rejected, answer, 0);
      }
    }
  }
}
