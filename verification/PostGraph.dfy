/** The post table as a graph: reply and repost edges point from a post to its parent.
    `Closure` is what the recursive queries of `delete_post`, `delete_profile` and
    `find_extraneous_posts` select. */
module PostGraph {
  import opened Collections

  /** UUIDs, which the database compares as 128-bit numbers. */
  datatype PostId = PostId(uuid: nat)
  datatype ProfileId = ProfileId(uuid: nat)

  datatype Visibility = Public | Direct | Followers | Subscribers

  /** The columns of a post row other than its three counters. */
  datatype Post = Post(
    author: ProfileId,
    content: string,
    inReplyTo: Option<PostId>,
    repostOf: Option<PostId>,
    visibility: Visibility,
    isSensitive: bool,
    objectId: Option<string>,
    ipfsCid: Option<string>,
    createdAt: int)

  type PostTable = map<PostId, Post>

  /** `row` replies to or reposts a post of `s`. */
  predicate PointsInto(row: Post, s: set<PostId>) {
    || (row.inReplyTo.Some? && row.inReplyTo.value in s)
    || (row.repostOf.Some? && row.repostOf.value in s)
  }

  function Children(t: PostTable, s: set<PostId>): set<PostId> {
    set q | q in t && PointsInto(t[q], s)
  }

  predicate Closed(t: PostTable, c: set<PostId>) {
    Children(t, c) <= c
  }

  /** Least set that contains `s` and, with each post, its replies and reposts. */
  function Closure(t: PostTable, s: set<PostId>): (c: set<PostId>)
    requires s <= t.Keys
    ensures s <= c <= t.Keys
    decreases t.Keys - s
  {
    if Closed(t, s) then s else Closure(t, s + Children(t, s))
  }

  lemma {:induction false} ClosureIsLeast(t: PostTable, s: set<PostId>)
    requires s <= t.Keys
    ensures Closed(t, Closure(t, s))
    ensures forall c :: s <= c && Closed(t, c) ==> Closure(t, s) <= c
    decreases t.Keys - s
  {
    if !Closed(t, s) {
      ClosureIsLeast(t, s + Children(t, s));
      forall c | s <= c && Closed(t, c) ensures Closure(t, s) <= c {
        assert Children(t, s) <= Children(t, c);
      }
    }
  }

  /** Between `s` and its closure, any closed set is the closure. */
  lemma ClosureUnique(t: PostTable, s: set<PostId>, c: set<PostId>)
    requires s <= t.Keys
    requires s <= c <= Closure(t, s) && Closed(t, c)
    ensures c == Closure(t, s)
  {
    ClosureIsLeast(t, s);
  }

  /** Every member that is not a seed was reached through an edge into the closure. */
  lemma {:induction false} ClosureHasParents(t: PostTable, s: set<PostId>)
    requires s <= t.Keys
    ensures forall q :: q in Closure(t, s) && q !in s ==> PointsInto(t[q], Closure(t, s))
    decreases t.Keys - s
  {
    if !Closed(t, s) {
      var u := s + Children(t, s);
      ClosureHasParents(t, u);
      forall q | q in Closure(t, s) && q !in s ensures PointsInto(t[q], Closure(t, s)) {
        if q in u {
          assert PointsInto(t[q], s);
        }
      }
    }
  }

  function ParentOf(row: Post): Option<PostId> {
    if row.inReplyTo.Some? then row.inReplyTo else row.repostOf
  }

  /** What the insert guards and `Post::new` keep true of one row: at most one edge, to a
      stored post that is not a repost (and public when reposted) and lies higher up. */
  predicate EdgeOk(t: PostTable, depth: map<PostId, nat>, q: PostId)
    requires q in t
  {
    && q in depth
    && !(t[q].inReplyTo.Some? && t[q].repostOf.Some?)
    && (ParentOf(t[q]).Some? ==>
          var p := ParentOf(t[q]).value;
          && p in t && p in depth && depth[p] < depth[q]
          && t[p].repostOf.None?)
    && (t[q].repostOf.Some? ==> t[q].repostOf.value in t && t[t[q].repostOf.value].visibility.Public?)
  }

  /** The reply and repost edges form a forest; `depth` witnesses that they are acyclic. */
  predicate Forest(t: PostTable, depth: map<PostId, nat>) {
    && t.Keys <= depth.Keys
    && (forall q {:trigger EdgeOk(t, depth, q)} {:trigger ParentOf(t[q])} :: q in t ==> EdgeOk(t, depth, q))
  }

  /** Reference definition of the closure: walk up from `q` and look for a post of `s`. */
  predicate DescendsFrom(t: PostTable, depth: map<PostId, nat>, q: PostId, s: set<PostId>)
    requires Forest(t, depth) && q in t
    decreases depth[q]
  {
    || q in s
    || (ParentOf(t[q]).Some? && DescendsFrom(t, depth, ParentOf(t[q]).value, s))
  }

  lemma {:induction false} DescendantIsInClosure(t: PostTable, depth: map<PostId, nat>, q: PostId, s: set<PostId>)
    requires Forest(t, depth) && q in t && s <= t.Keys
    requires DescendsFrom(t, depth, q, s)
    ensures q in Closure(t, s)
    decreases depth[q]
  {
    if q !in s {
      var p := ParentOf(t[q]).value;
      assert EdgeOk(t, depth, q);
      DescendantIsInClosure(t, depth, p, s);
      ClosureIsLeast(t, s);
      assert PointsInto(t[q], Closure(t, s));
      assert q in Children(t, Closure(t, s));
    }
  }

  /** The recursive query selects exactly the posts that have a seed on their parent chain. */
  lemma ClosureIsDescendants(t: PostTable, depth: map<PostId, nat>, q: PostId, s: set<PostId>)
    requires Forest(t, depth) && q in t && s <= t.Keys
    ensures q in Closure(t, s) <==> DescendsFrom(t, depth, q, s)
    decreases depth[q]
  {
    if DescendsFrom(t, depth, q, s) {
      DescendantIsInClosure(t, depth, q, s);
    } else if q in Closure(t, s) {
      ClosureHasParents(t, s);
      ClosureIsDescendants(t, depth, ParentOf(t[q]).value, s);
    }
  }

  /** A post is never among the descendants of its own replies and reposts: its parent
      survives its deletion. */
  lemma {:induction false} ParentOutsideClosure(t: PostTable, depth: map<PostId, nat>, q: PostId)
    requires Forest(t, depth) && q in t && ParentOf(t[q]).Some?
    ensures ParentOf(t[q]).value !in Closure(t, {q})
  {
    var below := set r | r in t && depth[r] >= depth[q];
    forall r | r in Children(t, below) ensures r in below {
      assert EdgeOk(t, depth, r);
    }
    assert Closed(t, below);
    assert EdgeOk(t, depth, q);
    ClosureIsLeast(t, {q});
  }

  /** Nothing replies to or reposts a repost. */
  lemma RepostIsLeaf(t: PostTable, depth: map<PostId, nat>, p: PostId)
    requires Forest(t, depth) && p in t && t[p].repostOf.Some?
    ensures Closure(t, {p}) == {p}
  {
    forall q | q in t ensures !PointsInto(t[q], {p}) {
      assert EdgeOk(t, depth, q);
    }
    ClosureIsLeast(t, {p});
  }

  /** Two posts without parents have disjoint descendants. */
  lemma {:induction false} RootsDisjoint(t: PostTable, depth: map<PostId, nat>, a: PostId, b: PostId)
    requires Forest(t, depth) && a in t && b in t && a != b
    requires ParentOf(t[a]).None? && ParentOf(t[b]).None?
    ensures Closure(t, {a}) !! Closure(t, {b})
  {
    forall q | q in Closure(t, {a}) && q in Closure(t, {b}) ensures false {
      OneRoot(t, depth, q, a, b);
    }
  }

  lemma {:induction false} OneRoot(t: PostTable, depth: map<PostId, nat>, q: PostId, a: PostId, b: PostId)
    requires Forest(t, depth) && a in t && b in t && q in t
    requires ParentOf(t[a]).None? && ParentOf(t[b]).None?
    requires q in Closure(t, {a}) && q in Closure(t, {b})
    ensures a == b
    decreases depth[q]
  {
    ClosureHasParents(t, {a});
    ClosureHasParents(t, {b});
    if q != a && q != b {
      OneRoot(t, depth, ParentOf(t[q]).value, a, b);
    }
  }

  /** Removing a closed set of posts leaves every other closure without those posts. */
  lemma {:induction false} ClosureAfterRemoval(t: PostTable, gone: set<PostId>, s: set<PostId>)
    requires s <= t.Keys && Closed(t, gone)
    ensures s - gone <= (t - gone).Keys
    ensures Closure(t - gone, s - gone) <= Closure(t, s)
    ensures Closure(t, s) !! gone ==> Closure(t - gone, s - gone) == Closure(t, s)
  {
    var t' := t - gone;
    var c := Closure(t, s);
    ClosureIsLeast(t, s);
    ClosureIsLeast(t', s - gone);
    assert s - gone <= c - gone;
    assert Closed(t', c - gone) by {
      forall q | q in Children(t', c - gone) ensures q in c - gone {
        assert q in Children(t, c);
      }
    }
    if c !! gone {
      var c' := Closure(t', s - gone);
      assert s - gone == s;
      assert Closed(t, c') by {
        forall q | q in Children(t, c') ensures q in c' {
          assert c' <= c;
          assert q in Children(t, c);
          assert q in Children(t', c');
        }
      }
    }
  }

  lemma ForestWithout(t: PostTable, depth: map<PostId, nat>, gone: set<PostId>)
    requires Forest(t, depth) && Closed(t, gone)
    ensures Forest(t - gone, depth)
  {
    var t' := t - gone;
    forall q | q in t' ensures EdgeOk(t', depth, q) {
      assert EdgeOk(t, depth, q);
      assert q !in Children(t, gone);
    }
  }

  // The rows a counter summarises

  function Replies(t: PostTable, p: PostId): set<PostId> {
    set q | q in t && t[q].inReplyTo == Some(p)
  }

  function Reposts(t: PostTable, p: PostId): set<PostId> {
    set q | q in t && t[q].repostOf == Some(p)
  }

  function AuthoredBy(t: PostTable, a: ProfileId): set<PostId> {
    set q | q in t && t[q].author == a
  }

  /** Boundary lemma: deleting the closure of `s` takes from a surviving post only those of
      its replies and reposts that are seeds themselves. */
  lemma {:induction false} OnlySeedsCrossBoundary(t: PostTable, depth: map<PostId, nat>, s: set<PostId>, p: PostId)
    requires Forest(t, depth) && s <= t.Keys && p !in Closure(t, s)
    ensures Replies(t - Closure(t, s), p) == Replies(t, p) - (Replies(t, p) * s)
    ensures Reposts(t - Closure(t, s), p) == Reposts(t, p) - (Reposts(t, p) * s)
    ensures |Replies(t - Closure(t, s), p)| == |Replies(t, p)| - |Replies(t, p) * s|
    ensures |Reposts(t - Closure(t, s), p)| == |Reposts(t, p)| - |Reposts(t, p) * s|
  {
    var c := Closure(t, s);
    ClosureHasParents(t, s);
    forall q | q in c && q !in s
      ensures q !in Replies(t, p) && q !in Reposts(t, p)
    {
      assert EdgeOk(t, depth, q);
    }
    assert Replies(t, p) * s * Replies(t, p) == Replies(t, p) * s;
    assert Reposts(t, p) * s * Reposts(t, p) == Reposts(t, p) * s;
    assert Replies(t - c, p) == Replies(t, p) - (Replies(t, p) * s);
    assert Reposts(t - c, p) == Reposts(t, p) - (Reposts(t, p) * s);
  }

  /** `WITH RECURSIVE ... UNION`: each round joins the rows found in the last one. */
  method SelectContext(t: PostTable, seeds: set<PostId>) returns (context: set<PostId>)
    requires seeds <= t.Keys
    ensures context == Closure(t, seeds)
  {
    context := seeds;
    var working := seeds;
    ClosureIsLeast(t, seeds);
    while working != {}
      invariant seeds <= context <= Closure(t, seeds)
      invariant working <= context
      invariant Children(t, context - working) <= context
      decreases t.Keys - context, |working|
    {
      var next := Children(t, working) - context;
      assert Children(t, working) <= Children(t, Closure(t, seeds));
      assert Children(t, context) <= Children(t, context - working) + Children(t, working);
      assert context + next - next == context;
      context, working := context + next, next;
    }
    assert context - working == context;
    ClosureUnique(t, seeds, context);
  }

  /** `DELETE ... ON DELETE CASCADE`: removing a row removes the rows that reference it. */
  method CascadeDelete(t: PostTable, seeds: set<PostId>) returns (rest: PostTable)
    requires seeds <= t.Keys
    ensures rest == t - Closure(t, seeds)
  {
    rest := t;
    var pending := seeds;
    ghost var gone: set<PostId> := {};
    ClosureIsLeast(t, seeds);
    while pending != {}
      invariant rest == t - gone && gone <= t.Keys
      invariant seeds <= gone + pending <= Closure(t, seeds)
      invariant pending !! gone
      invariant Children(t, gone) <= gone + pending
      decreases rest.Keys
    {
      var p :| p in pending;
      assert Children(t, {p}) <= Children(t, Closure(t, seeds));
      assert Children(t, gone + {p}) <= Children(t, gone) + Children(t, {p});
      rest := rest - {p};
      gone := gone + {p};
      pending := pending - {p} + Children(rest, {p});
    }
    ClosureUnique(t, seeds, gone);
  }
}
