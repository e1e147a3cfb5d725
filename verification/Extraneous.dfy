/** The clean-up of extraneous posts: finding contexts that nothing local refers to, and
    deleting them one by one. */
module Extraneous {
  import opened Collections
  import opened PostGraph
  import opened Schema
  import opened Database

  predicate IsLocal(profiles: ProfileTable, p: ProfileId) {
    p in profiles && profiles[p].IsLocal()
  }

  /** Something local is attached to post `q`: its author, a mention, a reaction, or a link
      from a local post. */
  predicate Protected(rows: PostRows, profiles: ProfileTable, q: PostId) {
    || (q in rows.posts && IsLocal(profiles, rows.posts[q].author))
    || (exists m :: m in rows.mentions && m.post == q && IsLocal(profiles, m.profile))
    || (exists r :: r in rows.reactions && r.post == q && IsLocal(profiles, r.author))
    || (exists l :: l in rows.links && l.target == q && l.source in rows.posts && IsLocal(profiles, rows.posts[l.source].author))
  }

  /** A top-level post created before the given time. */
  predicate OldRoot(t: PostTable, r: PostId, before: int) {
    r in t && ParentOf(t[r]).None? && t[r].createdAt < before
  }

  /** Nothing below `r` is recent or protected. */
  predicate IsExtraneous(rows: PostRows, profiles: ProfileTable, before: int, r: PostId) {
    && OldRoot(rows.posts, r, before)
    && forall q :: q in Closure(rows.posts, {r}) ==> rows.posts[q].createdAt < before && !Protected(rows, profiles, q)
  }

  /** `p` has no actor of a remote server. */
  predicate IsUser(profiles: ProfileTable, p: ProfileId) {
    p in profiles && profiles[p].actorId == None
  }

  /** No post of `gone` is by a user of this server, mentions one, has a reaction of one, or is
      linked to by a post of one. */
  predicate NothingLocal(rows: PostRows, profiles: ProfileTable, gone: set<PostId>) {
    && (forall p {:trigger rows.posts[p]} :: p in gone && p in rows.posts ==> !IsUser(profiles, rows.posts[p].author))
    && (forall m :: m in rows.mentions && m.post in gone ==> !IsUser(profiles, m.profile))
    && (forall r :: r in rows.reactions && r.post in gone ==> !IsUser(profiles, r.author))
    && (forall l :: l in rows.links && l.target in gone && l.source in rows.posts ==> !IsUser(profiles, rows.posts[l.source].author))
  }

  /** `r` is on top of its context, nothing in the context is recent, and nothing there concerns
      a user of this server. */
  predicate OfNoUse(rows: PostRows, profiles: ProfileTable, before: int, r: PostId) {
    && r in rows.posts && rows.posts[r].inReplyTo == None && rows.posts[r].repostOf == None
    && (forall q :: q in Closure(rows.posts, {r}) ==> rows.posts[q].createdAt < before)
    && NothingLocal(rows, profiles, Closure(rows.posts, {r}))
  }

  lemma ExtraneousIsOfNoUse(rows: PostRows, profiles: ProfileTable, before: int, r: PostId)
    ensures IsExtraneous(rows, profiles, before, r) <==> OfNoUse(rows, profiles, before, r)
  {
    if r in rows.posts {
      ClosureIsLeast(rows.posts, {r});
      var gone := Closure(rows.posts, {r});
      assert r in gone;
      forall q | q in gone ensures !Protected(rows, profiles, q) <==> NothingLocal(rows, profiles, {q}) {
        ProtectedByLocal(rows, profiles, q);
      }
      if forall q :: q in gone ==> NothingLocal(rows, profiles, {q}) {
        NothingLocalAmong(rows, profiles, gone);
      }
    }
  }

  lemma ProtectedByLocal(rows: PostRows, profiles: ProfileTable, q: PostId)
    requires q in rows.posts
    ensures Protected(rows, profiles, q) <==> !NothingLocal(rows, profiles, {q})
  {
    assert q in {q};
  }

  lemma NothingLocalAmong(rows: PostRows, profiles: ProfileTable, gone: set<PostId>)
    requires forall q :: q in gone ==> NothingLocal(rows, profiles, {q})
    ensures NothingLocal(rows, profiles, gone)
  {
    forall q | q in gone ensures NothingLocal(rows, profiles, {q}) && q in {q} {
    }
  }

  /** The pairs of the recursive query: a root and a post of its context. */
  ghost predicate IsContextOf(t: PostTable, roots: set<PostId>, context: set<(PostId, PostId)>) {
    forall r, q :: (r, q) in context <==> r in roots && r in t && q in Closure(t, {r})
  }

  function Joined(t: PostTable, working: set<(PostId, PostId)>): set<(PostId, PostId)> {
    set c, q | c in working && q in Children(t, {c.1}) :: (c.0, q)
  }

  /** The replies and reposts of the second post are paired with the same root. */
  predicate Expanded(t: PostTable, context: set<(PostId, PostId)>, c: (PostId, PostId)) {
    forall q :: q in Children(t, {c.1}) ==> (c.0, q) in context
  }

  /** Once every pair is expanded, a root is paired with its whole closure. */
  lemma ExpandedCovers(t: PostTable, context: set<(PostId, PostId)>, r: PostId)
    requires r in t && (r, r) in context
    requires forall c :: c in context ==> c.1 in t && Expanded(t, context, c)
    ensures forall q :: q in Closure(t, {r}) ==> (r, q) in context
  {
    var below := set c | c in context && c.0 == r :: c.1;
    forall q | q in Children(t, below) ensures q in below {
      var p :| p in below && q in Children(t, {p});
      assert Expanded(t, context, (r, p));
      assert (r, q) in context && (r, q).0 == r;
    }
    assert (r, r).1 in below;
    assert {r} <= below && Closed(t, below);
    ClosureIsLeast(t, {r});
    forall q | q in Closure(t, {r}) ensures (r, q) in context {
      assert q in below;
    }
  }

  lemma JoinStaysInside(t: PostTable, roots: set<PostId>, working: set<(PostId, PostId)>)
    requires roots <= t.Keys
    requires forall c :: c in working ==> c.0 in roots && c.1 in Closure(t, {c.0})
    ensures forall c :: c in Joined(t, working) ==> c.0 in roots && c.1 in Closure(t, {c.0})
  {
    forall c | c in Joined(t, working) ensures c.0 in roots && c.1 in Closure(t, {c.0}) {
      var p :| p in working && p.0 == c.0 && c.1 in Children(t, {p.1});
      ClosureIsLeast(t, {c.0});
      assert c.1 in Children(t, Closure(t, {c.0}));
    }
  }

  /** `WITH RECURSIVE context_post ... UNION` */
  method SelectContexts(t: PostTable, roots: set<PostId>) returns (context: set<(PostId, PostId)>)
    requires roots <= t.Keys
    ensures IsContextOf(t, roots, context)
  {
    context := set r | r in roots :: (r, r);
    var working := context;
    ghost var all := set r, q | r in t && q in t :: (r, q);
    while working != {}
      invariant working <= context <= all
      invariant forall r :: r in roots ==> (r, r) in context
      invariant forall c :: c in context ==> c.0 in roots && c.1 in Closure(t, {c.0})
      invariant forall c :: c in context - working ==> Expanded(t, context, c)
      decreases all - context, |working|
    {
      var next := Joined(t, working) - context;
      JoinStaysInside(t, roots, working);
      forall c | c in context ensures Expanded(t, context + next, c) {
        if c in working {
          assert forall q :: q in Children(t, {c.1}) ==> (c.0, q) in Joined(t, working);
        } else {
          assert Expanded(t, context, c);
        }
      }
      assert context + next <= all;
      context, working := context + next, next;
    }
    forall r | r in roots ensures forall q :: q in Closure(t, {r}) ==> (r, q) in context {
      ExpandedCovers(t, context, r);
    }
  }

  /** `find_extraneous_posts` */
  method FindExtraneousPosts(rows: PostRows, profiles: ProfileTable, before: int) returns (found: set<PostId>)
    ensures forall r :: r in found <==> IsExtraneous(rows, profiles, before, r)
    ensures forall r :: r in found <==> OfNoUse(rows, profiles, before, r)
  {
    forall r ensures IsExtraneous(rows, profiles, before, r) <==> OfNoUse(rows, profiles, before, r) {
      ExtraneousIsOfNoUse(rows, profiles, before, r);
    }
    var t := rows.posts;
    var roots := set r | r in t && OldRoot(t, r, before);
    var context := SelectContexts(t, roots);
    found := set r | r in roots && forall c :: c in context && c.0 == r ==> t[c.1].createdAt < before && !Protected(rows, profiles, c.1);
  }

  /** What `find_extraneous_posts` finds. */
  function ExtraneousPosts(rows: PostRows, profiles: ProfileTable, before: int): set<PostId> {
    set r | r in rows.posts && IsExtraneous(rows, profiles, before, r)
  }

  /** The posts below some of the roots. */
  function BelowAny(t: PostTable, roots: set<PostId>): set<PostId>
    requires roots <= t.Keys
  {
    set r, q | r in roots && q in Closure(t, {r}) :: q
  }

  lemma BelowAnyIsClosed(t: PostTable, roots: set<PostId>)
    requires roots <= t.Keys
    ensures Closed(t, BelowAny(t, roots)) && roots <= BelowAny(t, roots)
  {
    forall q | q in Children(t, BelowAny(t, roots)) ensures q in BelowAny(t, roots) {
      var r :| r in roots && PointsInto(t[q], Closure(t, {r}));
      ClosureIsLeast(t, {r});
      assert q in Children(t, Closure(t, {r}));
    }
    forall r | r in roots ensures r in BelowAny(t, roots) {
      assert r in Closure(t, {r});
    }
  }

  lemma RemovalsCompose(rows: PostRows, a: set<PostId>, b: set<PostId>)
    ensures RowsWithout(RowsWithout(rows, a), b) == RowsWithout(rows, a + b)
  {
  }

  /** Deleting other roots first does not change what lies below `r`. */
  lemma NextRootUntouched(t: PostTable, depth: map<PostId, nat>, done: set<PostId>, r: PostId)
    requires Forest(t, depth) && done <= t.Keys && r in t && r !in done
    requires ParentOf(t[r]).None? && forall d :: d in done ==> ParentOf(t[d]).None?
    ensures r in t - BelowAny(t, done)
    ensures Closure(t - BelowAny(t, done), {r}) == Closure(t, {r})
    ensures BelowAny(t, done) + Closure(t, {r}) == BelowAny(t, done + {r})
  {
    forall d | d in done ensures Closure(t, {d}) !! Closure(t, {r}) {
      RootsDisjoint(t, depth, d, r);
    }
    assert BelowAny(t, done) !! Closure(t, {r});
    BelowAnyIsClosed(t, done);
    ClosureAfterRemoval(t, BelowAny(t, done), {r});
    assert r in Closure(t, {r});
    assert {r} - BelowAny(t, done) == {r};
  }

  /** One more root is deleted, out of the tables `rows` from which `done` are already gone. */
  method DeleteNextRoot(store: Database, ghost rows: PostRows, ghost done: set<PostId>, id: PostId) returns (deleted: bool)
    requires store.RowsValid() && store.CountersValid()
    requires Forest(rows.posts, store.depth) && done <= rows.posts.Keys && id in rows.posts && id !in done
    requires ParentOf(rows.posts[id]).None? && forall d :: d in done ==> ParentOf(rows.posts[d]).None?
    requires store.rows == RowsWithout(rows, BelowAny(rows.posts, done))
    modifies store`rows, store`counters
    ensures store.RowsValid() && store.CountersValid()
    ensures deleted
    ensures store.rows == RowsWithout(rows, BelowAny(rows.posts, done + {id}))
  {
    NextRootUntouched(rows.posts, store.depth, done, id);
    RemovalsCompose(rows, BelowAny(rows.posts, done), Closure(rows.posts, {id}));
    var result := store.DeletePost(id);
    deleted := result.Success?;
  }

  /** The deletion loop of `delete_extraneous_posts` over a set of top-level posts. Their
      contexts are disjoint, so every deletion succeeds. */
  method DeleteRoots(store: Database, roots: set<PostId>) returns (deleted: bool)
    requires store.RowsValid() && store.CountersValid()
    requires roots <= store.rows.posts.Keys && forall r :: r in roots ==> ParentOf(store.rows.posts[r]).None?
    modifies store`rows, store`counters
    ensures store.RowsValid() && store.CountersValid()
    ensures deleted
    ensures store.rows == RowsWithout(old(store.rows), BelowAny(old(store.rows).posts, roots))
  {
    ghost var rows := store.rows;
    var todo := roots;
    NothingBelowNothing(rows);
    assert roots - todo == {};
    while todo != {}
      invariant todo <= roots
      invariant store.RowsValid() && store.CountersValid()
      invariant store.rows == RowsWithout(rows, BelowAny(rows.posts, roots - todo))
      decreases |todo|
    {
      var id :| id in todo;
      deleted := DeleteNextRoot(store, rows, roots - todo, id);
      if !deleted {
        return;
      }
      assert roots - todo + {id} == roots - (todo - {id});
      todo := todo - {id};
    }
    assert roots - todo == roots;
    deleted := true;
  }

  lemma NothingBelowNothing(rows: PostRows)
    ensures RowsWithout(rows, BelowAny(rows.posts, {})) == rows
  {
  }

  /** Users of this server keep their posts, mentions and reactions, and the links they made
      together with the posts they lead to. */
  predicate UsersKeepTheirs(before: PostRows, after: PostRows, profiles: ProfileTable) {
    && (forall p {:trigger before.posts[p]} :: p in before.posts && IsUser(profiles, before.posts[p].author) ==>
          p in after.posts && after.posts[p] == before.posts[p])
    && (forall m :: m in before.mentions && IsUser(profiles, m.profile) ==> m in after.mentions)
    && (forall r :: r in before.reactions && IsUser(profiles, r.author) ==>
          && r in after.reactions && (r in before.likeIds ==> r in after.likeIds && after.likeIds[r] == before.likeIds[r]))
    && (forall l :: l in before.links && l.source in before.posts && IsUser(profiles, before.posts[l.source].author)
                    && l.target in before.posts ==>
          l in after.links && l.target in after.posts)
  }

  lemma NoUserLosesAny(rows: PostRows, profiles: ProfileTable, found: set<PostId>, before: int)
    requires found <= rows.posts.Keys && forall r :: r in found ==> OfNoUse(rows, profiles, before, r)
    ensures UsersKeepTheirs(rows, RowsWithout(rows, BelowAny(rows.posts, found)), profiles)
  {
    var gone := BelowAny(rows.posts, found);
    forall q | q in gone ensures NothingLocal(rows, profiles, {q}) {
      var r :| r in found && q in Closure(rows.posts, {r});
      assert NothingLocal(rows, profiles, Closure(rows.posts, {r}));
    }
    NothingLocalAmong(rows, profiles, gone);
  }

  /** A full run of `delete_extraneous_posts`: every deletion succeeds, exactly the contexts
      found are removed, and no post that was recent or protected when the run began is
      among them. */
  method DeleteExtraneousPosts(store: Database, before: int) returns (deleted: bool)
    requires store.RowsValid() && store.CountersValid()
    modifies store`rows, store`counters
    ensures store.RowsValid() && store.CountersValid()
    ensures deleted
    ensures var found := ExtraneousPosts(old(store.rows), store.profiles, before);
            store.rows == RowsWithout(old(store.rows), BelowAny(old(store.rows).posts, found))
    ensures UsersKeepTheirs(old(store.rows), store.rows, store.profiles)
    ensures forall r :: OfNoUse(old(store.rows), store.profiles, before, r) ==> Closure(old(store.rows).posts, {r}) !! store.rows.posts.Keys
    ensures forall q :: q in old(store.rows).posts && q !in store.rows.posts ==>
              exists r :: OfNoUse(old(store.rows), store.profiles, before, r) && q in Closure(old(store.rows).posts, {r})
    ensures forall q :: q in old(store.rows).posts ==>
              (q !in store.rows.posts <==>
                 exists root :: IsExtraneous(old(store.rows), store.profiles, before, root) && q in Closure(old(store.rows).posts, {root}))
    ensures forall q :: q in old(store.rows).posts
                        && (Protected(old(store.rows), store.profiles, q) || old(store.rows).posts[q].createdAt >= before) ==>
              q in store.rows.posts && store.rows.posts[q] == old(store.rows).posts[q]
  {
    var found := FindExtraneousPosts(store.rows, store.profiles, before);
    assert found == ExtraneousPosts(store.rows, store.profiles, before);
    NoUserLosesAny(store.rows, store.profiles, found, before);
    deleted := DeleteRoots(store, found);
  }
}
