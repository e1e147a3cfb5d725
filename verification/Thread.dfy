/** `get_thread` and `get_context`: the reply tree around a post, ordered by tree path. */
module Thread {
  import opened Collections
  import opened PostGraph
  import opened Schema

  /** A row of the recursive query `thread (id, path)`. */
  datatype Row = Row(id: PostId, path: seq<PostId>)

  /** `build_visibility_filter`; the viewer is NULL for anonymous requests. */
  predicate Visible(rows: PostRows, relationships: set<Relationship>, viewer: Option<ProfileId>, p: PostId)
    requires p in rows.posts
  {
    var post := rows.posts[p];
    || post.visibility.Public?
    || (viewer.Some? &&
        (|| post.author == viewer.value
         || Mention(p, viewer.value) in rows.mentions
         || (post.visibility.Followers? && FollowRow(viewer.value, post.author) in relationships)))
  }

  /** Who may read a post: everybody a Public one, nobody anonymous any other; a Followers one
      also the followers of its author, and each its author and those mentioned. */
  predicate MayRead(rows: PostRows, relationships: set<Relationship>, viewer: Option<ProfileId>, p: PostId)
    requires p in rows.posts
  {
    match (rows.posts[p].visibility, viewer)
    case (Public, _) => true
    case (_, None) => false
    case (Followers, Some(v)) =>
      || v == rows.posts[p].author || Mention(p, v) in rows.mentions
      || Relationship(v, rows.posts[p].author, RelationshipType.Follow) in relationships
    case (_, Some(v)) => v == rows.posts[p].author || Mention(p, v) in rows.mentions
  }

  /** The filter of the query selects exactly what the viewer may read. */
  lemma FilterIsMayRead(rows: PostRows, relationships: set<Relationship>, viewer: Option<ProfileId>, p: PostId)
    requires p in rows.posts
    ensures Visible(rows, relationships, viewer, p) <==> MayRead(rows, relationships, viewer, p)
  {
    match viewer
    case None =>
    case Some(v) => assert FollowRow(v, rows.posts[p].author) == Relationship(v, rows.posts[p].author, RelationshipType.Follow);
  }

  /** From the root of the reply tree down to `q`. */
  function RootPath(t: PostTable, depth: map<PostId, nat>, q: PostId): (path: seq<PostId>)
    requires Forest(t, depth) && q in t
    ensures path != [] && path[|path| - 1] == q
    decreases depth[q]
  {
    assert EdgeOk(t, depth, q);
    if t[q].inReplyTo.None? then [q] else RootPath(t, depth, t[q].inReplyTo.value) + [q]
  }

  function RowOf(t: PostTable, depth: map<PostId, nat>, q: PostId): Row
    requires Forest(t, depth) && q in t
  {
    Row(q, RootPath(t, depth, q))
  }

  // The order of arrays: lexicographic, a proper prefix first

  predicate PathLess(a: seq<PostId>, b: seq<PostId>) {
    if b == [] then false
    else if a == [] then true
    else if a[0] != b[0] then a[0].uuid < b[0].uuid
    else PathLess(a[1..], b[1..])
  }

  lemma {:induction false} PathLessTotal(a: seq<PostId>, b: seq<PostId>)
    ensures a == b || PathLess(a, b) || PathLess(b, a)
  {
    if a != [] && b != [] && a[0] == b[0] {
      PathLessTotal(a[1..], b[1..]);
      assert a == [a[0]] + a[1..] && b == [b[0]] + b[1..];
    } else if a != [] && b != [] {
      assert a[0].uuid != b[0].uuid;
    }
  }

  lemma {:induction false} PathLessTransitive(a: seq<PostId>, b: seq<PostId>, c: seq<PostId>)
    requires PathLess(a, b) && PathLess(b, c)
    ensures PathLess(a, c)
  {
    if a != [] && a[0] == b[0] && b[0] == c[0] {
      PathLessTransitive(a[1..], b[1..], c[1..]);
    }
  }

  lemma {:induction false} PathLessIrreflexive(a: seq<PostId>)
    ensures !PathLess(a, a)
  {
    if a != [] {
      PathLessIrreflexive(a[1..]);
    }
  }

  lemma {:induction false} PrefixIsLess(a: seq<PostId>, b: seq<PostId>)
    requires a < b
    ensures PathLess(a, b)
  {
    if a != [] {
      PrefixIsLess(a[1..], b[1..]);
    }
  }

  /** Paths that part ways after `p` are ordered by the ids at which they part. */
  lemma {:induction false} DivergingPaths(p: seq<PostId>, a: seq<PostId>, b: seq<PostId>)
    requires p <= a && p <= b && |p| < |a| && |p| < |b|
    requires a[|p|].uuid < b[|p|].uuid
    ensures PathLess(a, b)
  {
    if p != [] {
      DivergingPaths(p[1..], a[1..], b[1..]);
    }
  }

  predicate SortedByPath(s: seq<Row>) {
    forall i, j :: 0 <= i < j < |s| ==> PathLess(s[i].path, s[j].path)
  }

  /** A set of rows has only one order. */
  lemma {:induction false} SortedIsUnique(a: seq<Row>, b: seq<Row>)
    requires SortedByPath(a) && SortedByPath(b) && Elements(a) == Elements(b)
    ensures a == b
  {
    if b != [] {
      assert b[0] in Elements(b);
    }
    if a != [] {
      assert a[0] in Elements(b);
      HeadsAgree(a, b);
      TailElements(a);
      TailElements(b);
      SortedIsUnique(a[1..], b[1..]);
      assert a == [a[0]] + a[1..] && b == [b[0]] + b[1..];
    }
  }

  lemma HeadsAgree(a: seq<Row>, b: seq<Row>)
    requires SortedByPath(a) && SortedByPath(b) && Elements(a) == Elements(b) && a != [] && b != []
    ensures a[0] == b[0]
  {
    assert a[0] in Elements(b) && b[0] in Elements(a);
    var i :| 0 <= i < |b| && b[i] == a[0];
    var j :| 0 <= j < |a| && a[j] == b[0];
    if i > 0 && j > 0 {
      PathLessTransitive(a[0].path, a[j].path, b[i].path);
      PathLessIrreflexive(a[0].path);
    }
  }

  lemma TailElements(s: seq<Row>)
    requires SortedByPath(s) && s != []
    ensures SortedByPath(s[1..]) && Elements(s[1..]) == Elements(s) - {s[0]}
  {
    assert s == [s[0]] + s[1..];
    if s[0] in s[1..] {
      var i :| 0 < i < |s| && s[i] == s[0];
      PathLessIrreflexive(s[0].path);
    }
  }

  // Paths in the reply tree

  /** Every post on a path has the beginning of the path as its own, and replies to the one
      before it. */
  lemma {:induction false} PathPrefix(t: PostTable, depth: map<PostId, nat>, q: PostId, k: nat)
    requires Forest(t, depth) && q in t && k < |RootPath(t, depth, q)|
    ensures var path := RootPath(t, depth, q);
            && path[k] in t && RootPath(t, depth, path[k]) == path[..k + 1]
            && t[path[k]].inReplyTo == (if k == 0 then None else Some(path[k - 1]))
    decreases depth[q]
  {
    var path := RootPath(t, depth, q);
    assert EdgeOk(t, depth, q);
    if k == |path| - 1 {
      assert path[..k + 1] == path;
    } else {
      var parent := t[q].inReplyTo.value;
      PathPrefix(t, depth, parent, k);
      assert RootPath(t, depth, parent)[..k + 1] == path[..k + 1];
    }
  }

  /** Different posts have different paths; the path of an ancestor is a proper prefix. */
  predicate IsAncestor(t: PostTable, depth: map<PostId, nat>, a: PostId, q: PostId)
    requires Forest(t, depth) && a in t && q in t
  {
    RootPath(t, depth, a) < RootPath(t, depth, q)
  }

  /** Walking up the reply chain meets exactly the posts whose path is a proper prefix. */
  lemma {:induction false} AncestorsOnChain(t: PostTable, depth: map<PostId, nat>, a: PostId, q: PostId)
    requires Forest(t, depth) && a in t && q in t
    ensures IsAncestor(t, depth, a, q) <==>
              && t[q].inReplyTo.Some? && t[q].inReplyTo.value in t
              && (t[q].inReplyTo.value == a || IsAncestor(t, depth, a, t[q].inReplyTo.value))
  {
    assert EdgeOk(t, depth, q);
    if t[q].inReplyTo.Some? {
      var parent := t[q].inReplyTo.value;
      var path, up := RootPath(t, depth, q), RootPath(t, depth, parent);
      assert path == up + [q];
      if RootPath(t, depth, a) < path {
        assert RootPath(t, depth, a) <= up;
        if RootPath(t, depth, a) == up {
          assert a == up[|up| - 1] == parent;
        }
      }
    }
  }

  // The recursive queries

  /** `ancestors`: climb to the top of the reply chain. */
  method SelectRoot(t: PostTable, ghost depth: map<PostId, nat>, id: PostId) returns (root: PostId)
    requires Forest(t, depth) && id in t
    ensures root == RootPath(t, depth, id)[0]
    ensures root in t && t[root].inReplyTo.None?
  {
    root := id;
    while t[root].inReplyTo.Some?
      invariant root in t && RootPath(t, depth, root)[0] == RootPath(t, depth, id)[0]
      decreases depth[root]
    {
      assert EdgeOk(t, depth, root);
      root := t[root].inReplyTo.value;
    }
  }

  function ReplyTo(t: PostTable, p: PostId): set<PostId> {
    set q | q in t && t[q].inReplyTo == Some(p)
  }

  /** The rows below a path: every post whose own path begins with it. */
  function Below(t: PostTable, depth: map<PostId, nat>, path: seq<PostId>): set<Row>
    requires Forest(t, depth)
  {
    set q | q in t && path <= RootPath(t, depth, q) :: RowOf(t, depth, q)
  }

  function JoinReplies(t: PostTable, working: set<Row>): set<Row> {
    set w, q | w in working && q in ReplyTo(t, w.id) :: Row(q, w.path + [q])
  }

  predicate RepliesIncluded(t: PostTable, thread: set<Row>, w: Row) {
    forall q :: q in ReplyTo(t, w.id) ==> Row(q, w.path + [q]) in thread
  }

  lemma JoinedPaths(t: PostTable, depth: map<PostId, nat>, root: PostId, working: set<Row>)
    requires Forest(t, depth) && root in t
    requires working <= Below(t, depth, [root])
    ensures JoinReplies(t, working) <= Below(t, depth, [root])
  {
  }

  /** `thread`: the root with its path, then replies until no more are found. */
  method SelectThread(t: PostTable, ghost depth: map<PostId, nat>, root: PostId) returns (thread: set<Row>)
    requires Forest(t, depth) && root in t && t[root].inReplyTo.None?
    ensures thread == Below(t, depth, [root])
  {
    thread := {Row(root, [root])};
    var working := thread;
    while working != {}
      invariant working <= thread <= Below(t, depth, [root])
      invariant Row(root, [root]) in thread
      invariant forall w :: w in thread - working ==> RepliesIncluded(t, thread, w)
      decreases Below(t, depth, [root]) - thread, |working|
    {
      var next := JoinReplies(t, working) - thread;
      JoinedPaths(t, depth, root, working);
      forall w | w in thread ensures RepliesIncluded(t, thread + next, w) {
        if w in working {
          assert forall q :: q in ReplyTo(t, w.id) ==> Row(q, w.path + [q]) in JoinReplies(t, working);
        } else {
          assert RepliesIncluded(t, thread, w);
        }
      }
      thread, working := thread + next, next;
    }
    forall r | r in Below(t, depth, [root]) ensures r in thread {
      ThreadReaches(t, depth, root, thread, r.id);
    }
  }

  lemma {:induction false} ThreadReaches(t: PostTable, depth: map<PostId, nat>, root: PostId, thread: set<Row>, q: PostId)
    requires Forest(t, depth) && root in t && q in t && [root] <= RootPath(t, depth, q)
    requires Row(root, [root]) in thread
    requires forall w :: w in thread ==> RepliesIncluded(t, thread, w)
    ensures RowOf(t, depth, q) in thread
    decreases depth[q]
  {
    assert EdgeOk(t, depth, q);
    if t[q].inReplyTo.None? {
      assert q == root;
    } else {
      var parent := t[q].inReplyTo.value;
      ThreadReaches(t, depth, root, thread, parent);
      assert RepliesIncluded(t, thread, RowOf(t, depth, parent));
      assert q in ReplyTo(t, parent);
    }
  }

  /** `WHERE visibility_filter ORDER BY thread.path`: each row goes before the first greater one. */
  method SortByPath(working: set<Row>) returns (sorted: seq<Row>)
    requires forall r, s :: r in working && s in working && r.path == s.path ==> r == s
    ensures SortedByPath(sorted) && Elements(sorted) == working
  {
    sorted := [];
    var rest := working;
    while rest != {}
      invariant rest <= working
      invariant SortedByPath(sorted) && Elements(sorted) == working - rest
      decreases rest
    {
      var r :| r in rest;
      assert r !in sorted by {
        assert r !in Elements(sorted);
      }
      assert forall s :: s in sorted ==> s in Elements(sorted);
      var i := 0;
      while i < |sorted| && PathLess(sorted[i].path, r.path)
        invariant 0 <= i <= |sorted|
        invariant forall j :: 0 <= j < i ==> PathLess(sorted[j].path, r.path)
      {
        i := i + 1;
      }
      if i < |sorted| {
        assert sorted[i] in Elements(sorted);
      }
      InsertKeepsSorted(sorted, r, i);
      sorted := sorted[..i] + [r] + sorted[i..];
      rest := rest - {r};
    }
  }

  lemma InsertKeepsSorted(s: seq<Row>, r: Row, i: nat)
    requires SortedByPath(s) && i <= |s|
    requires forall j :: 0 <= j < i ==> PathLess(s[j].path, r.path)
    requires i < |s| ==> s[i].path != r.path && !PathLess(s[i].path, r.path)
    ensures SortedByPath(s[..i] + [r] + s[i..])
    ensures Elements(s[..i] + [r] + s[i..]) == Elements(s) + {r}
  {
    var s' := s[..i] + [r] + s[i..];
    forall j | i <= j < |s| ensures PathLess(r.path, s[j].path) {
      PathLessTotal(s[i].path, r.path);
      if i < j {
        PathLessTransitive(r.path, s[i].path, s[j].path);
      }
    }
    assert s == s[..i] + s[i..];
    forall x ensures x in s' <==> x in s || x == r {
    }
  }

  // Reference definition: depth-first preorder, siblings by id

  predicate IsLeast(s: set<PostId>, x: PostId) {
    x in s && forall y :: y in s ==> x.uuid <= y.uuid
  }

  lemma {:induction false} LeastExists(s: set<PostId>)
    requires s != {}
    ensures exists x :: IsLeast(s, x)
  {
    var x :| x in s;
    if s == {x} {
      assert IsLeast(s, x);
    } else {
      LeastExists(s - {x});
      var z :| IsLeast(s - {x}, z);
      assert IsLeast(s, if x.uuid <= z.uuid then x else z);
    }
  }

  ghost function Least(s: set<PostId>): (x: PostId)
    requires s != {}
    ensures x in s && forall y :: y in s ==> x.uuid <= y.uuid
  {
    LeastExists(s);
    var x :| IsLeast(s, x);
    x
  }

  ghost function SortedIds(s: set<PostId>): (ids: seq<PostId>)
    ensures Elements(ids) == s
    ensures forall i, j :: 0 <= i < j < |ids| ==> ids[i].uuid < ids[j].uuid
  {
    if s == {} then [] else
      var x := Least(s);
      var rest := SortedIds(s - {x});
      assert forall i :: 0 <= i < |rest| ==> rest[i] in Elements(rest);
      assert Elements([x] + rest) == {x} + Elements(rest);
      [x] + rest
  }

  predicate Bounded(t: PostTable, depth: map<PostId, nat>, h: nat)
    requires Forest(t, depth)
  {
    forall q :: q in t ==> depth[q] <= h
  }

  ghost function Preorder(t: PostTable, depth: map<PostId, nat>, h: nat, q: PostId): seq<Row>
    requires Forest(t, depth) && Bounded(t, depth, h) && q in t
    decreases h - depth[q], 1, 0
  {
    assert forall c :: c in ReplyTo(t, q) ==> EdgeOk(t, depth, c);
    assert forall c :: c in SortedIds(ReplyTo(t, q)) ==> c in Elements(SortedIds(ReplyTo(t, q)));
    [RowOf(t, depth, q)] + PreorderAll(t, depth, h, depth[q], SortedIds(ReplyTo(t, q)))
  }

  ghost function PreorderAll(t: PostTable, depth: map<PostId, nat>, h: nat, floor: nat, ids: seq<PostId>): seq<Row>
    requires Forest(t, depth) && Bounded(t, depth, h)
    requires forall c :: c in ids ==> c in t && floor < depth[c]
    decreases h - floor, 0, |ids|
  {
    if ids == [] then []
    else Preorder(t, depth, h, ids[0]) + PreorderAll(t, depth, h, floor, ids[1..])
  }

  /** The rows whose path goes through `path` and then one of `ids`. */
  function BelowAny(t: PostTable, depth: map<PostId, nat>, path: seq<PostId>, ids: seq<PostId>): set<Row>
    requires Forest(t, depth)
  {
    set q | q in t && path < RootPath(t, depth, q) && RootPath(t, depth, q)[|path|] in ids :: RowOf(t, depth, q)
  }

  /** Below a post lie the post itself and what is below its replies. */
  lemma BelowReplies(t: PostTable, depth: map<PostId, nat>, q: PostId, ids: seq<PostId>)
    requires Forest(t, depth) && q in t && Elements(ids) == ReplyTo(t, q)
    ensures var path := RootPath(t, depth, q);
            Below(t, depth, path) == {RowOf(t, depth, q)} + BelowAny(t, depth, path, ids)
  {
    var path := RootPath(t, depth, q);
    forall r | r in Below(t, depth, path) && r.id != q ensures r in BelowAny(t, depth, path, ids) {
      var longer := RootPath(t, depth, r.id);
      assert path < longer;
      PathPrefix(t, depth, r.id, |path|);
      assert longer[|path| - 1] == path[|path| - 1] == q;
      assert longer[|path|] in Elements(ids);
    }
    forall r | r in BelowAny(t, depth, path, ids) ensures r in Below(t, depth, path) {
    }
  }

  lemma {:induction false} PreorderIsBelow(t: PostTable, depth: map<PostId, nat>, h: nat, q: PostId)
    requires Forest(t, depth) && Bounded(t, depth, h) && q in t
    ensures Elements(Preorder(t, depth, h, q)) == Below(t, depth, RootPath(t, depth, q))
    ensures SortedByPath(Preorder(t, depth, h, q))
    decreases h - depth[q], 1, 0
  {
    var ids, path := SortedIds(ReplyTo(t, q)), RootPath(t, depth, q);
    forall c | c in ids ensures c in t && depth[q] < depth[c] && RootPath(t, depth, c) == path + [c] {
      assert c in ReplyTo(t, q);
      assert EdgeOk(t, depth, c);
    }
    PreorderAllIsBelow(t, depth, h, depth[q], ids, path);
    BelowReplies(t, depth, q, ids);
    PostBeforeReplies(t, depth, q, ids, PreorderAll(t, depth, h, depth[q], ids));
  }

  lemma PostBeforeReplies(t: PostTable, depth: map<PostId, nat>, q: PostId, ids: seq<PostId>, replies: seq<Row>)
    requires Forest(t, depth) && q in t
    requires SortedByPath(replies) && Elements(replies) == BelowAny(t, depth, RootPath(t, depth, q), ids)
    ensures SortedByPath([RowOf(t, depth, q)] + replies)
    ensures Elements([RowOf(t, depth, q)] + replies) == {RowOf(t, depth, q)} + Elements(replies)
  {
    var path := RootPath(t, depth, q);
    assert Elements([RowOf(t, depth, q)] + replies) == {RowOf(t, depth, q)} + Elements(replies);
    forall j | 0 <= j < |replies| ensures PathLess(path, replies[j].path) {
      assert replies[j] in Elements(replies);
      PrefixIsLess(path, replies[j].path);
    }
  }

  lemma {:induction false} PreorderAllIsBelow(t: PostTable, depth: map<PostId, nat>, h: nat, floor: nat,
                                              ids: seq<PostId>, path: seq<PostId>)
    requires Forest(t, depth) && Bounded(t, depth, h)
    requires forall c :: c in ids ==> c in t && floor < depth[c] && RootPath(t, depth, c) == path + [c]
    requires forall i, j :: 0 <= i < j < |ids| ==> ids[i].uuid < ids[j].uuid
    ensures Elements(PreorderAll(t, depth, h, floor, ids)) == BelowAny(t, depth, path, ids)
    ensures SortedByPath(PreorderAll(t, depth, h, floor, ids))
    decreases h - floor, 0, |ids|
  {
    if ids != [] {
      var c, rest := ids[0], ids[1..];
      PreorderIsBelow(t, depth, h, c);
      PreorderAllIsBelow(t, depth, h, floor, rest, path);
      var first, others := Preorder(t, depth, h, c), PreorderAll(t, depth, h, floor, rest);
      assert Elements(first + others) == Elements(first) + Elements(others);
      BelowFirst(t, depth, path, ids);
      forall i, j | 0 <= i < |first| && 0 <= j < |others| ensures PathLess(first[i].path, others[j].path) {
        assert first[i] in Elements(first) && others[j] in Elements(others);
        assert path + [c] <= first[i].path;
        assert others[j].path[|path|] in rest;
        DivergingPaths(path, first[i].path, others[j].path);
      }
    }
  }

  lemma BelowFirst(t: PostTable, depth: map<PostId, nat>, path: seq<PostId>, ids: seq<PostId>)
    requires Forest(t, depth) && ids != []
    ensures BelowAny(t, depth, path, ids) == Below(t, depth, path + [ids[0]]) + BelowAny(t, depth, path, ids[1..])
  {
  }

  /** The visible posts of a list of rows, in its order. */
  function VisibleRows(rows: PostRows, relationships: set<Relationship>, viewer: Option<ProfileId>, s: seq<Row>): (v: seq<Row>)
    requires forall r :: r in s ==> r.id in rows.posts
  {
    if s == [] then []
    else if Visible(rows, relationships, viewer, s[0].id) then [s[0]] + VisibleRows(rows, relationships, viewer, s[1..])
    else VisibleRows(rows, relationships, viewer, s[1..])
  }

  lemma {:induction false} VisibleRowsSorted(rows: PostRows, relationships: set<Relationship>, viewer: Option<ProfileId>, s: seq<Row>)
    requires forall r :: r in s ==> r.id in rows.posts
    requires SortedByPath(s)
    ensures var v := VisibleRows(rows, relationships, viewer, s);
            && SortedByPath(v)
            && (forall r :: r in v <==> r in s && Visible(rows, relationships, viewer, r.id))
  {
    if s != [] {
      var tail := s[1..];
      var rest := VisibleRows(rows, relationships, viewer, tail);
      assert s == [s[0]] + tail;
      VisibleRowsSorted(rows, relationships, viewer, tail);
      forall j | 0 <= j < |rest| ensures PathLess(s[0].path, rest[j].path) {
        assert rest[j] in tail;
        var k :| 0 <= k < |tail| && tail[k] == rest[j];
        assert s[k + 1] == rest[j];
      }
    }
  }

  function Ids(s: seq<Row>): (ids: seq<PostId>)
    ensures |ids| == |s| && forall i :: 0 <= i < |s| ==> ids[i] == s[i].id
  {
    seq(|s|, i requires 0 <= i < |s| => s[i].id)
  }

  /** The depth-first walk of the whole reply tree that holds `id`. */
  ghost function TreeAround(t: PostTable, depth: map<PostId, nat>, h: nat, id: PostId): (order: seq<Row>)
    requires Forest(t, depth) && Bounded(t, depth, h) && id in t
    ensures SortedByPath(order)
    ensures Elements(order) == Below(t, depth, [RootPath(t, depth, id)[0]])
    ensures forall r :: r in order ==> r.id in t && r == RowOf(t, depth, r.id)
  {
    var root := RootPath(t, depth, id)[0];
    PathPrefix(t, depth, id, 0);
    assert RootPath(t, depth, root) == [root];
    PreorderIsBelow(t, depth, h, root);
    assert forall r :: r in Preorder(t, depth, h, root) ==> r in Elements(Preorder(t, depth, h, root));
    Preorder(t, depth, h, root)
  }

  ghost function ThreadOf(rows: PostRows, relationships: set<Relationship>, depth: map<PostId, nat>, h: nat,
                          id: PostId, viewer: Option<ProfileId>): seq<Row>
    requires Forest(rows.posts, depth) && Bounded(rows.posts, depth, h) && id in rows.posts
  {
    VisibleRows(rows, relationships, viewer, TreeAround(rows.posts, depth, h, id))
  }

  /** Which rows a thread holds. */
  lemma ThreadRows(rows: PostRows, relationships: set<Relationship>, depth: map<PostId, nat>, h: nat,
                   id: PostId, viewer: Option<ProfileId>)
    requires Forest(rows.posts, depth) && Bounded(rows.posts, depth, h) && id in rows.posts
    ensures var thread := ThreadOf(rows, relationships, depth, h, id, viewer);
            && SortedByPath(thread)
            && (forall r :: r in thread <==>
                  r in Below(rows.posts, depth, [RootPath(rows.posts, depth, id)[0]]) && Visible(rows, relationships, viewer, r.id))
  {
    var order := TreeAround(rows.posts, depth, h, id);
    VisibleRowsSorted(rows, relationships, viewer, order);
    assert forall r :: r in order <==> r in Elements(order);
  }

  lemma ThreadIsSorted(rows: PostRows, relationships: set<Relationship>, depth: map<PostId, nat>, h: nat,
                       id: PostId, viewer: Option<ProfileId>, found: set<Row>, sorted: seq<Row>)
    requires Forest(rows.posts, depth) && Bounded(rows.posts, depth, h) && id in rows.posts
    requires found == Below(rows.posts, depth, [RootPath(rows.posts, depth, id)[0]])
    requires SortedByPath(sorted)
    requires Elements(sorted) == set r | r in found && Visible(rows, relationships, viewer, r.id)
    ensures sorted == ThreadOf(rows, relationships, depth, h, id, viewer)
  {
    var thread := ThreadOf(rows, relationships, depth, h, id, viewer);
    ThreadRows(rows, relationships, depth, h, id, viewer);
    forall r ensures r in Elements(thread) <==> r in Elements(sorted) {
      assert r in Elements(thread) <==> r in thread;
    }
    SortedIsUnique(sorted, thread);
  }

  lemma ThreadIsWhatMayBeRead(rows: PostRows, relationships: set<Relationship>, depth: map<PostId, nat>, h: nat,
                              id: PostId, viewer: Option<ProfileId>)
    requires Forest(rows.posts, depth) && Bounded(rows.posts, depth, h) && id in rows.posts
    ensures forall q :: q in Ids(ThreadOf(rows, relationships, depth, h, id, viewer)) <==>
              && q in rows.posts && MayRead(rows, relationships, viewer, q)
              && RootPath(rows.posts, depth, q)[0] == RootPath(rows.posts, depth, id)[0]
  {
    ThreadListsOnce(rows, relationships, depth, h, id, viewer);
    forall q | q in rows.posts ensures Visible(rows, relationships, viewer, q) <==> MayRead(rows, relationships, viewer, q) {
      FilterIsMayRead(rows, relationships, viewer, q);
    }
  }

  /** `get_thread`: nothing for a repost or a post the viewer cannot see; otherwise the
      visible part of the whole reply tree, depth first with siblings by id. */
  method GetThread(rows: PostRows, relationships: set<Relationship>, ghost depth: map<PostId, nat>, ghost h: nat,
                   id: PostId, viewer: Option<ProfileId>)
    returns (thread: Result<seq<PostId>>)
    requires Forest(rows.posts, depth) && Bounded(rows.posts, depth, h)
    ensures thread.Success? <==> Original(rows.posts, id) && Visible(rows, relationships, viewer, id)
    ensures thread.Failure? ==> thread.error == NotFound("post")
    ensures thread.Success? ==> thread.value == Ids(ThreadOf(rows, relationships, depth, h, id, viewer))
    ensures thread.Success? <==> Original(rows.posts, id) && MayRead(rows, relationships, viewer, id)
    ensures thread.Success? ==>
              forall q :: q in thread.value <==>
                && q in rows.posts && MayRead(rows, relationships, viewer, q)
                && RootPath(rows.posts, depth, q)[0] == RootPath(rows.posts, depth, id)[0]
    ensures viewer.None? ==> (thread.Success? <==> Original(rows.posts, id) && rows.posts[id].visibility == Public)
    ensures viewer.None? && thread.Success? ==> forall q :: q in thread.value ==> rows.posts[q].visibility == Public
  {
    if id in rows.posts {
      FilterIsMayRead(rows, relationships, viewer, id);
      ThreadIsWhatMayBeRead(rows, relationships, depth, h, id, viewer);
    }
    var t := rows.posts;
    var found: set<Row> := {};
    if id in t && t[id].repostOf.None? && Visible(rows, relationships, viewer, id) {
      var root := SelectRoot(t, depth, id);
      PathPrefix(t, depth, id, 0);
      found := SelectThread(t, depth, root);
      assert RowOf(t, depth, id) in found;
    }
    var sorted := SortByPath(set r | r in found && Visible(rows, relationships, viewer, r.id));
    if sorted == [] {
      assert id in t ==> RowOf(t, depth, id) !in Elements(sorted);
      return Failure(NotFound("post"));
    }
    assert sorted[0] in Elements(sorted);
    ThreadIsSorted(rows, relationships, depth, h, id, viewer, found, sorted);
    thread := Success(Ids(sorted));
  }

  /** The thread lists each visible post of the reply tree once, and nothing else. */
  lemma ThreadListsOnce(rows: PostRows, relationships: set<Relationship>, depth: map<PostId, nat>, h: nat,
                        id: PostId, viewer: Option<ProfileId>)
    requires Forest(rows.posts, depth) && Bounded(rows.posts, depth, h) && id in rows.posts
    ensures var ids := Ids(ThreadOf(rows, relationships, depth, h, id, viewer));
            && NoDuplicates(ids)
            && forall q :: q in ids <==>
                 && q in rows.posts && Visible(rows, relationships, viewer, q)
                 && RootPath(rows.posts, depth, q)[0] == RootPath(rows.posts, depth, id)[0]
  {
    var t := rows.posts;
    var thread := ThreadOf(rows, relationships, depth, h, id, viewer);
    ThreadRows(rows, relationships, depth, h, id, viewer);
    forall i, j | 0 <= i < j < |thread| ensures thread[i].id != thread[j].id {
      assert thread[i] in thread && thread[j] in thread;
      if thread[i].id == thread[j].id {
        PathLessIrreflexive(thread[i].path);
      }
    }
    forall q | q in t && Visible(rows, relationships, viewer, q)
               && RootPath(t, depth, q)[0] == RootPath(t, depth, id)[0]
      ensures q in Ids(thread)
    {
      assert RowOf(t, depth, q) in thread;
      var i :| 0 <= i < |thread| && thread[i] == RowOf(t, depth, q);
      assert Ids(thread)[i] == q;
    }
    forall q | q in Ids(thread)
      ensures && q in t && Visible(rows, relationships, viewer, q)
              && RootPath(t, depth, q)[0] == RootPath(t, depth, id)[0]
    {
      var i :| 0 <= i < |thread| && thread[i].id == q;
      assert thread[i] in thread;
    }
  }

  /** The loop of `get_context`. */
  method SplitAt(statuses: seq<PostId>, id: PostId) returns (ancestors: seq<PostId>, descendants: seq<PostId>)
    ensures id !in statuses ==> ancestors == statuses && descendants == []
    ensures id in statuses ==> id !in ancestors && statuses == ancestors + [id] + descendants
  {
    ancestors, descendants := [], [];
    var isAncestor := true;
    for i := 0 to |statuses|
      invariant isAncestor ==> ancestors == statuses[..i] && id !in ancestors && descendants == []
      invariant !isAncestor ==> id !in ancestors && statuses[..i] == ancestors + [id] + descendants
    {
      var status := statuses[i];
      if isAncestor {
        if status == id {
          isAncestor := false;
          continue;
        }
        ancestors := ancestors + [status];
      } else {
        descendants := descendants + [status];
      }
    }
    assert statuses[..|statuses|] == statuses;
  }

  /** `get_context`: the split loses nothing; visible proper ancestors come before the
      requested post, and visible proper descendants after it. */
  method GetContext(rows: PostRows, relationships: set<Relationship>, ghost depth: map<PostId, nat>, ghost h: nat,
                    id: PostId, viewer: Option<ProfileId>)
    returns (context: Result<(seq<PostId>, seq<PostId>)>)
    requires Forest(rows.posts, depth) && Bounded(rows.posts, depth, h)
    ensures context.Success? <==> Original(rows.posts, id) && Visible(rows, relationships, viewer, id)
    ensures context.Failure? ==> context.error == NotFound("post")
    ensures context.Success? <==> Original(rows.posts, id) && MayRead(rows, relationships, viewer, id)
    ensures context.Success? ==>
              && context.value.0 + [id] + context.value.1 == Ids(ThreadOf(rows, relationships, depth, h, id, viewer))
              && NoDuplicates(context.value.0 + [id] + context.value.1)
    ensures context.Success? ==>
              forall q :: q in rows.posts && MayRead(rows, relationships, viewer, q) ==>
                && (IsAncestor(rows.posts, depth, q, id) ==> q in context.value.0)
                && (IsAncestor(rows.posts, depth, id, q) ==> q in context.value.1)
    ensures context.Success? ==>
              forall q :: q in context.value.0 || q in context.value.1 ==>
                q in rows.posts && MayRead(rows, relationships, viewer, q)
  {
    var thread :- GetThread(rows, relationships, depth, h, id, viewer);
    var ancestors, descendants := SplitAt(thread, id);
    ThreadListsOnce(rows, relationships, depth, h, id, viewer);
    ghost var whole := ancestors + [id] + descendants;
    assert forall i :: 0 <= i < |ancestors| ==> whole[i] == ancestors[i];
    assert forall i :: 0 <= i < |descendants| ==> whole[|ancestors| + 1 + i] == descendants[i];
    forall q | q in rows.posts && MayRead(rows, relationships, viewer, q)
      ensures IsAncestor(rows.posts, depth, q, id) ==> q in ancestors
      ensures IsAncestor(rows.posts, depth, id, q) ==> q in descendants
    {
      FilterIsMayRead(rows, relationships, viewer, q);
      ContextSides(rows, relationships, depth, h, id, viewer, q, ancestors, descendants);
    }
    context := Success((ancestors, descendants));
  }

  lemma ContextSides(rows: PostRows, relationships: set<Relationship>, depth: map<PostId, nat>, h: nat,
                     id: PostId, viewer: Option<ProfileId>, q: PostId, before: seq<PostId>, after: seq<PostId>)
    requires Forest(rows.posts, depth) && Bounded(rows.posts, depth, h)
    requires id in rows.posts && q in rows.posts && Visible(rows, relationships, viewer, q)
    requires before + [id] + after == Ids(ThreadOf(rows, relationships, depth, h, id, viewer))
    ensures IsAncestor(rows.posts, depth, q, id) ==> q in before
    ensures IsAncestor(rows.posts, depth, id, q) ==> q in after
  {
    var t := rows.posts;
    var up, path := RootPath(t, depth, q), RootPath(t, depth, id);
    if up < path || path < up {
      var thread := ThreadOf(rows, relationships, depth, h, id, viewer);
      ThreadRows(rows, relationships, depth, h, id, viewer);
      assert RowOf(t, depth, q) in thread;
      assert thread[|before|] in thread && Ids(thread)[|before|] == id;
      SplitSides(thread, RowOf(t, depth, q), before, id, after);
    }
  }

  lemma SplitSides(s: seq<Row>, r: Row, before: seq<PostId>, id: PostId, after: seq<PostId>)
    requires SortedByPath(s) && r in s && Ids(s) == before + [id] + after
    ensures r.path < s[|before|].path ==> r.id in before
    ensures s[|before|].path < r.path ==> r.id in after
  {
    var i :| 0 <= i < |s| && s[i] == r;
    var k := |before|;
    SideOf(s, i, k);
    assert Ids(s)[i] == if i < k then before[i] else if i == k then id else after[i - k - 1];
  }

  lemma SideOf(s: seq<Row>, i: nat, k: nat)
    requires SortedByPath(s) && i < |s| && k < |s|
    ensures s[i].path < s[k].path ==> i < k
    ensures s[k].path < s[i].path ==> k < i
  {
    if s[i].path < s[k].path && k <= i {
      PrefixIsLess(s[i].path, s[k].path);
      PathLessTransitive(s[i].path, s[k].path, s[i].path);
      PathLessIrreflexive(s[i].path);
    } else if s[k].path < s[i].path && i <= k {
      PrefixIsLess(s[k].path, s[i].path);
      PathLessTransitive(s[k].path, s[i].path, s[k].path);
      PathLessIrreflexive(s[k].path);
    }
  }
}
