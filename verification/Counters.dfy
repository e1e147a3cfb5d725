/** The statements that change counter columns. A statement fails as a whole when a row would
    leave the range of its column. */
module Counters {
  import opened Collections
  import opened PostGraph
  import opened Schema

  function Checked<K>(counts: map<K, int>): (r: Result<map<K, int>>)
    ensures r.Success? <==> forall k {:trigger counts[k]} :: k in counts ==> IsCounter(counts[k])
    ensures r.Success? ==> r.value == counts
  {
    if forall k {:trigger counts[k]} :: k in counts ==> IsCounter(counts[k]) then Success(counts)
    else Failure(ConstraintViolation("counter"))
  }

  /** `update_reply_count`, `update_repost_count`, `update_reaction_count`: only originals
      are matched by the WHERE clause. */
  function UpdatePostCounter(t: PostTable, counts: PostCounts, p: PostId, change: int): Result<PostCounts> {
    if !Original(t, p) || p !in counts then Failure(NotFound("post"))
    else if !IsCounter(counts[p] + change) then Failure(ConstraintViolation("counter"))
    else Success(counts[p := counts[p] + change])
  }

  /** `update_post_count`, `update_follower_count`, `update_following_count`,
      `update_subscriber_count` */
  function UpdateProfileCounter(counts: ProfileCounts, p: ProfileId, change: int): Result<ProfileCounts> {
    if p !in counts then Failure(NotFound("profile"))
    else if !IsCounter(counts[p] + change) then Failure(ConstraintViolation("counter"))
    else Success(counts[p := counts[p] + change])
  }

  /** `post_count - count(*)` for the authors of the posts about to be deleted. */
  function SubtractPosts(t: PostTable, counts: ProfileCounts, gone: set<PostId>): Result<ProfileCounts> {
    Checked(map a | a in counts :: counts[a] - |AuthoredBy(t, a) * gone|)
  }

  /** `UPDATE ... SET counter = counter - 1 FROM ...`: a row that is matched by the FROM
      clause is decremented once, however many rows match it. */
  function DecrementMatched<K>(counts: map<K, int>, matched: set<K>): Result<map<K, int>> {
    Checked(map k | k in counts :: if k in matched then counts[k] - 1 else counts[k])
  }

  /** `reply_count - count(*)` for the parents of the replies of one author. */
  function SubtractReplies(t: PostTable, counts: PostCounts, author: ProfileId): Result<PostCounts> {
    Checked(map p | p in counts :: counts[p] - |Replies(t, p) * AuthoredBy(t, author)|)
  }

  // Counters after the closure of `s` is deleted

  lemma {:induction false} RepliesAfterClosure(t: PostTable, depth: map<PostId, nat>, s: set<PostId>, gone: set<PostId>,
                                               counts: PostCounts, counts': PostCounts)
    requires Forest(t, depth) && s <= t.Keys && gone == Closure(t, s) && CountsReplies(t, counts)
    requires counts'.Keys == t.Keys - gone
    requires forall p {:trigger Replies(t, p)} :: p in counts' ==> counts'[p] == counts[p] - |Replies(t, p) * s|
    ensures CountsReplies(t - gone, counts')
  {
    forall p | p in counts' ensures IsCounter(counts'[p]) && counts'[p] == |Replies(t - gone, p)| {
      OnlySeedsCrossBoundary(t, depth, s, p);
    }
  }

  lemma {:induction false} RepostsAfterClosure(t: PostTable, depth: map<PostId, nat>, s: set<PostId>, gone: set<PostId>,
                                               counts: PostCounts, counts': PostCounts)
    requires Forest(t, depth) && s <= t.Keys && gone == Closure(t, s) && CountsReposts(t, counts)
    requires counts'.Keys == t.Keys - gone
    requires forall p {:trigger Reposts(t, p)} :: p in counts' ==> counts'[p] == counts[p] - |Reposts(t, p) * s|
    ensures CountsReposts(t - gone, counts')
  {
    forall p | p in counts' ensures IsCounter(counts'[p]) && counts'[p] == |Reposts(t - gone, p)| {
      OnlySeedsCrossBoundary(t, depth, s, p);
    }
  }

  lemma {:induction false} ReactionsAfterRemoval(t: PostTable, gone: set<PostId>, reactions: set<Reaction>, counts: PostCounts)
    requires CountsReactions(t, reactions, counts)
    ensures CountsReactions(t - gone, ReactionsWithout(reactions, gone), counts - gone)
  {
    forall p | p in counts - gone
      ensures IsCounter(counts[p]) && counts[p] == |ReactionsTo(ReactionsWithout(reactions, gone), p)|
    {
      assert ReactionsTo(ReactionsWithout(reactions, gone), p) == ReactionsTo(reactions, p);
    }
  }

  lemma {:induction false} PostsAfterRemoval(t: PostTable, gone: set<PostId>, profiles: ProfileTable, counts: ProfileCounts, counts': ProfileCounts)
    requires CountsPosts(t, profiles, counts) && counts'.Keys == counts.Keys
    requires forall a {:trigger AuthoredBy(t, a)} :: a in counts' ==> counts'[a] == counts[a] - |AuthoredBy(t, a) * gone|
    ensures CountsPosts(t - gone, profiles, counts')
  {
    forall a | a in counts' ensures IsCounter(counts'[a]) && counts'[a] == |AuthoredBy(t - gone, a)| {
      assert counts[a] == |AuthoredBy(t, a)| && counts'[a] == counts[a] - |AuthoredBy(t, a) * gone|;
      assert AuthoredBy(t - gone, a) == AuthoredBy(t, a) - AuthoredBy(t, a) * gone;
    }
  }

  /** The CHECK on `post_count` never fires, and the result counts the posts that stay. */
  lemma SubtractPostsSucceeds(t: PostTable, gone: set<PostId>, profiles: ProfileTable, counts: ProfileCounts)
    requires CountsPosts(t, profiles, counts)
    ensures SubtractPosts(t, counts, gone).Success?
    ensures CountsPosts(t - gone, profiles, SubtractPosts(t, counts, gone).value)
  {
    var counts' := map a | a in counts :: counts[a] - |AuthoredBy(t, a) * gone|;
    PostsAfterRemoval(t, gone, profiles, counts, counts');
    forall a | a in counts' ensures IsCounter(counts'[a]) {
      assert counts'[a] == |AuthoredBy(t - gone, a)|;
    }
  }

  // Deleting one post

  /** The parent of a deleted post is still there, is an original, and counted it. */
  lemma {:induction false} ReplyParentCounts(t: PostTable, depth: map<PostId, nat>, id: PostId, gone: set<PostId>, counts: PostCounts)
    requires Forest(t, depth) && id in t && gone == Closure(t, {id}) && CountsReplies(t, counts)
    requires t[id].inReplyTo.Some?
    ensures UpdatePostCounter(t - gone, counts - gone, t[id].inReplyTo.value, -1).Success?
  {
    var p := ParentOf(t[id]).value;
    assert EdgeOk(t, depth, id);
    ParentOutsideClosure(t, depth, id);
    SubsetCardinality({id}, Replies(t, p));
    assert IsCounter(counts[p] - 1);
  }

  lemma {:induction false} RepostTargetCounts(t: PostTable, depth: map<PostId, nat>, id: PostId, gone: set<PostId>, counts: PostCounts)
    requires Forest(t, depth) && id in t && gone == Closure(t, {id}) && CountsReposts(t, counts)
    requires t[id].repostOf.Some?
    ensures UpdatePostCounter(t - gone, counts - gone, t[id].repostOf.value, -1).Success?
  {
    var p := ParentOf(t[id]).value;
    assert EdgeOk(t, depth, id);
    ParentOutsideClosure(t, depth, id);
    SubsetCardinality({id}, Reposts(t, p));
    assert IsCounter(counts[p] - 1);
  }

  lemma {:induction false} ReplyParentPatched(t: PostTable, depth: map<PostId, nat>, id: PostId, gone: set<PostId>,
                                              counts: PostCounts, counts': PostCounts)
    requires Forest(t, depth) && id in t && gone == Closure(t, {id}) && CountsReplies(t, counts)
    requires counts' == if t[id].inReplyTo.Some? && t[id].inReplyTo.value in counts
                        then (counts - gone)[t[id].inReplyTo.value := counts[t[id].inReplyTo.value] - 1]
                        else counts - gone
    ensures CountsReplies(t - gone, counts')
  {
    assert EdgeOk(t, depth, id);
    if ParentOf(t[id]).Some? {
      ParentOutsideClosure(t, depth, id);
    }
    forall p | p in counts' ensures counts'[p] == counts[p] - |Replies(t, p) * {id}| {
      assert Replies(t, p) * {id} == if t[id].inReplyTo == Some(p) then {id} else {};
    }
    RepliesAfterClosure(t, depth, {id}, gone, counts, counts');
  }

  lemma {:induction false} RepostTargetPatched(t: PostTable, depth: map<PostId, nat>, id: PostId, gone: set<PostId>,
                                               counts: PostCounts, counts': PostCounts)
    requires Forest(t, depth) && id in t && gone == Closure(t, {id}) && CountsReposts(t, counts)
    requires counts' == if t[id].repostOf.Some? && t[id].repostOf.value in counts
                        then (counts - gone)[t[id].repostOf.value := counts[t[id].repostOf.value] - 1]
                        else counts - gone
    ensures CountsReposts(t - gone, counts')
  {
    assert EdgeOk(t, depth, id);
    if ParentOf(t[id]).Some? {
      ParentOutsideClosure(t, depth, id);
    }
    forall p | p in counts' ensures counts'[p] == counts[p] - |Reposts(t, p) * {id}| {
      assert Reposts(t, p) * {id} == if t[id].repostOf == Some(p) then {id} else {};
    }
    RepostsAfterClosure(t, depth, {id}, gone, counts, counts');
  }

  /** The counter updates of `delete_post` once the rows `gone` are deleted. Neither the WHERE
      clauses nor the CHECKs can make them fail. */
  method PatchParents(t: PostTable, ghost depth: map<PostId, nat>, id: PostId, gone: set<PostId>,
                      replyCount: PostCounts, repostCount: PostCounts)
    returns (r: Result<(PostCounts, PostCounts)>)
    requires Forest(t, depth) && id in t && gone == Closure(t, {id})
    requires CountsReplies(t, replyCount) && CountsReposts(t, repostCount)
    ensures r.Success? && CountsReplies(t - gone, r.value.0) && CountsReposts(t - gone, r.value.1)
  {
    var replyCount' := replyCount - gone;
    if t[id].inReplyTo.Some? {
      ReplyParentCounts(t, depth, id, gone, replyCount);
      replyCount' :- UpdatePostCounter(t - gone, replyCount', t[id].inReplyTo.value, -1);
    }
    ReplyParentPatched(t, depth, id, gone, replyCount, replyCount');
    var repostCount' := repostCount - gone;
    if t[id].repostOf.Some? {
      RepostTargetCounts(t, depth, id, gone, repostCount);
      repostCount' :- UpdatePostCounter(t - gone, repostCount', t[id].repostOf.value, -1);
    }
    RepostTargetPatched(t, depth, id, gone, repostCount, repostCount');
    r := Success((replyCount', repostCount'));
  }

  /** The post and counter statements of `delete_post`: the posts deleted by the cascade and
      the counters of the rows that stay. */
  method DeletePostRows(rows: PostRows, counters: PostCounters, ghost depth: map<PostId, nat>, profiles: ProfileTable, id: PostId)
    returns (r: Result<(set<PostId>, PostCounters)>)
    requires Forest(rows.posts, depth) && PostCountersOk(rows, counters, profiles)
    ensures r.Success? <==> id in rows.posts
    ensures r.Failure? ==> r.error == NotFound("post")
    ensures r.Success? ==> r.value.0 == Closure(rows.posts, {id})
    ensures r.Success? ==> PostCountersOk(RowsWithout(rows, r.value.0), r.value.1, profiles)
  {
    var t := rows.posts;
    var context := SelectContext(t, if id in t then {id} else {});
    SubtractPostsSucceeds(t, context, profiles, counters.authored);
    var authored :- SubtractPosts(t, counters.authored, context);
    if id !in t {
      return Failure(NotFound("post"));
    }
    var rest := CascadeDelete(t, {id});
    var gone := t.Keys - rest.Keys;
    assert gone == context;
    var counts :- PatchParents(t, depth, id, gone, counters.replies, counters.reposts);
    ReactionsAfterRemoval(t, gone, rows.reactions, counters.reactions);
    r := Success((gone, PostCounters(counts.0, counts.1, counters.reactions - gone, authored)));
  }
}
