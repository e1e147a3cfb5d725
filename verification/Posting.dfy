/** Creating and updating posts and reactions: the statements of `create_post`,
    `update_post`, `create_reaction` and `delete_reaction`. */
module Posting {
  import opened Collections
  import opened PostGraph
  import opened Schema
  import opened Counters

  datatype PostCreateData = PostCreateData(
    content: string,
    inReplyTo: Option<PostId>,
    repostOf: Option<PostId>,
    visibility: Visibility,
    isSensitive: bool,
    related: Related,
    objectId: Option<string>,
    createdAt: int)

  /** The ids and names from which the rows related to a post are made. */
  datatype Related = Related(
    attachments: seq<AttachmentId>,
    mentions: seq<ProfileId>,
    tags: seq<string>,
    links: seq<PostId>,
    emojis: seq<EmojiId>)

  const NothingRelated := Related([], [], [], [], [])

  /** `PostCreateData::repost` */
  function Repost(target: PostId, objectId: Option<string>, now: int): PostCreateData {
    PostCreateData("", None, Some(target), Public, false, NothingRelated, objectId, now)
  }

  function NewRow(author: ProfileId, data: PostCreateData): Post {
    Post(author, data.content, data.inReplyTo, data.repostOf, data.visibility, data.isSensitive, data.objectId, None, data.createdAt)
  }

  /** Some other row already has this author and repost target, or this object id. */
  predicate Collides(t: PostTable, row: Post) {
    exists q :: q in t && !Apart(t[q], row)
  }

  /** `INSERT INTO post ... WHERE NOT EXISTS ...` with the constraints of the table. The id is
      generated by the transaction, so `row` cannot mention it. */
  function InsertPost(t: PostTable, profiles: ProfileTable, id: PostId, row: Post): Result<PostTable> {
    if row.inReplyTo.Some? && row.inReplyTo.value in t && t[row.inReplyTo.value].repostOf.Some? then
      Failure(NotFound("post"))
    else if row.repostOf.Some? && row.repostOf.value in t
            && (t[row.repostOf.value].repostOf.Some? || !t[row.repostOf.value].visibility.Public?) then
      Failure(NotFound("post"))
    else if id in t || Collides(t, row) then
      Failure(AlreadyExists("post"))
    else if row.author !in profiles then
      Failure(ConstraintViolation("author_id"))
    else if row.inReplyTo.Some? && row.inReplyTo.value !in t then
      Failure(ConstraintViolation("in_reply_to_id"))
    else if row.repostOf.Some? && row.repostOf.value !in t then
      Failure(ConstraintViolation("repost_of_id"))
    else
      Success(t[id := row])
  }

  /** `create_post_attachments`: takes the author's attachments, even from another post. */
  function AttachAll(attachments: AttachmentTable, id: PostId, author: ProfileId, ids: seq<AttachmentId>): Result<AttachmentTable> {
    if |set a | a in ids && a in attachments && attachments[a].owner == author| != |ids| then
      Failure(NotFound("attachment"))
    else
      Success(map a | a in attachments ::
                if a in ids && attachments[a].owner == author then attachments[a].(post := Some(id)) else attachments[a])
  }

  /** `create_post_mentions` */
  function MentionAll(mentions: set<Mention>, profiles: ProfileTable, id: PostId, ids: seq<ProfileId>): Result<set<Mention>> {
    if |set p | p in ids && p in profiles| != |ids| then Failure(NotFound("profile"))
    else Success(mentions + (set p | p in ids :: Mention(id, p)))
  }

  /** `create_post_tags`: unknown tags are created, so only a repeated name can fail. */
  function TagAll(tags: set<PostTag>, id: PostId, names: seq<string>): Result<set<PostTag>> {
    if |Elements(names)| != |names| then Failure(NotFound("tag"))
    else Success(tags + (set n | n in names :: PostTag(id, n)))
  }

  /** `create_post_links`, with `CHECK (source_id != target_id)` */
  function LinkAll(links: set<PostLink>, t: PostTable, id: PostId, ids: seq<PostId>): Result<set<PostLink>> {
    if id in ids && id in t then Failure(ConstraintViolation("post_link"))
    else if |set q | q in ids && q in t| != |ids| then Failure(NotFound("post"))
    else Success(links + (set q | q in ids :: PostLink(id, q)))
  }

  /** `create_post_emojis` */
  function EmojiAll(postEmojis: set<PostEmoji>, emojis: EmojiTable, id: PostId, ids: seq<EmojiId>): Result<set<PostEmoji>> {
    if |set e | e in ids && e in emojis| != |ids| then Failure(NotFound("emoji"))
    else Success(postEmojis + (set e | e in ids :: PostEmoji(id, e)))
  }

  /** Every listed id is there and no id is listed twice. */
  predicate AllPresent<T>(ids: seq<T>, present: set<T>) {
    NoDuplicates(ids) && forall i :: i in ids ==> i in present
  }

  /** Comparing the number of rows inserted or updated with the number of ids requested
      tests exactly that. */
  lemma RowCountTest<T>(ids: seq<T>, present: set<T>)
    ensures |set i | i in ids && i in present| == |ids| <==> AllPresent(ids, present)
  {
    var found := set i | i in ids && i in present;
    DistinctLength(ids);
    SubsetCardinality(found, Elements(ids));
    if i :| i in ids && i !in present {
      SubsetCardinality(found, Elements(ids) - {i});
    } else {
      assert found == Elements(ids);
    }
  }

  function OwnedBy(attachments: AttachmentTable, author: ProfileId): set<AttachmentId> {
    set a | a in attachments && attachments[a].owner == author
  }

  /** What the related rows of a post of `author` need in order to be created. */
  predicate CanRelate(rows: PostRows, profiles: ProfileTable, emojis: EmojiTable, id: PostId, author: ProfileId, related: Related) {
    && AllPresent(related.attachments, OwnedBy(rows.attachments, author))
    && AllPresent(related.mentions, profiles.Keys)
    && NoDuplicates(related.tags)
    && AllPresent(related.links, rows.posts.Keys - {id})
    && AllPresent(related.emojis, emojis.Keys)
  }

  /** The rows with everything `related` attached to post `id`. */
  function WithRelated(rows: PostRows, id: PostId, related: Related): PostRows {
    rows.(
    attachments := (map a | a in rows.attachments ::
                      if a in related.attachments then rows.attachments[a].(post := Some(id)) else rows.attachments[a]),
    mentions := rows.mentions + (set p | p in related.mentions :: Mention(id, p)),
    tags := rows.tags + (set n | n in related.tags :: PostTag(id, n)),
    links := rows.links + (set q | q in related.links :: PostLink(id, q)),
    postEmojis := rows.postEmojis + (set e | e in related.emojis :: PostEmoji(id, e)))
  }

  /** The five helpers that create the rows related to a post, in order. */
  method CreateRelated(rows: PostRows, profiles: ProfileTable, emojis: EmojiTable, id: PostId, author: ProfileId, related: Related)
    returns (r: Result<PostRows>)
    requires id in rows.posts
    ensures r.Success? <==> CanRelate(rows, profiles, emojis, id, author, related)
    ensures r.Success? ==> r.value == WithRelated(rows, id, related)
  {
    assert (set a | a in related.attachments && a in rows.attachments && rows.attachments[a].owner == author)
        == (set a | a in related.attachments && a in OwnedBy(rows.attachments, author));
    RowCountTest(related.attachments, OwnedBy(rows.attachments, author));
    var attachments :- AttachAll(rows.attachments, id, author, related.attachments);
    assert (set p | p in related.mentions && p in profiles) == (set p | p in related.mentions && p in profiles.Keys);
    RowCountTest(related.mentions, profiles.Keys);
    var mentions :- MentionAll(rows.mentions, profiles, id, related.mentions);
    DistinctLength(related.tags);
    var tags :- TagAll(rows.tags, id, related.tags);
    assert (set q | q in related.links && q in rows.posts) == (set q | q in related.links && q in rows.posts.Keys);
    RowCountTest(related.links, rows.posts.Keys);
    var links :- LinkAll(rows.links, rows.posts, id, related.links);
    assert (set e | e in related.emojis && e in emojis) == (set e | e in related.emojis && e in emojis.Keys);
    RowCountTest(related.emojis, emojis.Keys);
    var postEmojis :- EmojiAll(rows.postEmojis, emojis, id, related.emojis);
    r := Success(rows.(attachments := attachments, mentions := mentions, tags := tags, links := links, postEmojis := postEmojis));
    assert attachments == WithRelated(rows, id, related).attachments;
  }

  /** The remaining checks of `Post::new` on the related rows it is given. */
  predicate RelatedConsistent(row: Post, related: Related) {
    row.repostOf.Some? ==> related == NothingRelated
  }

  /** A new post may hang below these: the reply parent is an original, the repost target a
      public original, and it is not both a reply and a repost. */
  predicate CanHang(t: PostTable, row: Post) {
    && (row.inReplyTo.Some? ==> Original(t, row.inReplyTo.value))
    && (row.repostOf.Some? ==> Original(t, row.repostOf.value) && t[row.repostOf.value].visibility.Public?)
    && (row.repostOf.Some? ==> row.inReplyTo.None?)
  }

  function DepthBelow(depth: map<PostId, nat>, row: Post): nat {
    if ParentOf(row).Some? && ParentOf(row).value in depth then depth[ParentOf(row).value] + 1 else 0
  }

  // Invariants after a row is added

  lemma {:induction false} ForestWith(t: PostTable, depth: map<PostId, nat>, id: PostId, row: Post)
    requires Forest(t, depth) && id !in t && CanHang(t, row)
    ensures Forest(t[id := row], depth[id := DepthBelow(depth, row)])
  {
    var t', depth' := t[id := row], depth[id := DepthBelow(depth, row)];
    forall q | q in t' ensures EdgeOk(t', depth', q) {
      if q != id {
        assert EdgeOk(t, depth, q);
      }
    }
  }

  lemma {:induction false} NobodyPointsAt(t: PostTable, depth: map<PostId, nat>, id: PostId)
    requires Forest(t, depth) && id !in t
    ensures Replies(t, id) == {} && Reposts(t, id) == {}
  {
    forall q | q in t ensures t[q].inReplyTo != Some(id) && t[q].repostOf != Some(id) {
      assert EdgeOk(t, depth, q);
    }
  }

  // Adding one row adds it to the replies, reposts and posts it belongs to

  lemma OneMoreReply(t: PostTable, id: PostId, row: Post, p: PostId)
    requires id !in t
    ensures |Replies(t[id := row], p)| == |Replies(t, p)| + if row.inReplyTo == Some(p) then 1 else 0
  {
    if row.inReplyTo == Some(p) {
      assert Replies(t[id := row], p) == Replies(t, p) + {id};
    } else {
      assert Replies(t[id := row], p) == Replies(t, p);
    }
  }

  lemma OneMoreRepost(t: PostTable, id: PostId, row: Post, p: PostId)
    requires id !in t
    ensures |Reposts(t[id := row], p)| == |Reposts(t, p)| + if row.repostOf == Some(p) then 1 else 0
  {
    if row.repostOf == Some(p) {
      assert Reposts(t[id := row], p) == Reposts(t, p) + {id};
    } else {
      assert Reposts(t[id := row], p) == Reposts(t, p);
    }
  }

  lemma OneMorePost(t: PostTable, id: PostId, row: Post, a: ProfileId)
    requires id !in t
    ensures |AuthoredBy(t[id := row], a)| == |AuthoredBy(t, a)| + if row.author == a then 1 else 0
  {
    if row.author == a {
      assert AuthoredBy(t[id := row], a) == AuthoredBy(t, a) + {id};
    } else {
      assert AuthoredBy(t[id := row], a) == AuthoredBy(t, a);
    }
  }

  lemma {:induction false} RepliesWith(t: PostTable, depth: map<PostId, nat>, id: PostId, row: Post, counts: PostCounts)
    requires Forest(t, depth) && id !in t && CountsReplies(t, counts)
    requires row.inReplyTo.Some? ==> row.inReplyTo.value in t && IsCounter(counts[row.inReplyTo.value] + 1)
    ensures CountsReplies(t[id := row], Increment(counts, row.inReplyTo)[id := 0])
  {
    NobodyPointsAt(t, depth, id);
    var counts' := Increment(counts, row.inReplyTo)[id := 0];
    forall p | p in counts' ensures IsCounter(counts'[p]) && counts'[p] == |Replies(t[id := row], p)| {
      OneMoreReply(t, id, row, p);
    }
  }

  lemma {:induction false} RepostsWith(t: PostTable, depth: map<PostId, nat>, id: PostId, row: Post, counts: PostCounts)
    requires Forest(t, depth) && id !in t && CountsReposts(t, counts)
    requires row.repostOf.Some? ==> row.repostOf.value in t && IsCounter(counts[row.repostOf.value] + 1)
    ensures CountsReposts(t[id := row], Increment(counts, row.repostOf)[id := 0])
  {
    NobodyPointsAt(t, depth, id);
    var counts' := Increment(counts, row.repostOf)[id := 0];
    forall p | p in counts' ensures IsCounter(counts'[p]) && counts'[p] == |Reposts(t[id := row], p)| {
      OneMoreRepost(t, id, row, p);
    }
  }

  lemma {:induction false} AuthoredWith(t: PostTable, id: PostId, row: Post, profiles: ProfileTable, counts: ProfileCounts)
    requires id !in t && CountsPosts(t, profiles, counts)
    requires row.author in profiles && IsCounter(counts[row.author] + 1)
    ensures CountsPosts(t[id := row], profiles, Increment(counts, Some(row.author)))
  {
    var counts' := Increment(counts, Some(row.author));
    forall a | a in counts' ensures IsCounter(counts'[a]) && counts'[a] == |AuthoredBy(t[id := row], a)| {
      OneMorePost(t, id, row, a);
    }
  }

  lemma {:induction false} ReactionsWith(t: PostTable, id: PostId, row: Post, profiles: ProfileTable, reactions: set<Reaction>, counts: PostCounts)
    requires id !in t && ReactionsOk(reactions, t, profiles) && CountsReactions(t, reactions, counts)
    ensures CountsReactions(t[id := row], reactions, counts[id := 0])
  {
    assert ReactionsTo(reactions, id) == {};
    var counts' := counts[id := 0];
    forall p | p in counts' ensures IsCounter(counts'[p]) && counts'[p] == |ReactionsTo(reactions, p)| {
      assert p != id ==> counts[p] == |ReactionsTo(reactions, p)|;
    }
  }

  // Row invariants

  lemma UniqueWith(t: PostTable, id: PostId, row: Post)
    requires UniquePosts(t) && id !in t && !Collides(t, row)
    ensures UniquePosts(t[id := row])
  {
  }

  /** A row that passes the insert guards, the constraints and `Post::new` keeps the post
      tables consistent. */
  lemma RowsWithPost(rows: PostRows, depth: map<PostId, nat>, profiles: ProfileTable, emojis: EmojiTable, id: PostId, row: Post)
    requires PostRowsOk(rows, depth, profiles, emojis)
    requires id !in rows.posts && CanHang(rows.posts, row) && !Collides(rows.posts, row)
    requires row.author in profiles && RowConsistent(row, profiles[row.author].IsLocal())
    ensures PostRowsOk(rows.(posts := rows.posts[id := row]), depth[id := DepthBelow(depth, row)], profiles, emojis)
  {
    ForestWith(rows.posts, depth, id, row);
    UniqueWith(rows.posts, id, row);
  }

  lemma RowsWithRelated(rows: PostRows, depth: map<PostId, nat>, profiles: ProfileTable, emojis: EmojiTable,
                        id: PostId, related: Related)
    requires PostRowsOk(rows, depth, profiles, emojis) && Original(rows.posts, id)
    requires CanRelate(rows, profiles, emojis, id, rows.posts[id].author, related)
    ensures PostRowsOk(WithRelated(rows, id, related), depth, profiles, emojis)
  {
  }

  lemma NothingRelatedChangesNothing(rows: PostRows, id: PostId)
    ensures WithRelated(rows, id, NothingRelated) == rows
  {
  }

  // create_post

  /** The counters a new row increments have room for one more. */
  predicate HasRoom(counters: PostCounters, row: Post) {
    && row.author in counters.authored && IsCounter(counters.authored[row.author] + 1)
    && (row.inReplyTo.Some? ==>
          row.inReplyTo.value in counters.replies && IsCounter(counters.replies[row.inReplyTo.value] + 1))
    && (row.repostOf.Some? ==>
          row.repostOf.value in counters.reposts && IsCounter(counters.reposts[row.repostOf.value] + 1))
  }

  /** Exactly when `create_post` succeeds. */
  predicate CanCreate(rows: PostRows, counters: PostCounters, profiles: ProfileTable, emojis: EmojiTable,
                      id: PostId, author: ProfileId, data: PostCreateData)
  {
    var row := NewRow(author, data);
    && id !in rows.posts && !Collides(rows.posts, row)
    && CanHang(rows.posts, row)
    && author in profiles && RowConsistent(row, profiles[author].IsLocal())
    && CanRelate(rows, profiles, emojis, id, author, data.related)
    && RelatedConsistent(row, data.related)
    && HasRoom(counters, row)
  }

  /** Some post of `author` reposts `target`. */
  predicate HasReposted(t: PostTable, author: ProfileId, target: PostId) {
    exists q :: q in t && t[q].author == author && t[q].repostOf == Some(target)
  }

  /** A repost can be created exactly when its target is a public original that the author has
      not reposted yet, and its object id is new and there for remote authors only. */
  lemma RepostCondition(rows: PostRows, counters: PostCounters, profiles: ProfileTable, emojis: EmojiTable,
                        id: PostId, author: ProfileId, target: PostId, objectId: Option<string>, now: int)
    ensures CanCreate(rows, counters, profiles, emojis, id, author, Repost(target, objectId, now)) <==>
              && id !in rows.posts && author in profiles && (profiles[author].IsLocal() <==> objectId.None?)
              && Original(rows.posts, target) && rows.posts[target].visibility.Public?
              && !HasReposted(rows.posts, author, target)
              && (objectId.Some? ==> forall q :: q in rows.posts ==> rows.posts[q].objectId != objectId)
              && HasRoom(counters, NewRow(author, Repost(target, objectId, now)))
    ensures RowsWith(rows, id, author, Repost(target, objectId, now)).posts[id]
         == Post(author, "", None, Some(target), Public, false, objectId, None, now)
  {
  }

  /** What `related` needs, said of the tables. */
  predicate RelatedAvailable(rows: PostRows, profiles: ProfileTable, emojis: EmojiTable, id: PostId, author: ProfileId, related: Related) {
    && NoDuplicates(related.attachments) && NoDuplicates(related.mentions) && NoDuplicates(related.tags)
    && NoDuplicates(related.links) && NoDuplicates(related.emojis)
    && (forall a :: a in related.attachments ==> a in rows.attachments && rows.attachments[a].owner == author)
    && (forall p :: p in related.mentions ==> p in profiles)
    && (forall q :: q in related.links ==> q in rows.posts && q != id)
    && (forall e :: e in related.emojis ==> e in emojis)
  }

  /** When an original can be created, said of the tables. */
  lemma OriginalCondition(rows: PostRows, counters: PostCounters, profiles: ProfileTable, emojis: EmojiTable,
                          id: PostId, author: ProfileId, data: PostCreateData)
    requires data.repostOf == None
    ensures CanCreate(rows, counters, profiles, emojis, id, author, data) <==>
              && id !in rows.posts && author in profiles
              && (profiles[author].actorId == None <==> data.objectId == None)
              && (data.objectId != None ==> forall q :: q in rows.posts ==> rows.posts[q].objectId != data.objectId)
              && (data.inReplyTo != None ==> data.inReplyTo.value in rows.posts && rows.posts[data.inReplyTo.value].repostOf == None)
              && RelatedAvailable(rows, profiles, emojis, id, author, data.related)
              && HasRoom(counters, NewRow(author, data))
  {
    var row := NewRow(author, data);
    assert Collides(rows.posts, row) <==>
           (data.objectId != None && exists q :: q in rows.posts && rows.posts[q].objectId == data.objectId) by {
      forall q | q in rows.posts ensures !Apart(rows.posts[q], row) <==> data.objectId != None && rows.posts[q].objectId == data.objectId {
      }
    }
    assert CanRelate(rows, profiles, emojis, id, author, data.related)
      <==> RelatedAvailable(rows, profiles, emojis, id, author, data.related);
  }

  function Increment<K>(counts: map<K, int>, k: Option<K>): map<K, int>
    requires k.Some? ==> k.value in counts
  {
    if k.Some? then counts[k.value := counts[k.value] + 1] else counts
  }

  /** The counters once the row `id` is inserted and counted. */
  function CountersWith(counters: PostCounters, id: PostId, row: Post): PostCounters
    requires HasRoom(counters, row)
  {
    PostCounters(
      Increment(counters.replies, row.inReplyTo)[id := 0],
      Increment(counters.reposts, row.repostOf)[id := 0],
      counters.reactions[id := 0],
      Increment(counters.authored, Some(row.author)))
  }

  /** The counter statements of `create_post`. */
  method CountNewPost(t: PostTable, counters: PostCounters, id: PostId, row: Post) returns (r: Result<PostCounters>)
    requires row.inReplyTo.Some? ==> row.inReplyTo.value != id && Original(t, row.inReplyTo.value)
    requires row.repostOf.Some? ==> row.repostOf.value != id && Original(t, row.repostOf.value)
    ensures r.Success? <==> HasRoom(counters, row)
    ensures r.Success? ==> r.value == CountersWith(counters, id, row)
  {
    var authored :- UpdateProfileCounter(counters.authored, row.author, 1);
    var replies := counters.replies[id := 0];
    if row.inReplyTo.Some? {
      replies :- UpdatePostCounter(t, replies, row.inReplyTo.value, 1);
      assert replies == Increment(counters.replies, row.inReplyTo)[id := 0];
    }
    var reposts := counters.reposts[id := 0];
    if row.repostOf.Some? {
      reposts :- UpdatePostCounter(t, reposts, row.repostOf.value, 1);
      assert reposts == Increment(counters.reposts, row.repostOf)[id := 0];
    }
    r := Success(PostCounters(replies, reposts, counters.reactions[id := 0], authored));
  }

  lemma CountersWithPost(rows: PostRows, counters: PostCounters, depth: map<PostId, nat>, profiles: ProfileTable, emojis: EmojiTable,
                         id: PostId, row: Post)
    requires PostRowsOk(rows, depth, profiles, emojis) && PostCountersOk(rows, counters, profiles)
    requires id !in rows.posts && CanHang(rows.posts, row)
    requires HasRoom(counters, row)
    ensures PostCountersOk(rows.(posts := rows.posts[id := row]), CountersWith(counters, id, row), profiles)
  {
    RepliesWith(rows.posts, depth, id, row, counters.replies);
    RepostsWith(rows.posts, depth, id, row, counters.reposts);
    AuthoredWith(rows.posts, id, row, profiles, counters.authored);
    ReactionsWith(rows.posts, id, row, profiles, rows.reactions, counters.reactions);
  }

  /** The rows after `create_post` commits. */
  function RowsWith(rows: PostRows, id: PostId, author: ProfileId, data: PostCreateData): PostRows {
    WithRelated(rows.(posts := rows.posts[id := NewRow(author, data)]), id, data.related)
  }

  lemma RelateToNewPost(rows: PostRows, profiles: ProfileTable, emojis: EmojiTable, id: PostId, author: ProfileId, row: Post, related: Related)
    requires id !in rows.posts
    ensures CanRelate(rows.(posts := rows.posts[id := row]), profiles, emojis, id, author, related)
       <==> CanRelate(rows, profiles, emojis, id, author, related)
  {
    assert rows.posts[id := row].Keys - {id} == rows.posts.Keys - {id};
  }

  lemma InsertPostIff(t: PostTable, profiles: ProfileTable, id: PostId, row: Post)
    ensures InsertPost(t, profiles, id, row).Success? <==>
              && id !in t && !Collides(t, row) && row.author in profiles
              && (row.inReplyTo.Some? ==> Original(t, row.inReplyTo.value))
              && (row.repostOf.Some? ==> Original(t, row.repostOf.value) && t[row.repostOf.value].visibility.Public?)
  {
  }

  /** The statements of `create_post`, for any state of the tables. */
  method CreatePostRows(rows: PostRows, counters: PostCounters, profiles: ProfileTable, emojis: EmojiTable,
                        id: PostId, author: ProfileId, data: PostCreateData)
    returns (r: Result<(PostRows, PostCounters)>)
    ensures r.Success? <==> CanCreate(rows, counters, profiles, emojis, id, author, data)
    ensures r.Success? ==> r.value == (RowsWith(rows, id, author, data), CountersWith(counters, id, NewRow(author, data)))
  {
    var row := NewRow(author, data);
    InsertPostIff(rows.posts, profiles, id, row);
    var posts :- InsertPost(rows.posts, profiles, id, row);
    RelateToNewPost(rows, profiles, emojis, id, author, row, data.related);
    var tx :- CreateRelated(rows.(posts := posts), profiles, emojis, id, author, data.related);
    var counters' :- CountNewPost(posts, counters, id, row);
    // Post::new
    if !(RowConsistent(row, profiles[author].IsLocal()) && RelatedConsistent(row, data.related)) {
      return Failure(TypeMismatch);
    }
    r := Success((tx, counters'));
  }

  /** A successful `create_post` keeps the post tables and their counters valid. */
  lemma CreatedIsValid(rows: PostRows, counters: PostCounters, depth: map<PostId, nat>, profiles: ProfileTable, emojis: EmojiTable,
                       id: PostId, author: ProfileId, data: PostCreateData)
    requires PostRowsOk(rows, depth, profiles, emojis) && PostCountersOk(rows, counters, profiles)
    requires CanCreate(rows, counters, profiles, emojis, id, author, data)
    ensures PostRowsOk(RowsWith(rows, id, author, data), depth[id := DepthBelow(depth, NewRow(author, data))], profiles, emojis)
    ensures PostCountersOk(RowsWith(rows, id, author, data), CountersWith(counters, id, NewRow(author, data)), profiles)
  {
    var row := NewRow(author, data);
    var with := rows.(posts := rows.posts[id := row]);
    RowsWithPost(rows, depth, profiles, emojis, id, row);
    CountersWithPost(rows, counters, depth, profiles, emojis, id, row);
    if row.repostOf.Some? {
      NothingRelatedChangesNothing(with, id);
    } else {
      RowsWithRelated(with, depth[id := DepthBelow(depth, row)], profiles, emojis, id, data.related);
    }
  }

  // What creating and editing mean for a reader of the tables

  /** The related rows of `id` are those listed and no others. */
  ghost predicate HasExactly(rows: PostRows, id: PostId, related: Related) {
    && (forall p {:trigger Mention(id, p) in rows.mentions} :: Mention(id, p) in rows.mentions <==> p in related.mentions)
    && (forall n {:trigger PostTag(id, n) in rows.tags} :: PostTag(id, n) in rows.tags <==> n in related.tags)
    && (forall q {:trigger PostLink(id, q) in rows.links} :: PostLink(id, q) in rows.links <==> q in related.links)
    && (forall e {:trigger PostEmoji(id, e) in rows.postEmojis} :: PostEmoji(id, e) in rows.postEmojis <==> e in related.emojis)
    && (forall a {:trigger rows.attachments[a]} :: a in rows.attachments ==>
          (rows.attachments[a].post == Some(id) <==> a in related.attachments))
    && (forall a {:trigger a in rows.attachments} :: a in related.attachments ==> a in rows.attachments)
  }

  /** Other posts and what is related to them stay; attachments only go from or to `id`. */
  ghost predicate OthersStay(before: PostRows, after: PostRows, id: PostId, related: Related) {
    && (forall q {:trigger q in after.posts} :: q != id ==> (q in after.posts <==> q in before.posts))
    && (forall q {:trigger after.posts[q]} :: q != id && q in before.posts && q in after.posts ==> after.posts[q] == before.posts[q])
    && after.reactions == before.reactions && after.likeIds == before.likeIds
    && (forall m: Mention {:trigger m in after.mentions} :: m.post != id ==> (m in after.mentions <==> m in before.mentions))
    && (forall g: PostTag {:trigger g in after.tags} :: g.post != id ==> (g in after.tags <==> g in before.tags))
    && (forall l: PostLink {:trigger l in after.links} :: l.source != id ==> (l in after.links <==> l in before.links))
    && (forall e: PostEmoji {:trigger e in after.postEmojis} :: e.post != id ==> (e in after.postEmojis <==> e in before.postEmojis))
    && (forall a {:trigger a in after.attachments} :: a in after.attachments ==> a in before.attachments)
    && (forall a {:trigger a in after.attachments} ::
          a in before.attachments && before.attachments[a].post != Some(id) && a !in related.attachments ==>
          a in after.attachments && after.attachments[a] == before.attachments[a])
    && (forall a {:trigger after.attachments[a]} :: a in related.attachments && a in before.attachments && a in after.attachments ==>
          after.attachments[a] == before.attachments[a].(post := Some(id)))
  }

  /** The post is there as it was given, with exactly what was listed. */
  ghost predicate PostCreated(before: PostRows, after: PostRows, id: PostId, author: ProfileId, data: PostCreateData) {
    && id !in before.posts && id in after.posts
    && var row := after.posts[id];
    && row.author == author && row.content == data.content && row.inReplyTo == data.inReplyTo && row.repostOf == data.repostOf
    && row.visibility == data.visibility && row.isSensitive == data.isSensitive && row.objectId == data.objectId
    && row.ipfsCid == None && row.createdAt == data.createdAt
    && HasExactly(after, id, data.related) && OthersStay(before, after, id, data.related)
  }

  /** Content and sensitivity are new, everything else of the row is as before, and exactly what
      is listed now is related to it. */
  ghost predicate PostEdited(before: PostRows, after: PostRows, id: PostId, content: string, isSensitive: bool, related: Related) {
    && id in before.posts && id in after.posts
    && var row, was := after.posts[id], before.posts[id];
    && row.content == content && row.isSensitive == isSensitive
    && row.author == was.author && row.inReplyTo == was.inReplyTo && row.repostOf == was.repostOf
    && row.visibility == was.visibility && row.objectId == was.objectId && row.ipfsCid == was.ipfsCid
    && row.createdAt == was.createdAt
    && (forall a {:trigger a in after.attachments} :: a in before.attachments && before.attachments[a].post == Some(id) ==> a !in after.attachments)
    && HasExactly(after, id, related) && OthersStay(before, after, id, related)
  }

  lemma CreatedAsGiven(rows: PostRows, counters: PostCounters, depth: map<PostId, nat>, profiles: ProfileTable, emojis: EmojiTable,
                       id: PostId, author: ProfileId, data: PostCreateData)
    requires PostRowsOk(rows, depth, profiles, emojis) && CanCreate(rows, counters, profiles, emojis, id, author, data)
    ensures PostCreated(rows, RowsWith(rows, id, author, data), id, author, data)
  {
    assert !Original(rows.posts, id);
    RelatedAsListed(rows.(posts := rows.posts[id := NewRow(author, data)]), id, data.related);
  }

  /** When nothing is related to `id` yet. */
  lemma RelatedAsListed(rows: PostRows, id: PostId, related: Related)
    requires forall m :: m in rows.mentions ==> m.post != id
    requires forall g :: g in rows.tags ==> g.post != id
    requires forall l :: l in rows.links ==> l.source != id
    requires forall e :: e in rows.postEmojis ==> e.post != id
    requires forall a :: a in rows.attachments ==> rows.attachments[a].post != Some(id)
    requires forall a :: a in related.attachments ==> a in rows.attachments
    ensures HasExactly(WithRelated(rows, id, related), id, related)
    ensures OthersStay(rows, WithRelated(rows, id, related), id, related)
  {
  }

  /** When a post can be edited, said of the tables: attachments it already has cannot be listed. */
  lemma UpdateCondition(rows: PostRows, profiles: ProfileTable, emojis: EmojiTable, id: PostId,
                        content: string, isSensitive: bool, related: Related)
    ensures CanUpdate(rows, profiles, emojis, id, content, isSensitive, related) <==>
              && id in rows.posts && rows.posts[id].repostOf == None && rows.posts[id].ipfsCid == None
              && RelatedAvailable(rows, profiles, emojis, id, rows.posts[id].author, related)
              && (forall a :: a in related.attachments && a in rows.attachments ==> rows.attachments[a].post != Some(id))
  {
    if id in rows.posts {
      var edited := Edited(rows, id, content, isSensitive);
      forall a | a in related.attachments
        ensures a in OwnedBy(edited.attachments, rows.posts[id].author) <==>
                && a in rows.attachments && rows.attachments[a].owner == rows.posts[id].author && rows.attachments[a].post != Some(id)
      {
      }
      forall q | q in related.links ensures q in edited.posts.Keys - {id} <==> q in rows.posts && q != id {
      }
    }
  }

  lemma EditedAsGiven(rows: PostRows, profiles: ProfileTable, emojis: EmojiTable, id: PostId,
                      content: string, isSensitive: bool, related: Related)
    requires CanUpdate(rows, profiles, emojis, id, content, isSensitive, related)
    ensures PostEdited(rows, WithRelated(Edited(rows, id, content, isSensitive), id, related), id, content, isSensitive, related)
  {
    RelatedAsListed(Edited(rows, id, content, isSensitive), id, related);
  }

  /** Reading `p` joined with its related rows passes every check of `Post::new`. */
  predicate ReadsBack(rows: PostRows, profiles: ProfileTable, p: PostId)
    requires p in rows.posts
  {
    && rows.posts[p].author in profiles
    && RowConsistent(rows.posts[p], profiles[rows.posts[p].author].IsLocal())
    && (rows.posts[p].repostOf.Some? ==>
          && (set a | a in rows.attachments && rows.attachments[a].post == Some(p)) == {}
          && (set m | m in rows.mentions && m.post == p) == {}
          && (set g | g in rows.tags && g.post == p) == {}
          && (set l | l in rows.links && l.source == p) == {}
          && (set e | e in rows.postEmojis && e.post == p) == {})
  }

  /** No stored post makes a query fail with a type error: the checks of `Post::new`, which
      only `create_post` runs before it commits, hold of every post ever after. */
  lemma StoredPostsReadBack(rows: PostRows, depth: map<PostId, nat>, profiles: ProfileTable, emojis: EmojiTable, p: PostId)
    requires PostRowsOk(rows, depth, profiles, emojis) && p in rows.posts
    ensures ReadsBack(rows, profiles, p)
  {
  }

  // update_post

  /** The rows related to `id` are deleted; links to it from other posts stay. */
  function WithoutRelated(rows: PostRows, id: PostId): PostRows {
    rows.(
    attachments := AttachmentsWithout(rows.attachments, {id}),
    mentions := (set m | m in rows.mentions && m.post != id),
    tags := (set g | g in rows.tags && g.post != id),
    links := (set l | l in rows.links && l.source != id),
    postEmojis := (set e | e in rows.postEmojis && e.post != id))
  }

  /** The rows once `update_post` has changed the row and deleted what was related to it. */
  function Edited(rows: PostRows, id: PostId, content: string, isSensitive: bool): PostRows
    requires id in rows.posts
  {
    WithoutRelated(rows.(posts := rows.posts[id := rows.posts[id].(content := content, isSensitive := isSensitive)]), id)
  }

  /** Exactly when `update_post` succeeds. */
  predicate CanUpdate(rows: PostRows, profiles: ProfileTable, emojis: EmojiTable, id: PostId,
                      content: string, isSensitive: bool, related: Related)
  {
    && Original(rows.posts, id) && rows.posts[id].ipfsCid.None?
    && CanRelate(Edited(rows, id, content, isSensitive), profiles, emojis, id, rows.posts[id].author, related)
  }

  /** `update_post`. Attachments already on the post are deleted before the new list is
      attached, so listing one of them again fails. */
  method UpdatePostRows(rows: PostRows, profiles: ProfileTable, emojis: EmojiTable, id: PostId,
                        content: string, isSensitive: bool, related: Related)
    returns (r: Result<PostRows>)
    ensures r.Success? <==> CanUpdate(rows, profiles, emojis, id, content, isSensitive, related)
    ensures r.Success? ==> r.value == WithRelated(Edited(rows, id, content, isSensitive), id, related)
  {
    if !(id in rows.posts && rows.posts[id].repostOf.None? && rows.posts[id].ipfsCid.None?) {
      return Failure(NotFound("post"));
    }
    r := CreateRelated(Edited(rows, id, content, isSensitive), profiles, emojis, id, rows.posts[id].author, related);
  }

  /** `row` has the same author, edges and identity as the row it replaces. */
  predicate SameIdentity(row: Post, row': Post) {
    row' == row.(content := row'.content, isSensitive := row'.isSensitive, ipfsCid := row'.ipfsCid)
  }

  lemma RowsWithEdit(rows: PostRows, depth: map<PostId, nat>, profiles: ProfileTable, emojis: EmojiTable, id: PostId, row: Post)
    requires PostRowsOk(rows, depth, profiles, emojis)
    requires Original(rows.posts, id) && SameIdentity(rows.posts[id], row)
    ensures PostRowsOk(rows.(posts := rows.posts[id := row]), depth, profiles, emojis)
  {
    var t, t' := rows.posts, rows.posts[id := row];
    forall q | q in t' ensures EdgeOk(t', depth, q) {
      assert EdgeOk(t, depth, q);
    }
    forall p, q | p in t' && q in t' && p != q ensures Apart(t'[p], t'[q]) {
      assert Apart(t[p], t[q]);
    }
  }

  lemma RepliesWithEdit(t: PostTable, id: PostId, row: Post, counts: PostCounts)
    requires CountsReplies(t, counts) && id in t && SameIdentity(t[id], row)
    ensures CountsReplies(t[id := row], counts)
  {
    forall p | p in counts ensures IsCounter(counts[p]) && counts[p] == |Replies(t[id := row], p)| {
      assert Replies(t[id := row], p) == Replies(t, p);
    }
  }

  lemma RepostsWithEdit(t: PostTable, id: PostId, row: Post, counts: PostCounts)
    requires CountsReposts(t, counts) && id in t && SameIdentity(t[id], row)
    ensures CountsReposts(t[id := row], counts)
  {
    forall p | p in counts ensures IsCounter(counts[p]) && counts[p] == |Reposts(t[id := row], p)| {
      assert Reposts(t[id := row], p) == Reposts(t, p);
    }
  }

  lemma AuthoredWithEdit(t: PostTable, id: PostId, row: Post, profiles: ProfileTable, counts: ProfileCounts)
    requires CountsPosts(t, profiles, counts) && id in t && SameIdentity(t[id], row)
    ensures CountsPosts(t[id := row], profiles, counts)
  {
    forall a | a in counts ensures IsCounter(counts[a]) && counts[a] == |AuthoredBy(t[id := row], a)| {
      assert AuthoredBy(t[id := row], a) == AuthoredBy(t, a);
    }
  }

  lemma ReactionsWithEdit(t: PostTable, id: PostId, row: Post, reactions: set<Reaction>, counts: PostCounts)
    requires CountsReactions(t, reactions, counts) && id in t
    ensures CountsReactions(t[id := row], reactions, counts)
  {
    assert t[id := row].Keys == t.Keys;
    forall p | p in counts ensures IsCounter(counts[p]) && counts[p] == |ReactionsTo(reactions, p)| {
      assert counts[p] == |ReactionsTo(reactions, p)|;
    }
  }

  lemma CountersWithEdit(rows: PostRows, counters: PostCounters, profiles: ProfileTable, id: PostId, row: Post)
    requires PostCountersOk(rows, counters, profiles)
    requires id in rows.posts && SameIdentity(rows.posts[id], row)
    ensures PostCountersOk(rows.(posts := rows.posts[id := row]), counters, profiles)
  {
    ReactionsWithEdit(rows.posts, id, row, rows.reactions, counters.reactions);
    RepliesWithEdit(rows.posts, id, row, counters.replies);
    RepostsWithEdit(rows.posts, id, row, counters.reposts);
    AuthoredWithEdit(rows.posts, id, row, profiles, counters.authored);
  }

  lemma RowsWithoutRelated(rows: PostRows, depth: map<PostId, nat>, profiles: ProfileTable, emojis: EmojiTable, id: PostId)
    requires PostRowsOk(rows, depth, profiles, emojis)
    ensures PostRowsOk(WithoutRelated(rows, id), depth, profiles, emojis)
  {
  }

  lemma UpdatedIsValid(rows: PostRows, counters: PostCounters, depth: map<PostId, nat>, profiles: ProfileTable, emojis: EmojiTable,
                       id: PostId, content: string, isSensitive: bool, related: Related)
    requires PostRowsOk(rows, depth, profiles, emojis) && PostCountersOk(rows, counters, profiles)
    requires CanUpdate(rows, profiles, emojis, id, content, isSensitive, related)
    ensures PostRowsOk(WithRelated(Edited(rows, id, content, isSensitive), id, related), depth, profiles, emojis)
    ensures PostCountersOk(WithRelated(Edited(rows, id, content, isSensitive), id, related), counters, profiles)
  {
    var row := rows.posts[id].(content := content, isSensitive := isSensitive);
    var changed := rows.(posts := rows.posts[id := row]);
    RowsWithEdit(rows, depth, profiles, emojis, id, row);
    CountersWithEdit(rows, counters, profiles, id, row);
    RowsWithoutRelated(changed, depth, profiles, emojis, id);
    RowsWithRelated(WithoutRelated(changed, id), depth, profiles, emojis, id, related);
  }

  // create_reaction, delete_reaction

  predicate LikeIdTaken(likeIds: LikeIds, activityId: Option<string>) {
    activityId.Some? && activityId.value in likeIds.Values
  }

  /** The rows with a reaction that the activity, if any, has made. */
  function WithReaction(rows: PostRows, reaction: Reaction, activityId: Option<string>): PostRows {
    rows.(reactions := rows.reactions + {reaction},
    likeIds := if activityId.Some? then rows.likeIds[reaction := activityId.value] else rows.likeIds)
  }

  function WithoutReaction(rows: PostRows, reaction: Reaction): PostRows {
    rows.(reactions := rows.reactions - {reaction}, likeIds := rows.likeIds - {reaction})
  }

  function InsertReaction(rows: PostRows, profiles: ProfileTable, reaction: Reaction, activityId: Option<string>): Result<PostRows> {
    if reaction.post in rows.posts && rows.posts[reaction.post].repostOf.Some? then Failure(NotFound("post"))
    else if reaction in rows.reactions || LikeIdTaken(rows.likeIds, activityId) then Failure(AlreadyExists("reaction"))
    else if reaction.post !in rows.posts || reaction.author !in profiles then Failure(ConstraintViolation("post_reaction"))
    else Success(WithReaction(rows, reaction, activityId))
  }

  /** Exactly this reaction is new, with the activity that made it, if any. */
  predicate ReactionAdded(before: PostRows, after: PostRows, reaction: Reaction, activityId: Option<string>) {
    && after.reactions == before.reactions + {reaction}
    && after.likeIds.Keys == before.likeIds.Keys + (if activityId == None then {} else {reaction})
    && (activityId != None ==> reaction in after.likeIds && after.likeIds[reaction] == activityId.value)
    && (forall r :: r in before.likeIds && r in after.likeIds && (r != reaction || activityId == None) ==> after.likeIds[r] == before.likeIds[r])
    && after.posts == before.posts && after.mentions == before.mentions && after.tags == before.tags
    && after.links == before.links && after.postEmojis == before.postEmojis && after.attachments == before.attachments
  }

  /** Exactly this reaction is gone. */
  predicate ReactionRemoved(before: PostRows, after: PostRows, reaction: Reaction) {
    && after.reactions == before.reactions - {reaction}
    && after.likeIds.Keys == before.likeIds.Keys - {reaction}
    && (forall r :: r in after.likeIds && r in before.likeIds ==> after.likeIds[r] == before.likeIds[r])
    && after.posts == before.posts && after.mentions == before.mentions && after.tags == before.tags
    && after.links == before.links && after.postEmojis == before.postEmojis && after.attachments == before.attachments
  }

  lemma ReactionsAsGiven(rows: PostRows, reaction: Reaction, activityId: Option<string>)
    ensures ReactionAdded(rows, WithReaction(rows, reaction, activityId), reaction, activityId)
    ensures ReactionRemoved(rows, WithoutReaction(rows, reaction), reaction)
    ensures LikeIdTaken(rows.likeIds, activityId) <==> exists r :: r in rows.likeIds && activityId == Some(rows.likeIds[r])
  {
  }

  /** The statements of `create_reaction`. */
  method CreateReactionRow(rows: PostRows, counters: PostCounters, profiles: ProfileTable, reaction: Reaction, activityId: Option<string>)
    returns (r: Result<(PostRows, PostCounters)>)
    ensures r.Success? <==>
              && Original(rows.posts, reaction.post) && reaction.author in profiles && reaction !in rows.reactions
              && !LikeIdTaken(rows.likeIds, activityId)
              && reaction.post in counters.reactions && IsCounter(counters.reactions[reaction.post] + 1)
    ensures r == Failure(AlreadyExists("reaction")) <==>
              && !(reaction.post in rows.posts && rows.posts[reaction.post].repostOf != None)
              && (reaction in rows.reactions || exists l :: l in rows.likeIds && activityId == Some(rows.likeIds[l]))
    ensures r.Success? ==> r.value.0 == WithReaction(rows, reaction, activityId)
    ensures r.Success? ==> r.value.1 == counters.(reactions := Increment(counters.reactions, Some(reaction.post)))
  {
    ReactionsAsGiven(rows, reaction, activityId);
    var rows' :- InsertReaction(rows, profiles, reaction, activityId);
    var counts :- UpdatePostCounter(rows.posts, counters.reactions, reaction.post, 1);
    r := Success((rows', counters.(reactions := counts)));
  }

  lemma OneMoreReaction(t: PostTable, reactions: set<Reaction>, reaction: Reaction, counts: PostCounts)
    requires CountsReactions(t, reactions, counts) && reaction !in reactions
    requires reaction.post in counts && IsCounter(counts[reaction.post] + 1)
    ensures CountsReactions(t, reactions + {reaction}, Increment(counts, Some(reaction.post)))
  {
    var counts' := Increment(counts, Some(reaction.post));
    forall p | p in counts' ensures IsCounter(counts'[p]) && counts'[p] == |ReactionsTo(reactions + {reaction}, p)| {
      if p == reaction.post {
        assert ReactionsTo(reactions + {reaction}, p) == ReactionsTo(reactions, p) + {reaction};
      } else {
        assert ReactionsTo(reactions + {reaction}, p) == ReactionsTo(reactions, p);
      }
    }
  }

  lemma OneLessReaction(t: PostTable, reactions: set<Reaction>, reaction: Reaction, counts: PostCounts)
    requires CountsReactions(t, reactions, counts) && reaction in reactions && reaction.post in counts
    ensures CountsReactions(t, reactions - {reaction}, counts[reaction.post := counts[reaction.post] - 1])
  {
    var counts' := counts[reaction.post := counts[reaction.post] - 1];
    forall p | p in counts' ensures IsCounter(counts'[p]) && counts'[p] == |ReactionsTo(reactions - {reaction}, p)| {
      if p == reaction.post {
        assert ReactionsTo(reactions - {reaction}, p) == ReactionsTo(reactions, p) - {reaction};
        assert |ReactionsTo(reactions - {reaction}, p)| == |ReactionsTo(reactions, p)| - 1;
      } else {
        assert ReactionsTo(reactions - {reaction}, p) == ReactionsTo(reactions, p);
      }
    }
  }

  lemma ReactedIsValid(rows: PostRows, counters: PostCounters, depth: map<PostId, nat>, profiles: ProfileTable, emojis: EmojiTable,
                       reaction: Reaction, activityId: Option<string>)
    requires PostRowsOk(rows, depth, profiles, emojis) && PostCountersOk(rows, counters, profiles)
    requires Original(rows.posts, reaction.post) && reaction.author in profiles && reaction !in rows.reactions
    requires IsCounter(counters.reactions[reaction.post] + 1) && !LikeIdTaken(rows.likeIds, activityId)
    ensures PostRowsOk(WithReaction(rows, reaction, activityId), depth, profiles, emojis)
    ensures PostCountersOk(WithReaction(rows, reaction, activityId),
                           counters.(reactions := Increment(counters.reactions, Some(reaction.post))), profiles)
  {
    OneMoreReaction(rows.posts, rows.reactions, reaction, counters.reactions);
    var likeIds' := WithReaction(rows, reaction, activityId).likeIds;
    forall a, b | a in likeIds' && b in likeIds' ensures LikesApart(likeIds', a, b) {
      assert a != reaction && b != reaction ==> LikesApart(rows.likeIds, a, b);
    }
  }

  lemma UnreactedRowsAreValid(rows: PostRows, depth: map<PostId, nat>, profiles: ProfileTable, emojis: EmojiTable, reaction: Reaction)
    requires PostRowsOk(rows, depth, profiles, emojis)
    ensures PostRowsOk(WithoutReaction(rows, reaction), depth, profiles, emojis)
  {
    var after := WithoutReaction(rows, reaction);
    FewerLikes(rows.likeIds, rows.reactions, after.likeIds, after.reactions);
  }

  /** The statements of `delete_reaction`. */
  method DeleteReactionRow(rows: PostRows, counters: PostCounters, ghost depth: map<PostId, nat>, profiles: ProfileTable,
                           ghost emojis: EmojiTable, reaction: Reaction)
    returns (r: Result<(PostRows, PostCounters)>)
    requires PostRowsOk(rows, depth, profiles, emojis) && PostCountersOk(rows, counters, profiles)
    ensures r.Success? <==> reaction in rows.reactions
    ensures r.Failure? ==> r.error == NotFound("reaction")
    ensures r.Success? ==> r.value.0 == WithoutReaction(rows, reaction)
    ensures r.Success? ==> PostRowsOk(r.value.0, depth, profiles, emojis) && PostCountersOk(r.value.0, r.value.1, profiles)
  {
    if reaction !in rows.reactions {
      return Failure(NotFound("reaction"));
    }
    OneLessReaction(rows.posts, rows.reactions, reaction, counters.reactions);
    UnreactedRowsAreValid(rows, depth, profiles, emojis, reaction);
    assert |ReactionsTo(rows.reactions - {reaction}, reaction.post)| >= 0;
    var counts :- UpdatePostCounter(rows.posts, counters.reactions, reaction.post, -1);
    r := Success((WithoutReaction(rows, reaction), counters.(reactions := counts)));
  }
}
