/** `delete_profile`: seven counter statements, one DELETE with its cascades, and the clean-up
    queries. */
module ProfileDeletion {
  import opened Collections
  import opened PostGraph
  import opened Schema
  import opened Counters
  import opened Cleanup

  // Rows that the FROM clauses of the counter statements match

  function ReactedBy(reactions: set<Reaction>, id: ProfileId): set<PostId> {
    set r | r in reactions && r.author == id :: r.post
  }

  function RepostedBy(t: PostTable, id: ProfileId): set<PostId> {
    set q | q in t && t[q].author == id && t[q].repostOf.Some? :: t[q].repostOf.value
  }

  function TargetsOf(relationships: set<Relationship>, id: ProfileId, kind: RelationshipType): set<ProfileId> {
    set r | r in relationships && r.source == id && r.kind == kind :: r.target
  }

  function SourcesOf(relationships: set<Relationship>, id: ProfileId, kind: RelationshipType): set<ProfileId> {
    set r | r in relationships && r.target == id && r.kind == kind :: r.source
  }

  // ON DELETE CASCADE from a deleted profile

  /** `gone` are the posts the cascade deletes. */
  function RowsWithoutProfile(rows: PostRows, gone: set<PostId>, id: ProfileId): PostRows {
    var left := RowsWithout(rows, gone);
    left.(
    reactions := (set r | r in left.reactions && r.author != id),
    likeIds := (map r | r in left.likeIds && r.author != id :: left.likeIds[r]),
    mentions := (set m | m in left.mentions && m.profile != id),
    attachments := (map a | a in left.attachments && left.attachments[a].owner != id :: left.attachments[a]))
  }

  function RelationshipsWithout(relationships: set<Relationship>, id: ProfileId): set<Relationship> {
    set r | r in relationships && r.source != id && r.target != id
  }

  function RequestsWithout(requests: RequestTable, id: ProfileId): RequestTable {
    map i | i in requests && requests[i].source != id && requests[i].target != id :: requests[i]
  }

  function EmojisWithout(emoji: EmojiRows, id: ProfileId): EmojiRows {
    emoji.(profileEmojis := (set e | e in emoji.profileEmojis && e.profile != id), cache := emoji.cache - {id})
  }

  // Counters of the post graph

  lemma SubtractRepliesSucceeds(t: PostTable, depth: map<PostId, nat>, id: ProfileId, gone: set<PostId>, counts: PostCounts)
    requires Forest(t, depth) && gone == Closure(t, AuthoredBy(t, id)) && CountsReplies(t, counts)
    ensures SubtractReplies(t, counts, id).Success?
    ensures CountsReplies(t - gone, SubtractReplies(t, counts, id).value - gone)
  {
    var counts' := map p | p in counts :: counts[p] - |Replies(t, p) * AuthoredBy(t, id)|;
    forall p | p in counts' ensures IsCounter(counts'[p]) {
      SubsetCardinality(Replies(t, p) * AuthoredBy(t, id), Replies(t, p));
    }
    RepliesAfterClosure(t, depth, AuthoredBy(t, id), gone, counts, counts' - gone);
  }

  /** By `UNIQUE (author_id, repost_of_id)`, decrementing once is subtracting the count. */
  lemma OneRepostEach(t: PostTable, id: ProfileId, p: PostId)
    requires UniquePosts(t)
    ensures |Reposts(t, p) * AuthoredBy(t, id)| == if p in RepostedBy(t, id) then 1 else 0
  {
    if p in RepostedBy(t, id) {
      var q :| q in t && t[q].author == id && t[q].repostOf == Some(p);
      forall q' | q' in Reposts(t, p) * AuthoredBy(t, id) ensures q' == q {
        assert q != q' ==> Apart(t[q], t[q']);
      }
      assert Reposts(t, p) * AuthoredBy(t, id) == {q};
    } else {
      assert Reposts(t, p) * AuthoredBy(t, id) == {};
    }
  }

  lemma DecrementRepostsSucceeds(t: PostTable, depth: map<PostId, nat>, id: ProfileId, gone: set<PostId>, counts: PostCounts)
    requires Forest(t, depth) && UniquePosts(t) && gone == Closure(t, AuthoredBy(t, id)) && CountsReposts(t, counts)
    ensures DecrementMatched(counts, RepostedBy(t, id)).Success?
    ensures CountsReposts(t - gone, DecrementMatched(counts, RepostedBy(t, id)).value - gone)
  {
    var matched := RepostedBy(t, id);
    var counts' := map p | p in counts :: if p in matched then counts[p] - 1 else counts[p];
    forall p | p in counts' ensures IsCounter(counts'[p]) && counts'[p] == counts[p] - |Reposts(t, p) * AuthoredBy(t, id)| {
      OneRepostEach(t, id, p);
      SubsetCardinality(Reposts(t, p) * AuthoredBy(t, id), Reposts(t, p));
    }
    RepostsAfterClosure(t, depth, AuthoredBy(t, id), gone, counts, counts' - gone);
  }

  lemma ReactionsToWithout(reactions: set<Reaction>, gone: set<PostId>, id: ProfileId, p: PostId)
    requires p !in gone
    ensures var left := set r | r in ReactionsWithout(reactions, gone) && r.author != id;
            |ReactionsTo(left, p)| == |ReactionsTo(reactions, p)| - if p in ReactedBy(reactions, id) then 1 else 0
  {
    var left := set r | r in ReactionsWithout(reactions, gone) && r.author != id;
    assert ReactionsTo(left, p) == ReactionsTo(reactions, p) - {Reaction(id, p)};
    assert Reaction(id, p) in ReactionsTo(reactions, p) <==> p in ReactedBy(reactions, id);
  }

  lemma DecrementReactionsSucceeds(t: PostTable, gone: set<PostId>, reactions: set<Reaction>, id: ProfileId, counts: PostCounts)
    requires CountsReactions(t, reactions, counts)
    ensures DecrementMatched(counts, ReactedBy(reactions, id)).Success?
    ensures CountsReactions(t - gone, (set r | r in ReactionsWithout(reactions, gone) && r.author != id),
                            DecrementMatched(counts, ReactedBy(reactions, id)).value - gone)
  {
    var matched := ReactedBy(reactions, id);
    var counts' := map p | p in counts :: if p in matched then counts[p] - 1 else counts[p];
    var left := set r | r in ReactionsWithout(reactions, gone) && r.author != id;
    forall p | p in counts' ensures IsCounter(counts'[p]) {
      ReactionsToWithout(reactions, {}, id, p);
      assert counts[p] == |ReactionsTo(reactions, p)|;
    }
    forall p | p in counts' - gone ensures IsCounter(counts'[p]) && counts'[p] == |ReactionsTo(left, p)| {
      ReactionsToWithout(reactions, gone, id, p);
      assert counts[p] == |ReactionsTo(reactions, p)|;
    }
  }

  lemma AuthorGone(t: PostTable, profiles: ProfileTable, id: ProfileId, counts: ProfileCounts)
    requires CountsPosts(t, profiles, counts)
    ensures CountsPosts(t, profiles - {id}, counts - {id})
  {
    var counts' := counts - {id};
    forall a | a in counts' ensures IsCounter(counts'[a]) && counts'[a] == |AuthoredBy(t, a)| {
      assert counts[a] == |AuthoredBy(t, a)|;
    }
  }

  lemma RowsAfterProfileRemoval(rows: PostRows, depth: map<PostId, nat>, profiles: ProfileTable, emojis: EmojiTable,
                                gone: set<PostId>, id: ProfileId)
    requires PostRowsOk(rows, depth, profiles, emojis)
    requires Closed(rows.posts, gone) && AuthoredBy(rows.posts, id) <= gone
    ensures PostRowsOk(RowsWithoutProfile(rows, gone, id), depth, profiles - {id}, emojis)
  {
    RowsAfterRemoval(rows, depth, profiles, emojis, gone);
    var left := RowsWithoutProfile(rows, gone, id);
    assert forall q :: q in left.posts ==> left.posts[q].author != id;
    assert AuthorsOk(left.posts, profiles - {id});
    FewerLikes(rows.likeIds, rows.reactions, left.likeIds, left.reactions);
  }

  /** The statements of `delete_profile` on posts and their counters. None of the CHECKs can
      fail, and every counter that survives counts the rows that survive. */
  method DeleteAuthor(rows: PostRows, counters: PostCounters, ghost depth: map<PostId, nat>, profiles: ProfileTable,
                      ghost emojis: EmojiTable, id: ProfileId)
    returns (r: Result<(set<PostId>, PostCounters)>)
    requires PostRowsOk(rows, depth, profiles, emojis) && PostCountersOk(rows, counters, profiles)
    ensures r.Success?
    ensures r.value.0 == Closure(rows.posts, AuthoredBy(rows.posts, id))
    ensures PostCountersOk(RowsWithoutProfile(rows, r.value.0, id), r.value.1, profiles - {id})
  {
    var t := rows.posts;
    var gone := SelectContext(t, AuthoredBy(t, id));
    SubtractPostsSucceeds(t, gone, profiles, counters.authored);
    var authored :- SubtractPosts(t, counters.authored, gone);
    SubtractRepliesSucceeds(t, depth, id, gone, counters.replies);
    var replies :- SubtractReplies(t, counters.replies, id);
    DecrementReactionsSucceeds(t, gone, rows.reactions, id, counters.reactions);
    var reactions :- DecrementMatched(counters.reactions, ReactedBy(rows.reactions, id));
    DecrementRepostsSucceeds(t, depth, id, gone, counters.reposts);
    var reposts :- DecrementMatched(counters.reposts, RepostedBy(t, id));
    AuthorGone(t - gone, profiles, id, authored);
    r := Success((gone, PostCounters(replies - gone, reposts - gone, reactions - gone, authored - {id})));
  }

  // Relationships and their counters

  lemma IncomingWithout(relationships: set<Relationship>, id: ProfileId, p: ProfileId, kind: RelationshipType)
    requires p != id
    ensures |Incoming(RelationshipsWithout(relationships, id), p, kind)|
         == |Incoming(relationships, p, kind)| - if p in TargetsOf(relationships, id, kind) then 1 else 0
  {
    var one := Relationship(id, p, kind);
    assert Incoming(RelationshipsWithout(relationships, id), p, kind) == Incoming(relationships, p, kind) - {one};
    assert one in Incoming(relationships, p, kind) <==> p in TargetsOf(relationships, id, kind);
  }

  lemma OutgoingWithout(relationships: set<Relationship>, id: ProfileId, p: ProfileId, kind: RelationshipType)
    requires p != id
    ensures |Outgoing(RelationshipsWithout(relationships, id), p, kind)|
         == |Outgoing(relationships, p, kind)| - if p in SourcesOf(relationships, id, kind) then 1 else 0
  {
    var one := Relationship(p, id, kind);
    assert Outgoing(RelationshipsWithout(relationships, id), p, kind) == Outgoing(relationships, p, kind) - {one};
    assert one in Outgoing(relationships, p, kind) <==> p in SourcesOf(relationships, id, kind);
  }

  lemma DecrementIncomingSucceeds(profiles: ProfileTable, relationships: set<Relationship>, id: ProfileId,
                                  kind: RelationshipType, counts: ProfileCounts)
    requires RelationshipsOk(profiles, relationships) && CountsIncoming(profiles, relationships, kind, counts)
    ensures DecrementMatched(counts, TargetsOf(relationships, id, kind)).Success?
    ensures CountsIncoming(profiles - {id}, RelationshipsWithout(relationships, id), kind,
                           DecrementMatched(counts, TargetsOf(relationships, id, kind)).value - {id})
  {
    var matched := TargetsOf(relationships, id, kind);
    var counts' := map p | p in counts :: if p in matched then counts[p] - 1 else counts[p];
    forall p | p in counts'
      ensures IsCounter(counts'[p])
      ensures p != id ==> counts'[p] == |Incoming(RelationshipsWithout(relationships, id), p, kind)|
    {
      assert counts[p] == |Incoming(relationships, p, kind)|;
      if p != id {
        IncomingWithout(relationships, id, p, kind);
      }
    }
  }

  lemma DecrementOutgoingSucceeds(profiles: ProfileTable, relationships: set<Relationship>, id: ProfileId,
                                  kind: RelationshipType, counts: ProfileCounts)
    requires RelationshipsOk(profiles, relationships) && CountsOutgoing(profiles, relationships, kind, counts)
    ensures DecrementMatched(counts, SourcesOf(relationships, id, kind)).Success?
    ensures CountsOutgoing(profiles - {id}, RelationshipsWithout(relationships, id), kind,
                           DecrementMatched(counts, SourcesOf(relationships, id, kind)).value - {id})
  {
    var matched := SourcesOf(relationships, id, kind);
    var counts' := map p | p in counts :: if p in matched then counts[p] - 1 else counts[p];
    forall p | p in counts'
      ensures IsCounter(counts'[p])
      ensures p != id ==> counts'[p] == |Outgoing(RelationshipsWithout(relationships, id), p, kind)|
    {
      assert counts[p] == |Outgoing(relationships, p, kind)|;
      if p != id {
        OutgoingWithout(relationships, id, p, kind);
      }
    }
  }

  lemma LifecycleWithout(profiles: ProfileTable, relationships: set<Relationship>, requests: RequestTable, id: ProfileId)
    requires RelationshipsOk(profiles, relationships) && RequestsOk(profiles, requests)
    requires Lifecycle(profiles, relationships, requests)
    ensures RelationshipsOk(profiles - {id}, RelationshipsWithout(relationships, id))
    ensures RequestsOk(profiles - {id}, RequestsWithout(requests, id))
    ensures Lifecycle(profiles - {id}, RelationshipsWithout(relationships, id), RequestsWithout(requests, id))
  {
    var requests' := RequestsWithout(requests, id);
    forall r | r in RelationshipsWithout(relationships, id) && r.kind.Follow? && !profiles[r.target].IsLocal()
      ensures Requested(requests', r.source, r.target)
    {
      var i :| i in requests && requests[i].source == r.source && requests[i].target == r.target;
      assert i in requests';
    }
  }

  /** The statements of `delete_profile` on relationships and their counters. */
  method DeleteRelationships(social: Social, profiles: ProfileTable, id: ProfileId) returns (r: Result<Social>)
    requires SocialOk(social, profiles)
    ensures r.Success?
    ensures r.value.relationships == RelationshipsWithout(social.relationships, id)
    ensures r.value.requests == RequestsWithout(social.requests, id)
    ensures SocialOk(r.value, profiles - {id})
  {
    var rels := social.relationships;
    DecrementIncomingSucceeds(profiles, rels, id, Follow, social.followers);
    var followers :- DecrementMatched(social.followers, TargetsOf(rels, id, Follow));
    DecrementOutgoingSucceeds(profiles, rels, id, Follow, social.following);
    var following :- DecrementMatched(social.following, SourcesOf(rels, id, Follow));
    DecrementIncomingSucceeds(profiles, rels, id, Subscription, social.subscribers);
    var subscribers :- DecrementMatched(social.subscribers, TargetsOf(rels, id, Subscription));
    LifecycleWithout(profiles, rels, social.requests, id);
    r := Success(Social(RelationshipsWithout(rels, id), RequestsWithout(social.requests, id),
                        followers - {id}, following - {id}, subscribers - {id}));
  }

  lemma CachesWithout(emoji: EmojiRows, profiles: ProfileTable, id: ProfileId)
    requires EmojisOk(emoji, profiles)
    ensures EmojisOk(EmojisWithout(emoji, id), profiles - {id})
  {
    forall p | p in EmojisWithout(emoji, id).cache
      ensures CacheOk(EmojisWithout(emoji, id).cache[p], emoji.emojis, EmojisWithout(emoji, id).profileEmojis, p)
    {
      assert CacheOk(emoji.cache[p], emoji.emojis, emoji.profileEmojis, p);
      assert JoinedEmojis(emoji.emojis, EmojisWithout(emoji, id).profileEmojis, p) == JoinedEmojis(emoji.emojis, emoji.profileEmojis, p);
    }
  }

  // Clean-up

  function ImagesOf(profiles: ProfileTable, id: ProfileId): set<string> {
    if id !in profiles then {}
    else (if profiles[id].avatar.Some? then {profiles[id].avatar.value} else {})
         + (if profiles[id].banner.Some? then {profiles[id].banner.value} else {})
  }

  /** The files and objects that lose their last reference when the profile is deleted. */
  function LostWithProfile(rows: PostRows, profiles: ProfileTable, emojis: EmojiTable, gone: set<PostId>, id: ProfileId): DeletionQueue {
    var left := RowsWithoutProfile(rows, gone, id);
    DeletionQueue(
      ReferencedFiles(rows.attachments, profiles, emojis) - ReferencedFiles(left.attachments, profiles - {id}, emojis),
      ReferencedObjects(rows.attachments, rows.posts) - ReferencedObjects(left.attachments, left.posts))
  }

  /** What `delete_profile` returns: the images of the profile and the attachments of the
      deleted posts, after the orphan queries. */
  function ProfileQueue(rows: PostRows, profiles: ProfileTable, emojis: EmojiTable, gone: set<PostId>, id: ProfileId): DeletionQueue {
    var left := RowsWithoutProfile(rows, gone, id);
    DeletionQueue(
      OrphanedFiles(left.attachments, profiles - {id}, emojis, ImagesOf(profiles, id) + FilesOfPosts(rows.attachments, gone)),
      OrphanedObjects(left.attachments, left.posts, ObjectsOfPosts(rows.attachments, rows.posts, gone)))
  }

  /** The uploads of the profile that are not attached to any post. */
  function UnattachedUploads(attachments: AttachmentTable, id: ProfileId): set<AttachmentId> {
    set a | a in attachments && attachments[a].owner == id && attachments[a].post.None?
  }

  lemma LostFileOrigin(rows: PostRows, profiles: ProfileTable, emojis: EmojiTable, gone: set<PostId>, id: ProfileId, f: string)
    requires AttachmentsOk(rows.attachments, rows.posts, profiles) && AuthoredBy(rows.posts, id) <= gone
    requires f in LostWithProfile(rows, profiles, emojis, gone, id).files
    ensures f in ImagesOf(profiles, id) + FilesOfPosts(rows.attachments, gone)
         || exists a :: a in UnattachedUploads(rows.attachments, id) && rows.attachments[a].fileName == f
  {
    var left := RowsWithoutProfile(rows, gone, id);
    if f in AttachedFiles(rows.attachments) {
      var a :| a in rows.attachments && rows.attachments[a].fileName == f;
      assert a !in left.attachments by {
        assert forall b :: b in left.attachments ==> left.attachments[b].fileName != f;
      }
      assert rows.attachments[a].owner == id || (rows.attachments[a].post.Some? && rows.attachments[a].post.value in gone);
    } else {
      assert f in ProfileFiles(profiles);
      if p :| p in profiles && profiles[p].avatar == Some(f) {
        assert p !in profiles - {id} by {
          assert f !in ProfileFiles(profiles - {id});
        }
      } else {
        var p :| p in profiles && profiles[p].banner == Some(f);
        assert p !in profiles - {id} by {
          assert f !in ProfileFiles(profiles - {id});
        }
      }
    }
  }

  lemma LostObjectOrigin(rows: PostRows, profiles: ProfileTable, emojis: EmojiTable, gone: set<PostId>, id: ProfileId, c: string)
    requires AttachmentsOk(rows.attachments, rows.posts, profiles) && AuthoredBy(rows.posts, id) <= gone
    requires c in LostWithProfile(rows, profiles, emojis, gone, id).ipfsObjects
    ensures c in ObjectsOfPosts(rows.attachments, rows.posts, gone)
         || exists a :: a in UnattachedUploads(rows.attachments, id) && rows.attachments[a].ipfsCid == Some(c)
  {
    var left := RowsWithoutProfile(rows, gone, id);
    if a :| a in rows.attachments && rows.attachments[a].ipfsCid == Some(c) {
      assert a !in left.attachments by {
        assert forall b :: b in left.attachments ==> left.attachments[b].ipfsCid != Some(c);
      }
      assert rows.attachments[a].owner == id || (rows.attachments[a].post.Some? && rows.attachments[a].post.value in gone);
    } else {
      var p :| p in rows.posts && rows.posts[p].ipfsCid == Some(c);
      assert p !in left.posts by {
        assert forall q :: q in left.posts ==> left.posts[q].ipfsCid != Some(c);
      }
    }
  }

  /** Every file of an unattached upload is collected for another reason or still in use. */
  predicate UploadFilesCovered(rows: PostRows, profiles: ProfileTable, emojis: EmojiTable, gone: set<PostId>, id: ProfileId) {
    forall a :: a in UnattachedUploads(rows.attachments, id) ==>
      || rows.attachments[a].fileName in ImagesOf(profiles, id) + FilesOfPosts(rows.attachments, gone)
      || rows.attachments[a].fileName in ReferencedFiles(RowsWithoutProfile(rows, gone, id).attachments, profiles - {id}, emojis)
  }

  predicate UploadObjectsCovered(rows: PostRows, gone: set<PostId>, id: ProfileId) {
    forall a :: a in UnattachedUploads(rows.attachments, id) && rows.attachments[a].ipfsCid.Some? ==>
      var left := RowsWithoutProfile(rows, gone, id);
      || rows.attachments[a].ipfsCid.value in ObjectsOfPosts(rows.attachments, rows.posts, gone)
      || rows.attachments[a].ipfsCid.value in ReferencedObjects(left.attachments, left.posts)
  }

  /** `delete_profile` returns only files that no row refers to any more, and returns all of
      them exactly when the profile's unattached uploads leave nothing behind. */
  lemma ProfileFilesExact(rows: PostRows, profiles: ProfileTable, emojis: EmojiTable, gone: set<PostId>, id: ProfileId)
    requires AttachmentsOk(rows.attachments, rows.posts, profiles) && AuthoredBy(rows.posts, id) <= gone
    ensures var queue := ProfileQueue(rows, profiles, emojis, gone, id);
            var lost := LostWithProfile(rows, profiles, emojis, gone, id);
            queue.files <= lost.files
            && (queue.files == lost.files <==> UploadFilesCovered(rows, profiles, emojis, gone, id))
  {
    var queue := ProfileQueue(rows, profiles, emojis, gone, id);
    var lost := LostWithProfile(rows, profiles, emojis, gone, id);
    if UploadFilesCovered(rows, profiles, emojis, gone, id) {
      forall f | f in lost.files ensures f in queue.files {
        LostFileOrigin(rows, profiles, emojis, gone, id, f);
      }
    } else {
      var a :| a in UnattachedUploads(rows.attachments, id)
               && rows.attachments[a].fileName !in ImagesOf(profiles, id) + FilesOfPosts(rows.attachments, gone)
               && rows.attachments[a].fileName !in ReferencedFiles(RowsWithoutProfile(rows, gone, id).attachments, profiles - {id}, emojis);
      assert rows.attachments[a].fileName in AttachedFiles(rows.attachments);
      assert rows.attachments[a].fileName in lost.files;
    }
  }

  lemma ProfileObjectsExact(rows: PostRows, profiles: ProfileTable, emojis: EmojiTable, gone: set<PostId>, id: ProfileId)
    requires AttachmentsOk(rows.attachments, rows.posts, profiles) && AuthoredBy(rows.posts, id) <= gone
    ensures var queue := ProfileQueue(rows, profiles, emojis, gone, id);
            var lost := LostWithProfile(rows, profiles, emojis, gone, id);
            queue.ipfsObjects <= lost.ipfsObjects
            && (queue.ipfsObjects == lost.ipfsObjects <==> UploadObjectsCovered(rows, gone, id))
  {
    var queue := ProfileQueue(rows, profiles, emojis, gone, id);
    var lost := LostWithProfile(rows, profiles, emojis, gone, id);
    if UploadObjectsCovered(rows, gone, id) {
      forall c | c in lost.ipfsObjects ensures c in queue.ipfsObjects {
        LostObjectOrigin(rows, profiles, emojis, gone, id, c);
      }
    } else {
      var left := RowsWithoutProfile(rows, gone, id);
      var a :| a in UnattachedUploads(rows.attachments, id) && rows.attachments[a].ipfsCid.Some?
               && rows.attachments[a].ipfsCid.value !in ObjectsOfPosts(rows.attachments, rows.posts, gone)
               && rows.attachments[a].ipfsCid.value !in ReferencedObjects(left.attachments, left.posts);
      assert rows.attachments[a].ipfsCid.value in ReferencedObjects(rows.attachments, rows.posts);
      assert rows.attachments[a].ipfsCid.value in lost.ipfsObjects;
    }
  }

  // What the cascade means for everyone else

  /** Besides the posts `gone` with whatever refers to them, exactly the reactions, mentions and
      uploads of the profile are deleted. */
  ghost predicate OnlyProfileGone(before: PostRows, after: PostRows, gone: set<PostId>, id: ProfileId) {
    && (forall p {:trigger p in after.posts} :: p in after.posts <==> p in before.posts && p !in gone)
    && (forall p {:trigger after.posts[p]} :: p in after.posts ==> after.posts[p] == before.posts[p])
    && (forall r {:trigger r in after.reactions} :: r in after.reactions <==> r in before.reactions && r.post !in gone && r.author != id)
    && (forall r {:trigger r in after.likeIds} :: r in after.likeIds <==> r in before.likeIds && r.post !in gone && r.author != id)
    && (forall r {:trigger after.likeIds[r]} :: r in after.likeIds ==> after.likeIds[r] == before.likeIds[r])
    && (forall m {:trigger m in after.mentions} :: m in after.mentions <==> m in before.mentions && m.post !in gone && m.profile != id)
    && (forall g {:trigger g in after.tags} :: g in after.tags <==> g in before.tags && g.post !in gone)
    && (forall l {:trigger l in after.links} :: l in after.links <==> l in before.links && l.source !in gone && l.target !in gone)
    && (forall e {:trigger e in after.postEmojis} :: e in after.postEmojis <==> e in before.postEmojis && e.post !in gone)
    && (forall a {:trigger a in after.attachments} :: a in after.attachments <==>
          && a in before.attachments && before.attachments[a].owner != id
          && (before.attachments[a].post == None || before.attachments[a].post.value !in gone))
    && (forall a {:trigger after.attachments[a]} :: a in after.attachments ==> after.attachments[a] == before.attachments[a])
  }

  /** Exactly what has the profile on one side is deleted. */
  ghost predicate OnlyItsRelations(before: Social, after: Social, id: ProfileId) {
    && (forall r {:trigger r in after.relationships} :: r in after.relationships <==> r in before.relationships && r.source != id && r.target != id)
    && (forall i {:trigger i in after.requests} :: i in after.requests <==> i in before.requests && before.requests[i].source != id && before.requests[i].target != id)
    && (forall i {:trigger after.requests[i]} :: i in after.requests ==> after.requests[i] == before.requests[i])
  }

  ghost predicate OnlyItsEmojis(before: EmojiRows, after: EmojiRows, id: ProfileId) {
    && after.emojis == before.emojis
    && (forall e {:trigger e in after.profileEmojis} :: e in after.profileEmojis <==> e in before.profileEmojis && e.profile != id)
    && (forall p {:trigger p in after.cache} :: p in after.cache <==> p in before.cache && p != id)
    && (forall p {:trigger after.cache[p]} :: p in after.cache ==> after.cache[p] == before.cache[p])
  }

  lemma CascadeIsPointwise(rows: PostRows, social: Social, social': Social, emoji: EmojiRows, gone: set<PostId>, id: ProfileId)
    requires social'.relationships == RelationshipsWithout(social.relationships, id)
    requires social'.requests == RequestsWithout(social.requests, id)
    ensures OnlyProfileGone(rows, RowsWithoutProfile(rows, gone, id), gone, id)
    ensures OnlyItsRelations(social, social', id) && OnlyItsEmojis(emoji, EmojisWithout(emoji, id), id)
  {
  }
}
