/** The database: every method is one transaction of the query modules. Errors return before
    the assignment that commits, so they roll back. */
module Database {
  import opened Collections
  import opened PostGraph
  import opened Schema
  import opened Counters
  import opened Cleanup
  import opened Posting
  import opened ProfileDeletion
  import opened Profiles
  import opened EmojiCache
  import opened Relationships
  import opened Attachments

  class Database {
    var rows: PostRows
    var counters: PostCounters
    var profiles: ProfileTable
    var social: Social
    var emoji: EmojiRows
    ghost var depth: map<PostId, nat> // witnesses that replies and reposts form a forest

    /** Every post row is consistent with the rows it references. */
    ghost predicate RowsValid()
      reads this`rows, this`depth, this`profiles, this`emoji
    {
      PostRowsOk(rows, depth, profiles, emoji.emojis)
    }

    /** Every counter of the post graph equals the number of rows it summarises. */
    ghost predicate CountersValid()
      reads this`rows, this`counters, this`profiles
    {
      PostCountersOk(rows, counters, profiles)
    }

    ghost predicate SocialValid()
      reads this`social, this`profiles
    {
      SocialOk(social, profiles)
    }

    /** Rows and counters of the social tables, whatever the order of the calls was. */
    ghost predicate SocialTablesValid()
      reads this`social, this`profiles
    {
      SocialTablesOk(social, profiles)
    }

    ghost predicate EmojisValid()
      reads this`emoji, this`profiles
    {
      EmojisOk(emoji, profiles) && AllHomesConsistent(profiles)
    }

    ghost predicate Valid()
      reads this
    {
      RowsValid() && CountersValid() && SocialValid() && EmojisValid()
    }

    constructor ()
      ensures Valid()
      ensures rows == PostRows(map[], {}, map[], {}, {}, {}, {}, map[]) && profiles == map[]
      ensures social == Social({}, map[], map[], map[], map[]) && emoji == EmojiRows(map[], {}, map[])
    {
      rows, depth := PostRows(map[], {}, map[], {}, {}, {}, {}, map[]), map[];
      counters := PostCounters(map[], map[], map[], map[]);
      profiles := map[];
      social := Social({}, map[], map[], map[], map[]);
      emoji := EmojiRows(map[], {}, map[]);
    }

    /** `delete_post` */
    method DeletePost(id: PostId) returns (r: Result<DeletionQueue>)
      requires RowsValid() && CountersValid()
      modifies this`rows, this`counters
      ensures RowsValid() && CountersValid()
      ensures r.Success? <==> id in old(rows).posts
      ensures r.Failure? ==> unchanged(this)
      ensures r.Success? ==> rows == RowsWithout(old(rows), Closure(old(rows).posts, {id}))
      ensures r.Failure? ==> r.error == NotFound("post")
      ensures r.Success? ==> OnlyGone(old(rows), rows, Closure(old(rows).posts, {id}))
      ensures r.Success? ==> r.value == DeletionQueue(
                ReferencedFiles(old(rows).attachments, profiles, emoji.emojis)
                - ReferencedFiles(rows.attachments, profiles, emoji.emojis),
                ReferencedObjects(old(rows).attachments, old(rows).posts)
                - ReferencedObjects(rows.attachments, rows.posts))
    {
      var done :- DeletePostRows(rows, counters, depth, profiles, id);
      var gone := done.0;
      ClosureIsLeast(rows.posts, {id});
      RowsAfterRemoval(rows, depth, profiles, emoji.emojis, gone);
      QueueIsWhatWasLost(rows, profiles, emoji.emojis, gone);
      RemovalIsPointwise(rows, gone);
      r := Success(DeletionQueueOf(rows, profiles, emoji.emojis, gone));
      rows, counters := RowsWithout(rows, gone), done.1;
    }

    /** `create_post`. `id` is the identifier the transaction generates. */
    method CreatePost(id: PostId, author: ProfileId, data: PostCreateData) returns (r: Result<PostId>)
      requires RowsValid() && CountersValid()
      modifies this`rows, this`counters, this`depth
      ensures RowsValid() && CountersValid()
      ensures r.Success? <==> CanCreate(old(rows), old(counters), profiles, emoji.emojis, id, author, data)
      ensures r.Failure? ==> unchanged(this)
      ensures r.Success? ==> rows == RowsWith(old(rows), id, author, data)
      ensures r.Success? ==> r.value == id
      ensures r.Success? ==> PostCreated(old(rows), rows, id, author, data)
    {
      var tx :- CreatePostRows(rows, counters, profiles, emoji.emojis, id, author, data);
      CreatedIsValid(rows, counters, depth, profiles, emoji.emojis, id, author, data);
      CreatedAsGiven(rows, counters, depth, profiles, emoji.emojis, id, author, data);
      rows, counters, depth := tx.0, tx.1, depth[id := DepthBelow(depth, NewRow(author, data))];
      r := Success(id);
    }

    /** `update_post` */
    method UpdatePost(id: PostId, content: string, isSensitive: bool, related: Related) returns (r: Result<()>)
      requires RowsValid() && CountersValid()
      modifies this`rows
      ensures RowsValid() && CountersValid()
      ensures r.Success? <==> CanUpdate(old(rows), profiles, emoji.emojis, id, content, isSensitive, related)
      ensures r.Failure? ==> unchanged(this)
      ensures r.Success? ==> rows == WithRelated(Edited(old(rows), id, content, isSensitive), id, related)
    {
      var tx :- UpdatePostRows(rows, profiles, emoji.emojis, id, content, isSensitive, related);
      UpdatedIsValid(rows, counters, depth, profiles, emoji.emojis, id, content, isSensitive, related);
      rows := tx;
      r := Success(());
    }

    /** `create_reaction` */
    method CreateReaction(reaction: Reaction, activityId: Option<string>) returns (r: Result<()>)
      requires RowsValid() && CountersValid()
      modifies this`rows, this`counters
      ensures RowsValid() && CountersValid()
      ensures r.Success? <==>
                && Original(old(rows).posts, reaction.post) && reaction.author in profiles && reaction !in old(rows).reactions
                && (forall l :: l in old(rows).likeIds ==> activityId != Some(old(rows).likeIds[l]))
                && |ReactionsTo(old(rows).reactions, reaction.post)| < 0x7FFF_FFFF
      ensures r.Failure? ==> unchanged(this)
      ensures r.Success? ==> rows == WithReaction(old(rows), reaction, activityId)
      ensures r == Failure(AlreadyExists("reaction")) <==>
                && !(reaction.post in old(rows).posts && old(rows).posts[reaction.post].repostOf != None)
                && (reaction in old(rows).reactions || exists l :: l in old(rows).likeIds && activityId == Some(old(rows).likeIds[l]))
      ensures r.Success? ==> ReactionAdded(old(rows), rows, reaction, activityId)
    {
      ReactionsAsGiven(rows, reaction, activityId);
      assert reaction.post in counters.reactions ==>
               counters.reactions[reaction.post] == |ReactionsTo(rows.reactions, reaction.post)|;
      var tx :- CreateReactionRow(rows, counters, profiles, reaction, activityId);
      ReactedIsValid(rows, counters, depth, profiles, emoji.emojis, reaction, activityId);
      rows, counters := tx.0, tx.1;
      r := Success(());
    }

    /** `delete_reaction` */
    method DeleteReaction(reaction: Reaction) returns (r: Result<()>)
      requires RowsValid() && CountersValid()
      modifies this`rows, this`counters
      ensures RowsValid() && CountersValid()
      ensures r.Success? <==> reaction in old(rows).reactions
      ensures r.Failure? ==> unchanged(this)
      ensures r.Success? ==> rows == WithoutReaction(old(rows), reaction)
      ensures r.Failure? ==> r.error == NotFound("reaction")
      ensures r.Success? ==> ReactionRemoved(old(rows), rows, reaction)
    {
      ReactionsAsGiven(rows, reaction, None);
      var tx :- DeleteReactionRow(rows, counters, depth, profiles, emoji.emojis, reaction);
      rows, counters := tx.0, tx.1;
      r := Success(());
    }

    /** `create_attachment`. `id` is the identifier it generates. */
    method CreateAttachment(id: AttachmentId, owner: ProfileId, fileName: string, now: int) returns (r: Result<AttachmentId>)
      requires RowsValid() && CountersValid()
      modifies this`rows
      ensures RowsValid() && CountersValid()
      ensures r.Success? <==> id !in old(rows).attachments && owner in profiles
      ensures r.Success? ==> r.value == id
      ensures r.Failure? ==> unchanged(this)
      ensures r.Success? ==>
                rows == old(rows).(attachments := old(rows).attachments[id := Attachment(owner, fileName, None, None, now)])
    {
      var attachments :- InsertAttachment(rows.attachments, profiles, id, owner, fileName, now);
      rows := rows.(attachments := attachments);
      r := Success(id);
    }

    /** `set_post_ipfs_cid` */
    method SetPostIpfsCid(id: PostId, cid: string, cids: ObjectIds) returns (r: Result<()>)
      requires RowsValid() && CountersValid()
      modifies this`rows
      ensures RowsValid() && CountersValid()
      ensures r.Success? <==>
                && Original(old(rows).posts, id) && old(rows).posts[id].ipfsCid.None?
                && CanSetIds(old(rows).attachments, cids)
      ensures r.Failure? ==> unchanged(this)
      ensures r.Success? ==> IdsStored(old(rows), rows, id, cid, cids)
    {
      var rows' :- SetPostIds(rows, id, cid, cids);
      StoredIdsAreValid(rows, rows', counters, depth, profiles, emoji.emojis, id, cid, cids);
      rows := rows';
      r := Success(());
    }

    /** `delete_unused_attachments` */
    method DeleteUnusedAttachments(before: int) returns (queue: DeletionQueue)
      requires RowsValid() && CountersValid()
      modifies this`rows
      ensures RowsValid() && CountersValid()
      ensures rows == old(rows).(attachments := WithoutUnused(old(rows).attachments, before))
      ensures forall a :: a in rows.attachments <==>
                a in old(rows).attachments && !(old(rows).attachments[a].post == None && old(rows).attachments[a].createdAt < before)
      ensures forall a :: a in rows.attachments ==> rows.attachments[a] == old(rows).attachments[a]
      ensures queue == DeletionQueue(
                ReferencedFiles(old(rows).attachments, profiles, emoji.emojis)
                - ReferencedFiles(rows.attachments, profiles, emoji.emojis),
                ReferencedObjects(old(rows).attachments, old(rows).posts)
                - ReferencedObjects(rows.attachments, rows.posts))
    {
      UnusedQueueIsWhatWasLost(rows, profiles, emoji.emojis, before);
      queue := UnusedQueue(rows, profiles, emoji.emojis, before);
      rows := rows.(attachments := WithoutUnused(rows.attachments, before));
    }

    /** `delete_profile` */
    method DeleteProfile(id: ProfileId) returns (r: Result<DeletionQueue>)
      requires Valid()
      modifies this`rows, this`counters, this`profiles, this`social, this`emoji
      ensures Valid()
      ensures r.Success? <==> id in old(profiles)
      ensures r.Failure? ==> unchanged(this) && r.error == NotFound("profile")
      ensures r.Success? ==>
                var gone := Closure(old(rows).posts, AuthoredBy(old(rows).posts, id));
                && rows == RowsWithoutProfile(old(rows), gone, id)
                && profiles == old(profiles) - {id}
                && social.relationships == RelationshipsWithout(old(social).relationships, id)
                && social.requests == RequestsWithout(old(social).requests, id)
                && emoji == EmojisWithout(old(emoji), id)
                && r.value == ProfileQueue(old(rows), old(profiles), emoji.emojis, gone, id)
    {
      var author :- DeleteAuthor(rows, counters, depth, profiles, emoji.emojis, id);
      var gone := author.0;
      var social' :- DeleteRelationships(social, profiles, id);
      if id !in profiles {
        return Failure(NotFound("profile"));
      }
      assert AllHomesConsistent(profiles - {id});
      ClosureIsLeast(rows.posts, AuthoredBy(rows.posts, id));
      RowsAfterProfileRemoval(rows, depth, profiles, emoji.emojis, gone, id);
      CachesWithout(emoji, profiles, id);
      r := Success(ProfileQueue(rows, profiles, emoji.emojis, gone, id));
      rows, counters, profiles := RowsWithoutProfile(rows, gone, id), author.1, profiles - {id};
      social, emoji := social', EmojisWithout(emoji, id);
    }

    /** `create_profile`. `id` is the identifier the transaction generates. */
    method CreateProfile(id: ProfileId, profile: Profile, emojiIds: seq<EmojiId>) returns (r: Result<ProfileId>)
      requires Valid()
      modifies this`counters, this`profiles, this`social, this`emoji
      ensures Valid()
      ensures r.Success? <==> CanInsert(old(profiles), old(emoji).emojis, id, profile, emojiIds)
      ensures r.Failure? ==> unchanged(this)
      ensures r.Success? ==> r.value == id && profiles == old(profiles)[id := profile]
      ensures r.Success? ==> social == SocialWithProfile(old(social), id)
      ensures r.Success? ==>
                emoji.emojis == old(emoji).emojis && emoji.profileEmojis == Using(old(emoji).profileEmojis, id, emojiIds)
      ensures r.Success? ==> UsesExactly(old(emoji).profileEmojis, emoji.profileEmojis, id, emojiIds)
      ensures r.Success? ==> social.relationships == old(social).relationships && social.requests == old(social).requests
    {
      var tx :- CreateProfileRow(profiles, emoji, id, profile, emojiIds);
      UsingIsExact(emoji.profileEmojis, id, emojiIds);
      TablesWithProfile(rows, counters, depth, emoji.emojis, social, profiles, id, profile);
      counters, social := counters.(authored := counters.authored[id := 0]), SocialWithProfile(social, id);
      profiles, emoji := tx.0, tx.1;
      r := Success(id);
    }

    /** `update_profile` */
    method UpdateProfile(id: ProfileId, actorId: Option<string>, avatar: Option<string>, banner: Option<string>, emojiIds: seq<EmojiId>)
      returns (r: Result<()>)
      requires Valid()
      modifies this`profiles, this`emoji
      ensures Valid()
      ensures r.Success? <==> CanChange(old(profiles), old(emoji).emojis, id, actorId, avatar, banner, emojiIds)
      ensures r.Failure? ==> unchanged(this)
      ensures r.Success? ==> profiles == ChangedIn(old(profiles), id, actorId, avatar, banner)
      ensures r.Success? ==>
                emoji.emojis == old(emoji).emojis && emoji.profileEmojis == Using(old(emoji).profileEmojis, id, emojiIds)
      ensures r.Success? ==>
                && ProfileChanged(old(profiles), profiles, id, actorId, avatar, banner)
                && UsesExactly(old(emoji).profileEmojis, emoji.profileEmojis, id, emojiIds)
    {
      var tx :- UpdateProfileRow(profiles, emoji, id, actorId, avatar, banner, emojiIds);
      UsingIsExact(emoji.profileEmojis, id, emojiIds);
      ChangedAsGiven(profiles, id, actorId, avatar, banner);
      TablesKeepHomes(rows, counters, depth, emoji.emojis, social, profiles, tx.0);
      profiles, emoji := tx.0, tx.1;
      r := Success(());
    }

    /** `create_emoji`. `id` is the identifier it generates. */
    method CreateEmoji(id: EmojiId, row: Emoji) returns (r: Result<EmojiId>)
      requires RowsValid() && EmojisValid()
      modifies this`emoji
      ensures RowsValid() && EmojisValid()
      ensures r.Success? <==>
                && (row.hostname == None <==> row.objectId == None) && id !in old(emoji).emojis
                && (forall e :: e in old(emoji).emojis ==>
                      && !(row.hostname != None && old(emoji).emojis[e].name == row.name && old(emoji).emojis[e].hostname == row.hostname)
                      && !(row.objectId != None && old(emoji).emojis[e].objectId == row.objectId))
      ensures r.Failure? ==> unchanged(this)
      ensures r.Success? ==> r.value == id && emoji == old(emoji).(emojis := old(emoji).emojis[id := row])
    {
      var emojis' :- InsertEmoji(emoji.emojis, id, row);
      NewEmojiKeepsCaches(emoji, profiles, id, row);
      RowsWithMoreEmojis(rows, depth, profiles, emoji.emojis, emojis');
      emoji := emoji.(emojis := emojis');
      r := Success(id);
    }

    /** `update_emoji` */
    method UpdateEmoji(id: EmojiId, fileName: string, updatedAt: int) returns (r: Result<()>)
      requires RowsValid() && EmojisValid()
      modifies this`emoji
      ensures RowsValid() && EmojisValid()
      ensures r.Success? <==> id in old(emoji).emojis
      ensures r.Failure? ==> unchanged(this)
      ensures r.Success? ==>
                && emoji.emojis == old(emoji).emojis[id := old(emoji).emojis[id].(fileName := fileName, updatedAt := updatedAt)]
                && emoji.profileEmojis == old(emoji).profileEmojis
    {
      var emoji' :- UpdateEmojiRow(emoji, profiles, id, fileName, updatedAt);
      RowsWithMoreEmojis(rows, depth, profiles, emoji.emojis, emoji'.emojis);
      emoji := emoji';
      r := Success(());
    }

    /** `delete_emoji` */
    method DeleteEmoji(id: EmojiId) returns (r: Result<DeletionQueue>)
      requires RowsValid() && CountersValid() && EmojisValid()
      modifies this`emoji, this`rows
      ensures RowsValid() && CountersValid() && EmojisValid()
      ensures r.Success? <==> id in old(emoji).emojis
      ensures r.Failure? ==> unchanged(this)
      ensures r.Success? ==>
                && emoji.emojis == old(emoji).emojis - {id}
                && emoji.profileEmojis == (set e | e in old(emoji).profileEmojis && e.emoji != id)
                && rows == old(rows).(postEmojis := (set e | e in old(rows).postEmojis && e.emoji != id))
      ensures r.Success? ==> r.value == DeletionQueue(
                ReferencedFiles(rows.attachments, profiles, old(emoji).emojis)
                - ReferencedFiles(rows.attachments, profiles, emoji.emojis), {})
    {
      var emoji' :- DeleteEmojiRow(emoji, profiles, id);
      RowsWithoutEmoji(rows, depth, profiles, emoji.emojis, id);
      EmojiFileLost(rows.attachments, profiles, emoji.emojis, id);
      r := Success(DeletionQueue(OrphanedFiles(rows.attachments, profiles, emoji'.emojis, {emoji.emojis[id].fileName}), {}));
      rows := rows.(postEmojis := (set e | e in rows.postEmojis && e.emoji != id));
      emoji := emoji';
    }

    /** `follow` */
    method Follow(source: ProfileId, target: ProfileId) returns (r: Result<()>)
      requires SocialTablesValid()
      modifies this`social
      ensures SocialTablesValid()
      ensures r.Success? <==> CanAdd(old(social), profiles, FollowRow(source, target))
      ensures r.Failure? ==> unchanged(this)
      ensures r.Success? ==> social == With(old(social), FollowRow(source, target))
      ensures r == Failure(AlreadyExists("relationship")) <==> FollowRow(source, target) in old(social).relationships
    {
      var tx := FollowRows(social, profiles, source, target);
      if tx.Failure? {
        return Failure(tx.error);
      }
      AddKeepsCounters(social, profiles, FollowRow(source, target));
      social := tx.value;
      r := Success(());
    }

    /** `unfollow`; returns the id of the deleted follow request, if there was one. */
    method Unfollow(source: ProfileId, target: ProfileId) returns (r: Result<Option<RequestId>>)
      requires SocialTablesValid()
      modifies this`social
      ensures SocialTablesValid()
      ensures r.Success? <==> FollowRow(source, target) in old(social).relationships
                              || Requested(old(social).requests, source, target)
      ensures r.Failure? ==> unchanged(this) && r.error == NotFound("relationship")
      ensures r.Success? ==> social == Unfollowed(old(social), source, target)
      ensures r.Success? ==> OnlyUnfollowed(old(social), social, source, target)
      ensures r.Success? ==> (r.value.Some? <==> Requested(old(social).requests, source, target))
      ensures r.Success? && r.value.Some? ==>
                var i := r.value.value;
                i in old(social).requests && old(social).requests[i].source == source && old(social).requests[i].target == target
    {
      var tx := UnfollowRows(social, profiles, source, target);
      if tx.Failure? {
        return Failure(tx.error);
      }
      UnfollowedKeepsCounters(social, profiles, source, target);
      UnfollowedAsAsked(social, source, target);
      social := tx.value.0;
      r := Success(tx.value.1);
    }

    /** `create_follow_request`. `id` is the identifier it generates. */
    method CreateFollowRequest(id: RequestId, source: ProfileId, target: ProfileId) returns (r: Result<RequestId>)
      requires SocialTablesValid()
      modifies this`social
      ensures SocialTablesValid()
      ensures var inserted := InsertRequest(old(social).requests, profiles, id, FollowRequest(source, target, None, Pending));
              if inserted.Success? then r == Success(id) && social == old(social).(requests := inserted.value)
              else r == Failure(inserted.error) && unchanged(this)
      ensures r.Success? <==>
                && id !in old(social).requests && NeverAsked(old(social).requests, source, target, None)
                && source in profiles && target in profiles && source != target
      ensures r.Success? ==> social.requests == old(social).requests[id := FollowRequest(source, target, None, Pending)]
    {
      InsertRequestCondition(social.requests, profiles, id, FollowRequest(source, target, None, Pending));
      var requests :- InsertRequest(social.requests, profiles, id, FollowRequest(source, target, None, Pending));
      RequestsStayApart(social.requests, None, id, FollowRequest(source, target, None, Pending));
      social := social.(requests := requests);
      r := Success(id);
    }

    /** `follow_request_accepted`: the status change and the Follow row commit together. */
    method FollowRequestAccepted(id: RequestId) returns (r: Result<()>)
      requires SocialTablesValid()
      modifies this`social
      ensures SocialTablesValid()
      ensures r.Success? <==>
                && id in old(social).requests
                && CanAdd(old(social), profiles,
                          FollowRow(old(social).requests[id].source, old(social).requests[id].target))
      ensures r.Failure? ==> unchanged(this)
      ensures r.Success? ==>
                social == AcceptedRequest(old(social), id)
      ensures r == Failure(AlreadyExists("relationship")) <==>
                && id in old(social).requests
                && FollowRow(old(social).requests[id].source, old(social).requests[id].target)
                   in old(social).relationships
    {
      if id !in social.requests {
        return Failure(NotFound("follow request"));
      }
      var request := social.requests[id].(status := Accepted);
      var tx := FollowRows(social.(requests := social.requests[id := request]), profiles, request.source, request.target);
      if tx.Failure? {
        return Failure(tx.error);
      }
      SameKeysNoCollision(social.requests, id, request);
      RequestsStayApart(social.requests, Some(id), id, request);
      AddKeepsCounters(social.(requests := social.requests[id := request]), profiles,
                       FollowRow(request.source, request.target));
      social := tx.value;
      r := Success(());
    }

    /** `follow_request_rejected`: an accepted follow keeps its Follow row. */
    method FollowRequestRejected(id: RequestId) returns (r: Result<()>)
      requires SocialTablesValid()
      modifies this`social
      ensures SocialTablesValid()
      ensures r.Success? <==> id in old(social).requests
      ensures r.Failure? ==> unchanged(this) && r.error == NotFound("follow request")
      ensures r.Success? ==>
                social == old(social).(requests := old(social).requests[id := old(social).requests[id].(status := Rejected)])
    {
      if id !in social.requests {
        return Failure(NotFound("follow request"));
      }
      var request := social.requests[id].(status := Rejected);
      SameKeysNoCollision(social.requests, id, request);
      RequestsStayApart(social.requests, Some(id), id, request);
      social := social.(requests := social.requests[id := request]);
      r := Success(());
    }

    /** `create_remote_follow_request_opt`. `id` is the identifier it generates. */
    method CreateRemoteFollowRequestOpt(id: RequestId, source: ProfileId, target: ProfileId, activityId: string)
      returns (r: Result<RequestId>)
      requires SocialTablesValid()
      modifies this`social
      ensures SocialTablesValid()
      ensures r.Failure? ==> unchanged(this)
      ensures r.Success? <==>
                && source in profiles && target in profiles && source != target
                && NobodyElsesId(old(social).requests, source, target, activityId)
                && (Requested(old(social).requests, source, target) || id !in old(social).requests)
      ensures r.Success? ==>
                var i := r.value;
                if Requested(old(social).requests, source, target) then
                  && i in old(social).requests
                  && old(social).requests[i].source == source && old(social).requests[i].target == target
                  && var request := old(social).requests[i].(activityId := Some(activityId));
                  && !RequestCollides(old(social).requests, Some(i), request)
                  && social == old(social).(requests := old(social).requests[i := request])
                else
                  && i == id && id !in old(social).requests
                  && NeverAsked(old(social).requests, source, target, Some(activityId))
                  && social == old(social).(requests := old(social).requests[id := FollowRequest(source, target, Some(activityId), Pending)])
    {
      var tx :- UpsertRequest(social.requests, profiles, id, source, target, activityId);
      if Requested(social.requests, source, target) {
        RequestsStayApart(social.requests, Some(tx.0), tx.0, tx.1[tx.0]);
      } else {
        RequestsStayApart(social.requests, None, id, FollowRequest(source, target, Some(activityId), Pending));
        InsertRequestCondition(social.requests, profiles, id, FollowRequest(source, target, Some(activityId), Pending));
      }
      social := social.(requests := tx.1);
      r := Success(tx.0);
    }

    /** `subscribe` */
    method Subscribe(source: ProfileId, target: ProfileId) returns (r: Result<()>)
      requires SocialValid()
      modifies this`social
      ensures SocialValid()
      ensures r.Success? <==> CanAdd(old(social), profiles, Relationship(source, target, Subscription))
      ensures r.Failure? ==> unchanged(this)
      ensures r.Success? ==> social == With(old(social), Relationship(source, target, Subscription))
    {
      var social' :- SubscribeRows(social, profiles, source, target);
      AddKeepsCounters(social, profiles, Relationship(source, target, Subscription));
      LocalFollowLives(social, profiles, Relationship(source, target, Subscription));
      social := social';
      r := Success(());
    }

    /** `subscribe_opt`: does nothing when the subscription is already there. */
    method SubscribeOpt(source: ProfileId, target: ProfileId) returns (r: Result<()>)
      requires SocialValid()
      modifies this`social
      ensures SocialValid()
      ensures r.Success? <==> Relationship(source, target, Subscription) in old(social).relationships
                              || CanAdd(old(social), profiles, Relationship(source, target, Subscription))
      ensures social == if CanAdd(old(social), profiles, Relationship(source, target, Subscription))
                        then With(old(social), Relationship(source, target, Subscription)) else old(social)
    {
      if Relationship(source, target, Subscription) in social.relationships {
        return Success(());
      }
      r := Subscribe(source, target);
    }

    /** `unsubscribe` */
    method Unsubscribe(source: ProfileId, target: ProfileId) returns (r: Result<()>)
      requires SocialValid()
      modifies this`social
      ensures SocialValid()
      ensures r.Success? <==> Relationship(source, target, Subscription) in old(social).relationships
      ensures r.Failure? ==> unchanged(this)
      ensures r.Success? ==> social == Without(old(social), Relationship(source, target, Subscription))
    {
      var social' :- UnsubscribeRows(social, profiles, source, target);
      RemoveKeepsCounters(social, profiles, Relationship(source, target, Subscription));
      OtherKindsKeepLifecycle(social, profiles, social');
      social := social';
      r := Success(());
    }

    /** `reset_subscriptions` */
    method ResetSubscriptions()
      requires SocialValid()
      modifies this`social
      ensures SocialValid()
      ensures social == WithoutSubscriptions(old(social))
      ensures forall r :: r in social.relationships <==> r in old(social).relationships && r.kind != Subscription
      ensures forall p :: p in social.subscribers ==> social.subscribers[p] == 0
    {
      ResetKeepsCounters(social, profiles);
      OtherKindsKeepLifecycle(social, profiles, WithoutSubscriptions(social));
      social := WithoutSubscriptions(social);
    }

    /** `hide_reposts`, `hide_replies`, `mute_posts` (on) and `show_reposts`, `show_replies`,
        `unmute_posts` (off). */
    method SetPreference(source: ProfileId, target: ProfileId, kind: RelationshipType, on: bool) returns (r: Result<()>)
      requires kind == HideReposts || kind == HideReplies || kind == Mute
      requires SocialValid()
      modifies this`social
      ensures SocialValid()
      ensures r.Success? <==> on ==> source in profiles && target in profiles && source != target
      ensures r.Failure? ==> unchanged(this)
      ensures r.Success? ==> social == old(social).(relationships :=
                if on then old(social).relationships + {Relationship(source, target, kind)}
                else old(social).relationships - {Relationship(source, target, kind)})
    {
      var row := Relationship(source, target, kind);
      if on && row !in social.relationships && (source !in profiles || target !in profiles || source == target) {
        return Failure(ConstraintViolation("relationship"));
      }
      var relationships := if on then social.relationships + {row} else social.relationships - {row};
      PreferenceKeepsSocial(social, profiles, relationships);
      social := social.(relationships := relationships);
      r := Success(());
    }
  }
}
