/** Whole runs: any sequence of operations, successful or not, from the empty database. */
module Service {
  import opened Collections
  import opened PostGraph
  import opened Schema
  import opened Cleanup
  import opened Posting
  import opened ProfileDeletion
  import opened Profiles
  import opened EmojiCache
  import opened Relationships
  import opened Attachments
  import opened Database
  import Handlers
  import Extraneous

  datatype ProfileOperation =
    | CreateProfile(profile: ProfileId, row: Profile, emojis: seq<EmojiId>)
    | UpdateProfile(profile: ProfileId, actorId: Option<string>, avatar: Option<string>, banner: Option<string>, emojis: seq<EmojiId>)
    | DeleteProfile(profile: ProfileId)
    | CreateEmoji(emoji: EmojiId, emojiRow: Emoji)
    | UpdateEmoji(emoji: EmojiId, fileName: string, updatedAt: int)
    | DeleteEmoji(emoji: EmojiId)

  datatype PostOperation =
    | CreatePost(post: PostId, author: ProfileId, data: PostCreateData)
    | UpdatePost(post: PostId, content: string, isSensitive: bool, related: Related)
    | DeletePost(post: PostId)
    | CreateReaction(reaction: Reaction, activity: Option<string>)
    | DeleteReaction(reaction: Reaction)
    | CreateAttachment(attachment: AttachmentId, owner: ProfileId, fileName: string, now: int)
    | SetPostIpfsCid(post: PostId, cid: string, cids: ObjectIds)
    | DeleteUnusedAttachments(before: int)
    | DeleteExtraneous(before: int)

  datatype SocialOperation =
    | FollowOrRequest(source: ProfileId, target: ProfileId)
    | Unfollow(source: ProfileId, target: ProfileId)
    | ReceiveFollow(source: ProfileId, target: ProfileId, activityId: string)
    | ReceiveAccept(actor: ProfileId, request: RequestId)
    | ReceiveReject(actor: ProfileId, request: RequestId)
    | ReceiveMove(source: ProfileId, target: ProfileId)
    | MoveFollowers(user: ProfileId, from: Option<ProfileId>, followers: seq<ProfileId>)
    | Subscribe(source: ProfileId, target: ProfileId)
    | SubscribeOpt(source: ProfileId, target: ProfileId)
    | Unsubscribe(source: ProfileId, target: ProfileId)
    | ResetSubscriptions
    | SetPreference(source: ProfileId, target: ProfileId, kind: RelationshipType, on: bool)

  datatype Operation =
    | OnProfiles(profileOp: ProfileOperation)
    | OnPosts(postOp: PostOperation)
    | OnSocial(socialOp: SocialOperation)
    | ReceiveUndo(actor: ProfileId, activityId: string)

  /** The tables as a value. */
  datatype Tables = Tables(rows: PostRows, counters: PostCounters, profiles: ProfileTable, social: Social, emoji: EmojiRows)

  predicate IsEmpty(s: Tables) {
    && s.rows == PostRows(map[], {}, map[], {}, {}, {}, {}, map[]) && s.profiles == map[]
    && s.social == Social({}, map[], map[], map[], map[]) && s.emoji == EmojiRows(map[], {}, map[])
  }

  function TablesOf(store: Database): Tables
    reads store
  {
    Tables(store.rows, store.counters, store.profiles, store.social, store.emoji)
  }

  /** Every invariant of the database. */
  ghost predicate TablesOk(s: Tables) {
    && (exists depth :: PostRowsOk(s.rows, depth, s.profiles, s.emoji.emojis))
    && PostCountersOk(s.rows, s.counters, s.profiles) && SocialOk(s.social, s.profiles)
    && EmojisOk(s.emoji, s.profiles) && AllHomesConsistent(s.profiles)
  }

  lemma PostCountersFollow(rows: PostRows, a: PostCounters, b: PostCounters, profiles: ProfileTable)
    requires PostCountersOk(rows, a, profiles) && PostCountersOk(rows, b, profiles)
    ensures a == b
  {
    forall p | p in rows.posts
      ensures a.replies[p] == b.replies[p] && a.reposts[p] == b.reposts[p] && a.reactions[p] == b.reactions[p]
    {
      assert a.replies[p] == |Replies(rows.posts, p)| && a.reposts[p] == |Reposts(rows.posts, p)|;
      assert a.reactions[p] == |ReactionsTo(rows.reactions, p)|;
    }
    forall p | p in profiles ensures a.authored[p] == b.authored[p] {
      assert a.authored[p] == |AuthoredBy(rows.posts, p)|;
    }
    assert a.replies == b.replies && a.reposts == b.reposts && a.reactions == b.reactions && a.authored == b.authored;
  }

  lemma SocialCountersFollow(a: Social, b: Social, profiles: ProfileTable)
    requires SocialOk(a, profiles) && SocialOk(b, profiles)
    requires a.relationships == b.relationships && a.requests == b.requests
    ensures a == b
  {
    forall p | p in profiles
      ensures a.followers[p] == b.followers[p] && a.following[p] == b.following[p] && a.subscribers[p] == b.subscribers[p]
    {
      assert a.followers[p] == |Incoming(a.relationships, p, Follow)| && a.following[p] == |Outgoing(a.relationships, p, Follow)|;
      assert a.subscribers[p] == |Incoming(a.relationships, p, Subscription)|;
    }
    assert a.followers == b.followers && a.following == b.following && a.subscribers == b.subscribers;
  }

  /** In valid tables all seven counters are determined by the rows, so what an operation does
      to the rows says what it does to the counters. */
  lemma CountersFollow(a: Tables, b: Tables)
    requires TablesOk(a) && TablesOk(b) && a.rows == b.rows && a.profiles == b.profiles
    requires a.social.relationships == b.social.relationships && a.social.requests == b.social.requests
    ensures a.counters == b.counters && a.social == b.social
  {
    PostCountersFollow(a.rows, a.counters, b.counters, a.profiles);
    SocialCountersFollow(a.social, b.social, a.profiles);
  }

  // What each operation does to the tables, and when it succeeds

  predicate EmojisBecome(before: EmojiRows, after: EmojiRows, emojis: EmojiTable, profileEmojis: set<ProfileEmoji>) {
    after.emojis == emojis && after.profileEmojis == profileEmojis
  }

  ghost predicate ProfileStep(op: ProfileOperation, s: Tables, s': Tables, ok: bool) {
    match op
    case CreateProfile(p, row, emojis) =>
      && ok == CanInsert(s.profiles, s.emoji.emojis, p, row, emojis)
      && (ok ==> s'.rows == s.rows && s'.profiles == s.profiles[p := row] && s'.social == SocialWithProfile(s.social, p)
                 && EmojisBecome(s.emoji, s'.emoji, s.emoji.emojis, Using(s.emoji.profileEmojis, p, emojis)))
    case UpdateProfile(p, actorId, avatar, banner, emojis) =>
      && ok == CanChange(s.profiles, s.emoji.emojis, p, actorId, avatar, banner, emojis)
      && (ok ==> s'.rows == s.rows && s'.profiles == ChangedIn(s.profiles, p, actorId, avatar, banner) && s'.social == s.social
                 && EmojisBecome(s.emoji, s'.emoji, s.emoji.emojis, Using(s.emoji.profileEmojis, p, emojis)))
    case DeleteProfile(p) =>
      && ok == (p in s.profiles)
      && (ok ==> s'.rows == RowsWithoutProfile(s.rows, Closure(s.rows.posts, AuthoredBy(s.rows.posts, p)), p)
                 && s'.profiles == s.profiles - {p} && s'.emoji == EmojisWithout(s.emoji, p)
                 && s'.social.relationships == RelationshipsWithout(s.social.relationships, p)
                 && s'.social.requests == RequestsWithout(s.social.requests, p))
    case CreateEmoji(e, row) =>
      && ok == InsertEmoji(s.emoji.emojis, e, row).Success?
      && (ok ==> s' == s.(emoji := s.emoji.(emojis := s.emoji.emojis[e := row])))
    case UpdateEmoji(e, fileName, updatedAt) =>
      && ok == (e in s.emoji.emojis)
      && (ok ==> s' == s.(emoji := s'.emoji)
                 && EmojisBecome(s.emoji, s'.emoji,
                                 s.emoji.emojis[e := s.emoji.emojis[e].(fileName := fileName, updatedAt := updatedAt)],
                                 s.emoji.profileEmojis))
    case DeleteEmoji(e) =>
      && ok == (e in s.emoji.emojis)
      && (ok ==> s' == s.(emoji := s'.emoji, rows := s.rows.(postEmojis := (set x | x in s.rows.postEmojis && x.emoji != e)))
                 && EmojisBecome(s.emoji, s'.emoji, s.emoji.emojis - {e}, (set x | x in s.emoji.profileEmojis && x.emoji != e)))
  }

  /** On the rows: the counters follow from them. */
  ghost predicate PostStep(op: PostOperation, s: Tables, rows: PostRows, ok: bool) {
    match op
    case CreatePost(p, author, data) =>
      && ok == CanCreate(s.rows, s.counters, s.profiles, s.emoji.emojis, p, author, data)
      && (ok ==> rows == RowsWith(s.rows, p, author, data))
    case UpdatePost(p, content, isSensitive, related) =>
      && ok == CanUpdate(s.rows, s.profiles, s.emoji.emojis, p, content, isSensitive, related)
      && (ok ==> rows == WithRelated(Edited(s.rows, p, content, isSensitive), p, related))
    case DeletePost(p) =>
      ok == (p in s.rows.posts) && (ok ==> rows == RowsWithout(s.rows, Closure(s.rows.posts, {p})))
    case CreateReaction(reaction, activity) =>
      && ok == (&& Original(s.rows.posts, reaction.post) && reaction.author in s.profiles && reaction !in s.rows.reactions
                && (forall l :: l in s.rows.likeIds ==> activity != Some(s.rows.likeIds[l])) && |ReactionsTo(s.rows.reactions, reaction.post)| < 0x7FFF_FFFF)
      && (ok ==> rows == WithReaction(s.rows, reaction, activity))
    case DeleteReaction(reaction) =>
      ok == (reaction in s.rows.reactions) && (ok ==> rows == WithoutReaction(s.rows, reaction))
    case CreateAttachment(a, owner, fileName, now) =>
      && ok == (a !in s.rows.attachments && owner in s.profiles)
      && (ok ==> rows == s.rows.(attachments := s.rows.attachments[a := Attachment(owner, fileName, None, None, now)]))
    case SetPostIpfsCid(p, cid, cids) =>
      && ok == (Original(s.rows.posts, p) && s.rows.posts[p].ipfsCid.None? && CanSetIds(s.rows.attachments, cids))
      && (ok ==> IdsStored(s.rows, rows, p, cid, cids))
    case DeleteUnusedAttachments(before) =>
      ok && rows == s.rows.(attachments := WithoutUnused(s.rows.attachments, before))
    case DeleteExtraneous(before) =>
      ok && rows == RowsWithout(s.rows, Extraneous.BelowAny(s.rows.posts, Extraneous.ExtraneousPosts(s.rows, s.profiles, before)))
  }

  predicate IsUser(profiles: ProfileTable, p: ProfileId) {
    p in profiles && profiles[p].IsLocal()
  }

  predicate IsRemote(profiles: ProfileTable, p: ProfileId) {
    p in profiles && !profiles[p].IsLocal()
  }

  /** The followers of `from` can be moved to `user`. */
  predicate CanMoveFollowers(profiles: ProfileTable, user: ProfileId, from: Option<ProfileId>, followers: seq<ProfileId>) {
    && IsUser(profiles, user) && (from.Some? ==> IsRemote(profiles, from.value))
    && (forall p :: p in followers ==> p in profiles)
  }

  /** On follows, follow requests and subscriptions. */
  ghost predicate SocialStep(op: SocialOperation, profiles: ProfileTable, social: Social, social': Social, ok: bool) {
    match op
    case FollowOrRequest(s, t) =>
      && ok == (IsUser(profiles, s) && t in profiles
                && (profiles[t].IsLocal() ==> FollowRow(s, t) in social.relationships || CanAdd(social, profiles, FollowRow(s, t))))
      && (if IsUser(profiles, s) then exists id :: id !in social.requests && social' == Handlers.FollowedOrAsked(social, profiles, id, s, t)
          else social' == social)
    case Unfollow(s, t) => ok && social' == Unfollowed(social, s, t)
    case ReceiveFollow(s, t, activityId) =>
      && ok == (&& IsRemote(profiles, s) && IsUser(profiles, t) && NobodyElsesId(social.requests, s, t, activityId)
                && (FollowRow(s, t) in social.relationships || RoomFor(social, FollowRow(s, t))))
      && (ok || social' != social ==> Handlers.FollowReceived(social, social', s, t, activityId))
    case ReceiveAccept(actor, i) =>
      && ok == (&& i in social.requests && social.requests[i].target == actor
                && (social.requests[i].status.Accepted? || CanAdd(social, profiles, FollowRow(social.requests[i].source, actor))))
      && social' == if ok && !social.requests[i].status.Accepted? then AcceptedRequest(social, i) else social
    case ReceiveReject(actor, i) =>
      && ok == (i in social.requests && social.requests[i].target == actor)
      && social' == if ok then social.(requests := social.requests[i := social.requests[i].(status := Rejected)]) else social
    case ReceiveMove(s, t) =>
      && Handlers.SameOtherFollows(social, social', s, t)
      && (ok ==> t in profiles
                 && (forall p :: FollowRow(p, s) in social.relationships && p != t ==> Handlers.FollowsOrAsks(social', profiles, p, t))
                 && (Handlers.LeavesOld(profiles, s, t) ==> forall p :: FollowRow(p, s) !in social'.relationships))
      && (s in profiles && t in profiles && (forall p :: FollowRow(p, s) in social.relationships ==> IsUser(profiles, p)) && IsRemote(profiles, t) ==> ok)
    case MoveFollowers(user, from, followers) =>
      && (ok ==> CanMoveFollowers(profiles, user, from, followers))
      && (if from.None? then social' == social
          else Handlers.SameOtherFollows(social, social', from.value, user)
               && (ok ==> Handlers.HaveMoved(profiles, social.relationships, social'.relationships, followers, from.value, user)))
    case Subscribe(s, t) =>
      && ok == CanAdd(social, profiles, Relationship(s, t, Subscription))
      && social' == if ok then With(social, Relationship(s, t, Subscription)) else social
    case SubscribeOpt(s, t) =>
      && ok == (Relationship(s, t, Subscription) in social.relationships || CanAdd(social, profiles, Relationship(s, t, Subscription)))
      && social' == if CanAdd(social, profiles, Relationship(s, t, Subscription)) then With(social, Relationship(s, t, Subscription)) else social
    case Unsubscribe(s, t) =>
      && ok == (Relationship(s, t, Subscription) in social.relationships)
      && social' == Without(social, Relationship(s, t, Subscription))
    case ResetSubscriptions => ok && social' == WithoutSubscriptions(social)
    case SetPreference(s, t, kind, on) =>
      && ok == (IsPreference(kind) && (on ==> s in profiles && t in profiles && s != t))
      && social' == if !ok then social
                    else social.(relationships := if on then social.relationships + {Relationship(s, t, kind)}
                                                  else social.relationships - {Relationship(s, t, kind)})
  }

  ghost predicate UndoStep(actor: ProfileId, activityId: string, s: Tables, s': Tables, ok: bool) {
    if ok then
      exists undone ::
        && Handlers.RowsUndone(s.rows, s'.rows, actor, activityId, undone)
        && Handlers.FollowUndone(s.social, s'.social, actor, activityId, undone)
    else s' == s
  }

  /** One operation takes the tables from `s` to `s'`; a failed transaction changes nothing. */
  ghost predicate Step(op: Operation, s: Tables, s': Tables, ok: bool) {
    match op
    case OnProfiles(profileOp) => ProfileStep(profileOp, s, s', ok) && (!ok ==> s' == s)
    case OnPosts(postOp) =>
      PostStep(postOp, s, s'.rows, ok) && (if ok then s' == s.(rows := s'.rows, counters := s'.counters) else s' == s)
    case OnSocial(socialOp) => s' == s.(social := s'.social) && SocialStep(socialOp, s.profiles, s.social, s'.social, ok)
    case ReceiveUndo(actor, activityId) =>
      s' == s.(rows := s'.rows, counters := s'.counters, social := s'.social) && UndoStep(actor, activityId, s, s', ok)
  }

  method PerformOnProfiles(store: Database, op: ProfileOperation) returns (ok: bool)
    requires store.Valid()
    modifies store
    ensures store.Valid()
    ensures Step(OnProfiles(op), old(TablesOf(store)), TablesOf(store), ok)
  {
    match op
    case CreateProfile(p, row, emojis) => var r := store.CreateProfile(p, row, emojis); ok := r.Success?;
    case UpdateProfile(p, actorId, avatar, banner, emojis) =>
      var r := store.UpdateProfile(p, actorId, avatar, banner, emojis); ok := r.Success?;
    case DeleteProfile(p) => var r := store.DeleteProfile(p); ok := r.Success?;
    case CreateEmoji(e, row) => var r := store.CreateEmoji(e, row); ok := r.Success?;
    case UpdateEmoji(e, fileName, updatedAt) => var r := store.UpdateEmoji(e, fileName, updatedAt); ok := r.Success?;
    case DeleteEmoji(e) => var r := store.DeleteEmoji(e); ok := r.Success?;
  }

  /** Operations on posts and reactions. */
  method PerformOnPosts(store: Database, op: PostOperation) returns (ok: bool)
    requires store.RowsValid() && store.CountersValid()
    requires op.CreatePost? || op.UpdatePost? || op.DeletePost? || op.CreateReaction? || op.DeleteReaction?
    modifies store`rows, store`counters, store`depth
    ensures store.RowsValid() && store.CountersValid()
    ensures PostStep(op, old(TablesOf(store)), store.rows, ok)
    ensures !ok ==> store.rows == old(store.rows) && store.counters == old(store.counters)
  {
    match op
    case CreatePost(p, author, data) => var r := store.CreatePost(p, author, data); ok := r.Success?;
    case UpdatePost(p, content, isSensitive, related) =>
      var r := store.UpdatePost(p, content, isSensitive, related); ok := r.Success?;
    case DeletePost(p) => var r := store.DeletePost(p); ok := r.Success?;
    case CreateReaction(reaction, activity) => var r := store.CreateReaction(reaction, activity); ok := r.Success?;
    case DeleteReaction(reaction) => var r := store.DeleteReaction(reaction); ok := r.Success?;
  }

  /** Operations on uploads, and the clean-up commands. */
  method PerformOnUploads(store: Database, op: PostOperation) returns (ok: bool)
    requires store.RowsValid() && store.CountersValid()
    requires op.CreateAttachment? || op.SetPostIpfsCid? || op.DeleteUnusedAttachments? || op.DeleteExtraneous?
    modifies store`rows, store`counters
    ensures store.RowsValid() && store.CountersValid()
    ensures PostStep(op, old(TablesOf(store)), store.rows, ok)
    ensures !ok ==> store.rows == old(store.rows) && store.counters == old(store.counters)
  {
    match op
    case CreateAttachment(a, owner, fileName, now) => var r := store.CreateAttachment(a, owner, fileName, now); ok := r.Success?;
    case SetPostIpfsCid(p, cid, cids) => var r := store.SetPostIpfsCid(p, cid, cids); ok := r.Success?;
    case DeleteUnusedAttachments(before) => var _ := store.DeleteUnusedAttachments(before); ok := true;
    case DeleteExtraneous(before) => ok := Extraneous.DeleteExtraneousPosts(store, before);
  }

  /** Operations by which follows come and go. */
  method PerformFollow(store: Database, op: SocialOperation) returns (ok: bool)
    requires store.SocialValid()
    requires op.FollowOrRequest? || op.Unfollow? || op.ReceiveFollow? || op.ReceiveAccept? || op.ReceiveReject?
    modifies store`social
    ensures store.SocialValid()
    ensures SocialStep(op, store.profiles, old(store.social), store.social, ok)
  {
    match op
    case FollowOrRequest(s, t) =>
      ok := false;
      if IsUser(store.profiles, s) {
        var id := Handlers.FreshRequestId(store.social.requests);
        var r := Handlers.FollowOrCreateRequest(store, id, s, t);
        ok := r.Success?;
      }
    case Unfollow(s, t) => Handlers.HandleUndoFollow(store, s, t); ok := true;
    case ReceiveFollow(s, t, activityId) => var r := Handlers.HandleFollow(store, s, t, activityId); ok := r.Success?;
    case ReceiveAccept(actor, request) => var r := Handlers.HandleAccept(store, actor, request); ok := r.Success?;
    case ReceiveReject(actor, request) => var r := Handlers.HandleReject(store, actor, request); ok := r.Success?;
  }

  method PerformMove(store: Database, op: SocialOperation) returns (ok: bool)
    requires store.SocialValid() && (op.ReceiveMove? || op.MoveFollowers?)
    modifies store`social
    ensures store.SocialValid()
    ensures SocialStep(op, store.profiles, old(store.social), store.social, ok)
  {
    ok := false;
    match op
    case ReceiveMove(s, t) =>
      if s in store.profiles && t in store.profiles {
        var outcome := Handlers.HandleMove(store, s, t);
        ok := outcome.Moved?;
      }
    case MoveFollowers(user, from, followers) =>
      if CanMoveFollowers(store.profiles, user, from, followers) {
        var outcome, _ := Handlers.MoveFollowersTask(store, user, from, followers);
        ok := outcome.Moved?;
      }
  }

  method PerformOnSubscriptions(store: Database, op: SocialOperation) returns (ok: bool)
    requires store.SocialValid()
    requires op.Subscribe? || op.SubscribeOpt? || op.Unsubscribe? || op.ResetSubscriptions? || op.SetPreference?
    modifies store`social
    ensures store.SocialValid()
    ensures SocialStep(op, store.profiles, old(store.social), store.social, ok)
  {
    match op
    case Subscribe(s, t) => var r := store.Subscribe(s, t); ok := r.Success?;
    case SubscribeOpt(s, t) => var r := store.SubscribeOpt(s, t); ok := r.Success?;
    case Unsubscribe(s, t) => var r := store.Unsubscribe(s, t); ok := r.Success?;
    case ResetSubscriptions => store.ResetSubscriptions(); ok := true;
    case SetPreference(s, t, kind, on) =>
      ok := false;
      if IsPreference(kind) {
        var r := store.SetPreference(s, t, kind, on);
        ok := r.Success?;
      }
  }

  method PerformUndo(store: Database, actor: ProfileId, activityId: string) returns (ok: bool)
    requires store.Valid()
    modifies store`rows, store`counters, store`social
    ensures store.Valid()
    ensures Step(ReceiveUndo(actor, activityId), old(TablesOf(store)), TablesOf(store), ok)
  {
    var r, _ := Handlers.HandleUndo(store, actor, activityId);
    ok := r.Success?;
    if ok {
      assert Handlers.RowsUndone(old(store.rows), store.rows, actor, activityId, r.value);
    }
  }

  lemma PostStepIsStep(op: PostOperation, s: Tables, s': Tables, ok: bool)
    requires PostStep(op, s, s'.rows, ok) && s' == s.(rows := s'.rows, counters := s'.counters)
    requires !ok ==> s'.rows == s.rows && s'.counters == s.counters
    ensures Step(OnPosts(op), s, s', ok)
  {
  }

  lemma SocialStepIsStep(op: SocialOperation, s: Tables, s': Tables, ok: bool)
    requires SocialStep(op, s.profiles, s.social, s'.social, ok) && s' == s.(social := s'.social)
    ensures Step(OnSocial(op), s, s', ok)
  {
  }

  method PerformOnRows(store: Database, op: PostOperation) returns (ok: bool)
    requires store.Valid()
    modifies store`rows, store`counters, store`depth
    ensures store.Valid()
    ensures Step(OnPosts(op), old(TablesOf(store)), TablesOf(store), ok)
  {
    ghost var before := TablesOf(store);
    if op.CreateAttachment? || op.SetPostIpfsCid? || op.DeleteUnusedAttachments? || op.DeleteExtraneous? {
      ok := PerformOnUploads(store, op);
    } else {
      ok := PerformOnPosts(store, op);
    }
    PostStepIsStep(op, before, TablesOf(store), ok);
  }

  method PerformOnSocial(store: Database, op: SocialOperation) returns (ok: bool)
    requires store.Valid()
    modifies store`social
    ensures store.Valid()
    ensures Step(OnSocial(op), old(TablesOf(store)), TablesOf(store), ok)
  {
    ghost var before := TablesOf(store);
    if op.FollowOrRequest? || op.Unfollow? || op.ReceiveFollow? || op.ReceiveAccept? || op.ReceiveReject? {
      ok := PerformFollow(store, op);
    } else if op.ReceiveMove? || op.MoveFollowers? {
      ok := PerformMove(store, op);
    } else {
      ok := PerformOnSubscriptions(store, op);
    }
    SocialStepIsStep(op, before, TablesOf(store), ok);
  }

  method Perform(store: Database, op: Operation) returns (ok: bool)
    requires store.Valid()
    modifies store
    ensures store.Valid()
    ensures Step(op, old(TablesOf(store)), TablesOf(store), ok)
  {
    match op
    case OnProfiles(profileOp) => ok := PerformOnProfiles(store, profileOp);
    case OnPosts(postOp) => ok := PerformOnRows(store, postOp);
    case OnSocial(socialOp) => ok := PerformOnSocial(store, socialOp);
    case ReceiveUndo(actor, activityId) => ok := PerformUndo(store, actor, activityId);
  }

  ghost predicate StepAt(ops: seq<Operation>, oks: seq<bool>, states: seq<Tables>, i: nat)
    requires i < |ops| == |oks| && |states| == |ops| + 1
  {
    Step(ops[i], states[i], states[i + 1], oks[i])
  }

  /** Performing `ops` one after another, with the results `oks`, passes through `states`. */
  ghost predicate IsRun(ops: seq<Operation>, oks: seq<bool>, states: seq<Tables>) {
    && |ops| == |oks| && |states| == |ops| + 1 && IsEmpty(states[0])
    && (forall i {:trigger StepAt(ops, oks, states, i)} :: 0 <= i < |ops| ==> StepAt(ops, oks, states, i))
  }

  ghost predicate AllOk(states: seq<Tables>) {
    forall i {:trigger TablesOk(states[i])} :: 0 <= i < |states| ==> TablesOk(states[i])
  }

  /** A run through valid states that has come to `last`. */
  ghost predicate ValidRun(ops: seq<Operation>, oks: seq<bool>, states: seq<Tables>, last: Tables) {
    IsRun(ops, oks, states) && AllOk(states) && states[|ops|] == last
  }

  lemma ValidTables(store: Database)
    requires store.Valid()
    ensures TablesOk(TablesOf(store))
  {
  }

  lemma RunGoesOn(ops: seq<Operation>, oks: seq<bool>, states: seq<Tables>, last: Tables, op: Operation, ok: bool, s: Tables)
    requires ValidRun(ops, oks, states, last) && Step(op, last, s, ok) && TablesOk(s)
    ensures ValidRun(ops + [op], oks + [ok], states + [s], s)
  {
    var ops', oks', states' := ops + [op], oks + [ok], states + [s];
    forall i | 0 <= i < |ops'| ensures StepAt(ops', oks', states', i) {
      if i < |ops| {
        assert StepAt(ops, oks, states, i);
        assert states'[i] == states[i] && states'[i + 1] == states[i + 1] && ops'[i] == ops[i] && oks'[i] == oks[i];
      } else {
        assert states'[i] == states[|ops|] && states'[i + 1] == s && ops'[i] == op && oks'[i] == ok;
      }
    }
    forall i | 0 <= i < |states'| ensures TablesOk(states'[i]) {
      assert i < |states| ==> TablesOk(states[i]);
    }
  }

  lemma NothingDone(s: Tables)
    requires IsEmpty(s) && TablesOk(s)
    ensures ValidRun([], [], [s], s)
  {
  }

  method EmptyStore() returns (store: Database)
    ensures fresh(store) && store.Valid() && ValidRun([], [], [TablesOf(store)], TablesOf(store))
  {
    store := new Database();
    ValidTables(store);
    NothingDone(TablesOf(store));
  }

  method PerformNext(store: Database, ghost ops: seq<Operation>, ghost oks: seq<bool>, ghost states: seq<Tables>, op: Operation)
    returns (ok: bool)
    requires store.Valid() && ValidRun(ops, oks, states, TablesOf(store))
    modifies store
    ensures store.Valid() && ValidRun(ops + [op], oks + [ok], states + [TablesOf(store)], TablesOf(store))
  {
    ghost var last := TablesOf(store);
    ok := Perform(store, op);
    ValidTables(store);
    RunGoesOn(ops, oks, states, last, op, ok, TablesOf(store));
  }

  /** Any sequence of operations is performed step by step as stated above, and every state
      passed through is valid. */
  method Run(ops: seq<Operation>) returns (store: Database, oks: seq<bool>, ghost states: seq<Tables>)
    ensures store.Valid() && ValidRun(ops, oks, states, TablesOf(store))
  {
    store := EmptyStore();
    oks, states := [], [TablesOf(store)];
    for i := 0 to |ops|
      invariant store.Valid() && fresh(store) && ValidRun(ops[..i], oks, states, TablesOf(store))
    {
      var ok := PerformNext(store, ops[..i], oks, states, ops[i]);
      assert ops[..i + 1] == ops[..i] + [ops[i]];
      oks, states := oks + [ok], states + [TablesOf(store)];
    }
    assert ops[..|ops|] == ops;
  }

  // What an edit and the deletion of a profile mean for everyone else

  /** An edit changes the post as given, and nothing of any other post. */
  lemma EditMeans(s: Tables, s': Tables, id: PostId, content: string, isSensitive: bool, related: Related, ok: bool)
    requires Step(OnPosts(UpdatePost(id, content, isSensitive, related)), s, s', ok)
    ensures ok ==> PostEdited(s.rows, s'.rows, id, content, isSensitive, related) && s'.profiles == s.profiles && s'.social == s.social
    ensures !ok ==> s' == s
  {
    if ok {
      EditedAsGiven(s.rows, s.profiles, s.emoji.emojis, id, content, isSensitive, related);
    }
  }

  /** Besides the profile's own posts with everything below them, exactly what is the profile's
      or has the profile on one side is deleted. */
  lemma DeletionMeans(s: Tables, s': Tables, p: ProfileId, ok: bool)
    requires Step(OnProfiles(DeleteProfile(p)), s, s', ok)
    ensures ok <==> p in s.profiles
    ensures ok ==>
              && OnlyProfileGone(s.rows, s'.rows, Closure(s.rows.posts, AuthoredBy(s.rows.posts, p)), p)
              && OnlyItsRelations(s.social, s'.social, p) && OnlyItsEmojis(s.emoji, s'.emoji, p)
              && (forall q :: q in s'.profiles <==> q in s.profiles && q != p)
              && (forall q :: q in s'.profiles ==> s'.profiles[q] == s.profiles[q])
  {
    if ok {
      var gone := Closure(s.rows.posts, AuthoredBy(s.rows.posts, p));
      CascadeIsPointwise(s.rows, s.social, s'.social, s.emoji, gone, p);
    }
  }

  // A run that leaves a file behind

  /** A profile is created, uploads a file and is deleted before it makes a post of it. All three
      operations succeed. The file was in use before the last of them and is not afterwards, but
      is not among the files that it returns for removal. */
  lemma UploadIsAbandoned(s0: Tables, s1: Tables, s2: Tables, s3: Tables, p: ProfileId, row: Profile, a: AttachmentId, fileName: string,
                          now: int, created: bool, uploaded: bool, deleted: bool)
    requires IsEmpty(s0) && HomeConsistent(row) && row.avatar.None? && row.banner.None?
    requires Step(OnProfiles(CreateProfile(p, row, [])), s0, s1, created)
    requires Step(OnPosts(CreateAttachment(a, p, fileName, now)), s1, s2, uploaded)
    requires Step(OnProfiles(DeleteProfile(p)), s2, s3, deleted)
    ensures created && uploaded && deleted
    ensures fileName in ReferencedFiles(s2.rows.attachments, s2.profiles, s2.emoji.emojis)
    ensures fileName !in ReferencedFiles(s3.rows.attachments, s3.profiles, s3.emoji.emojis)
    ensures var gone := Closure(s2.rows.posts, AuthoredBy(s2.rows.posts, p));
            fileName !in ProfileQueue(s2.rows, s2.profiles, s2.emoji.emojis, gone, p).files
  {
    ProfileCreated(s0, s1, p, row, created);
    UploadThenDelete(s1, s2, s3, p, a, fileName, now, uploaded, deleted);
  }

  lemma UploadThenDelete(s: Tables, between: Tables, s': Tables, p: ProfileId, a: AttachmentId, fileName: string, now: int,
                         uploaded: bool, deleted: bool)
    requires p in s.profiles && s.rows.attachments == map[]
    requires fileName !in ReferencedFiles(s.rows.attachments, s.profiles, s.emoji.emojis)
    requires Step(OnPosts(CreateAttachment(a, p, fileName, now)), s, between, uploaded)
    requires Step(OnProfiles(DeleteProfile(p)), between, s', deleted)
    ensures uploaded && deleted
    ensures fileName in ReferencedFiles(between.rows.attachments, between.profiles, between.emoji.emojis)
    ensures fileName !in ReferencedFiles(s'.rows.attachments, s'.profiles, s'.emoji.emojis)
    ensures var gone := Closure(between.rows.posts, AuthoredBy(between.rows.posts, p));
            fileName !in ProfileQueue(between.rows, between.profiles, between.emoji.emojis, gone, p).files
  {
    AttachmentCreated(s, between, p, a, fileName, now, uploaded);
    ProfileDeleted(between, s', p, deleted);
    UploadLeftBehind(s.rows, s.profiles, s.emoji.emojis, a, p, fileName, now);
  }

  lemma AttachmentCreated(s: Tables, s': Tables, p: ProfileId, a: AttachmentId, fileName: string, now: int, ok: bool)
    requires p in s.profiles && a !in s.rows.attachments && Step(OnPosts(CreateAttachment(a, p, fileName, now)), s, s', ok)
    ensures ok && InsertAttachment(s.rows.attachments, s.profiles, a, p, fileName, now).Success?
    ensures s'.rows == s.rows.(attachments := InsertAttachment(s.rows.attachments, s.profiles, a, p, fileName, now).value)
    ensures s'.profiles == s.profiles && s'.emoji == s.emoji
  {
  }

  lemma ProfileDeleted(s: Tables, s': Tables, p: ProfileId, ok: bool)
    requires p in s.profiles && Step(OnProfiles(DeleteProfile(p)), s, s', ok)
    ensures var gone := Closure(s.rows.posts, AuthoredBy(s.rows.posts, p));
            && ok && ReferencedFiles(s'.rows.attachments, s'.profiles, s'.emoji.emojis)
                     == ReferencedFiles(s.rows.attachments, s.profiles, s.emoji.emojis)
                        - LostWithProfile(s.rows, s.profiles, s.emoji.emojis, gone, p).files
  {
  }

  lemma ProfileCreated(s: Tables, s': Tables, p: ProfileId, row: Profile, ok: bool)
    requires IsEmpty(s) && Step(OnProfiles(CreateProfile(p, row, [])), s, s', ok)
    requires HomeConsistent(row) && row.avatar.None? && row.banner.None?
    ensures ok && s'.rows == s.rows && s'.profiles == map[p := row] && s'.emoji.emojis == map[]
    ensures ReferencedFiles(s'.rows.attachments, s'.profiles, s'.emoji.emojis) == {}
  {
  }
}
