/** Federation and API handlers that drive the follow lifecycle. A handler makes several
    separate transactions; each leaves the database valid. */
module Handlers {
  import opened Collections
  import opened PostGraph
  import opened Schema
  import opened Cleanup
  import opened Posting
  import opened Relationships
  import opened Database

  /** A stored request stays when another is added under a fresh id. */
  lemma RequestAdded(requests: RequestTable, id: RequestId, request: FollowRequest)
    requires id !in requests
    ensures Requested(requests[id := request], request.source, request.target)
    ensures forall s, t :: Requested(requests, s, t) ==> Requested(requests[id := request], s, t)
  {
    assert requests[id := request][id] == request;
    forall s, t | Requested(requests, s, t) ensures Requested(requests[id := request], s, t) {
      var i :| i in requests && requests[i].source == s && requests[i].target == t;
      assert requests[id := request][i] == requests[i];
    }
  }

  /** The social tables once `user` follows `target`, or has asked to. */
  function FollowedOrAsked(social: Social, profiles: ProfileTable, id: RequestId, user: ProfileId, target: ProfileId): Social {
    if target !in profiles then social
    else if profiles[target].IsLocal() then
      if CanAdd(social, profiles, FollowRow(user, target)) then With(social, FollowRow(user, target)) else social
    else if Requested(social.requests, user, target) then social
    else social.(requests := social.requests[id := FollowRequest(user, target, None, Pending)])
  }

  /** `follow_or_create_request` for a local user. An existing follow or request is fine. */
  method FollowOrCreateRequest(store: Database, requestId: RequestId, user: ProfileId, target: ProfileId) returns (r: Result<()>)
    requires store.SocialValid()
    requires user in store.profiles && store.profiles[user].IsLocal() // `User` is the type of local accounts
    requires requestId !in store.social.requests                      // freshly generated
    modifies store`social
    ensures store.SocialValid()
    ensures store.social == FollowedOrAsked(old(store.social), store.profiles, requestId, user, target)
    ensures store.social.relationships >= old(store.social).relationships
    ensures forall s, t :: Requested(old(store.social).requests, s, t) ==> Requested(store.social.requests, s, t)
    ensures forall f :: f in store.social.relationships ==>
              || f in old(store.social).relationships
              || (f == FollowRow(user, target) && target in store.profiles && store.profiles[target].IsLocal())
    ensures r.Success? ==>
              && target in store.profiles
              && (if store.profiles[target].IsLocal() then FollowRow(user, target) in store.social.relationships
                  else Requested(store.social.requests, user, target))
    ensures r.Success? <==>
              && target in store.profiles
              && (store.profiles[target].IsLocal() ==>
                    FollowRow(user, target) in old(store.social).relationships
                    || CanAdd(old(store.social), store.profiles, FollowRow(user, target)))
  {
    if target !in store.profiles {
      return Failure(NotFound("profile"));
    }
    if !store.profiles[target].IsLocal() {
      var social := store.social;
      var created := store.CreateFollowRequest(requestId, user, target);
      match created {
        case Success(_) =>
          NewRequestLives(social, store.profiles, requestId, FollowRequest(user, target, None, Pending));
          RequestAdded(social.requests, requestId, FollowRequest(user, target, None, Pending));
        case Failure(error) =>
          if error != AlreadyExists("follow request") {
            return Failure(error);
          }
      }
    } else {
      var social := store.social;
      var followed := store.Follow(user, target);
      if followed.Success? {
        LocalFollowLives(social, store.profiles, FollowRow(user, target));
      } else if followed.error != AlreadyExists("relationship") {
        return Failure(followed.error);
      }
    }
    r := Success(());
  }

  /** `generate_ulid`: an identifier that no request has. */
  method FreshRequestId(requests: RequestTable) returns (id: RequestId)
    ensures id !in requests
  {
    var next: nat := 0;
    var todo := requests.Keys;
    while todo != {}
      invariant todo <= requests.Keys
      invariant forall i :: i in requests && i !in todo ==> i.uuid < next
      decreases |todo|
    {
      var i :| i in todo;
      todo, next := todo - {i}, if i.uuid < next then next else i.uuid + 1;
    }
    id := RequestId(next);
  }

  /** What `unfollow` leaves of the follows and requests. */
  lemma UnfollowedRows(social: Social, source: ProfileId, target: ProfileId)
    ensures var after := Unfollowed(social, source, target);
            && (forall f: Relationship :: f.kind.Follow? ==>
                  (f in after.relationships <==> f in social.relationships && f != FollowRow(source, target)))
            && (forall s, t :: Requested(after.requests, s, t) <==>
                  Requested(social.requests, s, t) && !(s == source && t == target))
  {
    var after := Unfollowed(social, source, target);
    forall s, t | Requested(social.requests, s, t) && !(s == source && t == target) ensures Requested(after.requests, s, t) {
      var i :| i in social.requests && social.requests[i].source == s && social.requests[i].target == t;
      assert i in after.requests && after.requests[i] == social.requests[i];
    }
  }

  /** The request of the pair is stored as `i`, or only gets the new activity id. */
  predicate RequestStored(before: Social, after: Social, i: RequestId, actor: ProfileId, user: ProfileId, activityId: string) {
    if Requested(before.requests, actor, user) then
      && i in before.requests && before.requests[i].source == actor && before.requests[i].target == user
      && after == before.(requests := before.requests[i := before.requests[i].(activityId := Some(activityId))])
    else
      && i !in before.requests
      && after == before.(requests := before.requests[i := FollowRequest(actor, user, Some(activityId), Pending)])
  }

  /** The stored request is accepted, unless the Follow row is there or there is no room for it. */
  function AcceptedIfNew(social: Social, i: RequestId): Social
    requires i in social.requests
  {
    var f := FollowRow(social.requests[i].source, social.requests[i].target);
    if f in social.relationships || !RoomFor(social, f) then social else AcceptedRequest(social, i)
  }

  /** What a Follow activity leaves of the social tables, whichever id its request got. */
  ghost predicate FollowReceived(before: Social, after: Social, actor: ProfileId, user: ProfileId, activityId: string) {
    exists i, stored ::
      RequestStored(before, stored, i, actor, user, activityId) && i in stored.requests && after == AcceptedIfNew(stored, i)
  }

  /** The remote actor's request to follow the user is stored, or its activity id replaced. */
  method RequestOf(store: Database, actor: ProfileId, user: ProfileId, activityId: string) returns (r: Result<RequestId>)
    requires store.SocialValid() && actor in store.profiles && user in store.profiles
    requires !store.profiles[actor].IsLocal() && store.profiles[user].IsLocal()
    modifies store`social
    ensures store.SocialValid()
    ensures r.Success? <==> NobodyElsesId(old(store.social).requests, actor, user, activityId)
    ensures r.Success? ==>
              && RequestStored(old(store.social), store.social, r.value, actor, user, activityId)
              && r.value in store.social.requests
              && store.social.requests[r.value].source == actor && store.social.requests[r.value].target == user
    ensures r.Failure? ==> unchanged(store)
  {
    var id := FreshRequestId(store.social.requests);
    var social := store.social;
    var request :- store.CreateRemoteFollowRequestOpt(id, actor, user, activityId);
    if Requested(social.requests, actor, user) {
      ChangedRequestLives(social, store.profiles, request, social.requests[request].(activityId := Some(activityId)));
    } else {
      NewRequestLives(social, store.profiles, request, FollowRequest(actor, user, Some(activityId), Pending));
    }
    r := Success(request);
  }

  /** An existing Follow row is fine. */
  method AcceptAtOnce(store: Database, id: RequestId) returns (r: Result<()>)
    requires store.SocialValid() && id in store.social.requests
    modifies store`social
    ensures store.SocialValid()
    ensures var request := old(store.social).requests[id];
            r.Success? <==> FollowRow(request.source, request.target) in old(store.social).relationships
                            || RoomFor(old(store.social), FollowRow(request.source, request.target))
    ensures store.social == AcceptedIfNew(old(store.social), id)
  {
    var social := store.social;
    var accepted := store.FollowRequestAccepted(id);
    if accepted.Success? {
      AcceptedRequestLives(social, store.profiles, id);
    } else if accepted.error != AlreadyExists("relationship") {
      return Failure(accepted.error);
    }
    r := Success(());
  }

  lemma StoredThenAccepted(before: Social, stored: Social, i: RequestId, actor: ProfileId, user: ProfileId, activityId: string)
    requires RequestStored(before, stored, i, actor, user, activityId)
    ensures i in stored.requests && stored.requests[i].source == actor && stored.requests[i].target == user
    ensures stored.relationships == before.relationships && RoomFor(stored, FollowRow(actor, user)) == RoomFor(before, FollowRow(actor, user))
    ensures var after := AcceptedIfNew(stored, i);
            && FollowReceived(before, after, actor, user, activityId)
            && (FollowRow(actor, user) in before.relationships || RoomFor(before, FollowRow(actor, user)) ==>
                  FollowRow(actor, user) in after.relationships && Requested(after.requests, actor, user))
  {
    var after := AcceptedIfNew(stored, i);
    assert i in after.requests && after.requests[i].source == actor && after.requests[i].target == user;
  }

  method StoreAndAccept(store: Database, actor: ProfileId, user: ProfileId, activityId: string) returns (r: Result<()>)
    requires store.SocialValid() && actor in store.profiles && user in store.profiles
    requires !store.profiles[actor].IsLocal() && store.profiles[user].IsLocal()
    modifies store`social
    ensures store.SocialValid()
    ensures r.Success? ==> FollowRow(actor, user) in store.social.relationships && Requested(store.social.requests, actor, user)
    ensures r.Success? <==>
              && NobodyElsesId(old(store.social).requests, actor, user, activityId)
              && (FollowRow(actor, user) in old(store.social).relationships || RoomFor(old(store.social), FollowRow(actor, user)))
    ensures if NobodyElsesId(old(store.social).requests, actor, user, activityId)
            then FollowReceived(old(store.social), store.social, actor, user, activityId)
            else store.social == old(store.social)
  {
    var request :- RequestOf(store, actor, user, activityId);
    StoredThenAccepted(old(store.social), store.social, request, actor, user, activityId);
    r := AcceptAtOnce(store, request);
  }

  /** `handle_follow`: a remote actor follows a local user; the request is accepted at once. */
  method HandleFollow(store: Database, actor: ProfileId, user: ProfileId, activityId: string) returns (r: Result<()>)
    requires store.SocialValid()
    modifies store`social
    ensures store.SocialValid()
    ensures r.Success? ==> FollowRow(actor, user) in store.social.relationships && Requested(store.social.requests, actor, user)
    ensures store.social == old(store.social) || FollowReceived(old(store.social), store.social, actor, user, activityId)
    ensures r.Success? ==> FollowReceived(old(store.social), store.social, actor, user, activityId)
    ensures r.Success? <==>
              && actor in store.profiles && user in store.profiles
              && !store.profiles[actor].IsLocal() && store.profiles[user].IsLocal()
              && NobodyElsesId(old(store.social).requests, actor, user, activityId)
              && (FollowRow(actor, user) in old(store.social).relationships || RoomFor(old(store.social), FollowRow(actor, user)))
  {
    if actor !in store.profiles || user !in store.profiles || store.profiles[actor].IsLocal() || !store.profiles[user].IsLocal() {
      return Failure(NotFound("profile")); // LocalObject, or no such user
    }
    r := StoreAndAccept(store, actor, user, activityId);
  }

  /** `handle_accept`: the target of a follow request accepts it. */
  method HandleAccept(store: Database, actor: ProfileId, id: RequestId) returns (r: Result<()>)
    requires store.SocialValid()
    modifies store`social
    ensures store.SocialValid()
    ensures r.Success? ==>
              && id in store.social.requests && store.social.requests[id].target == actor
              && store.social.requests[id].status.Accepted?
              && FollowRow(store.social.requests[id].source, actor) in store.social.relationships
    ensures r.Success? <==>
              var requests := old(store.social).requests;
              && id in requests && requests[id].target == actor
              && (requests[id].status.Accepted? || CanAdd(old(store.social), store.profiles, FollowRow(requests[id].source, actor)))
    ensures r.Failure? ==> unchanged(store)
    ensures r.Success? ==>
              store.social == if old(store.social).requests[id].status.Accepted? then old(store.social)
                              else AcceptedRequest(old(store.social), id)
  {
    if id !in store.social.requests {
      return Failure(NotFound("follow request"));
    }
    if store.social.requests[id].target != actor {
      return Failure(ConstraintViolation("actor is not a target"));
    }
    if store.social.requests[id].status.Accepted? {
      return Success(());
    }
    var social := store.social;
    var accepted :- store.FollowRequestAccepted(id);
    AcceptedRequestLives(social, store.profiles, id);
    r := Success(());
  }

  /** `handle_reject`: the target of a follow request rejects it, even after accepting it. */
  method HandleReject(store: Database, actor: ProfileId, id: RequestId) returns (r: Result<()>)
    requires store.SocialValid()
    modifies store`social
    ensures store.SocialValid()
    ensures r.Success? <==> id in old(store.social).requests && old(store.social).requests[id].target == actor
    ensures r.Success? ==>
              store.social == old(store.social).(requests :=
                old(store.social).requests[id := old(store.social).requests[id].(status := Rejected)])
    ensures r.Failure? ==> unchanged(store)
  {
    if id !in store.social.requests {
      return Failure(NotFound("follow request"));
    }
    if store.social.requests[id].target != actor {
      return Failure(ConstraintViolation("actor is not a target"));
    }
    if store.social.requests[id].status.Rejected? {
      return Success(());
    }
    ChangedRequestLives(store.social, store.profiles, id, store.social.requests[id].(status := Rejected));
    r := store.FollowRequestRejected(id);
  }

  /** `handle_undo_follow`: a missing relationship is ignored. */
  method HandleUndoFollow(store: Database, actor: ProfileId, target: ProfileId)
    requires store.SocialValid()
    modifies store`social
    ensures store.SocialValid()
    ensures store.social == Unfollowed(old(store.social), actor, target)
    ensures FollowRow(actor, target) !in store.social.relationships && !Requested(store.social.requests, actor, target)
  {
    UnfollowedKeepsLifecycle(store.social, store.profiles, actor, target);
    UnfollowedRows(store.social, actor, target);
    if FollowRow(actor, target) !in store.social.relationships && !Requested(store.social.requests, actor, target) {
      NothingToUnfollow(store.social, actor, target);
    }
    var ignored := store.Unfollow(actor, target);
  }

  /** Deleting a repost takes no file and no IPFS object out of use. */
  lemma RepostLosesNothing(rows: PostRows, depth: map<PostId, nat>, profiles: ProfileTable, emojis: EmojiTable, p: PostId)
    requires PostRowsOk(rows, depth, profiles, emojis) && p in rows.posts && rows.posts[p].repostOf.Some?
    ensures Closure(rows.posts, {p}) == {p}
    ensures var left := RowsWithout(rows, {p});
            && ReferencedFiles(left.attachments, profiles, emojis) == ReferencedFiles(rows.attachments, profiles, emojis)
            && ReferencedObjects(left.attachments, left.posts) == ReferencedObjects(rows.attachments, rows.posts)
  {
    RepostIsLeaf(rows.posts, depth, p);
    assert !Original(rows.posts, p);
    var left := RowsWithout(rows, {p});
    assert left.attachments == rows.attachments;
    assert rows.posts[p].ipfsCid.None?;
    forall q | q in rows.posts && rows.posts[q].ipfsCid.Some? ensures q in left.posts && left.posts[q] == rows.posts[q] {
    }
  }

  datatype Undone = UndoneFollow | UndoneLike | UndoneAnnounce | NothingUndone

  /** The follow or follow request made by the activity is gone. */
  predicate UndidFollow(before: Social, after: Social, actor: ProfileId, activityId: string) {
    exists i :: i in before.requests && before.requests[i].activityId == Some(activityId) && before.requests[i].source == actor
             && after == Unfollowed(before, actor, before.requests[i].target)
  }

  /** The repost made by the activity is gone, and nothing else. */
  predicate UndidRepost(before: PostRows, after: PostRows, actor: ProfileId, activityId: string) {
    exists p :: p in before.posts && before.posts[p].objectId == Some(activityId)
             && before.posts[p].author == actor && before.posts[p].repostOf.Some?
             && after == RowsWithout(before, {p})
  }

  /** The reaction made by the activity is gone, and nothing else. */
  predicate UndidLike(before: PostRows, after: PostRows, actor: ProfileId, activityId: string) {
    exists l :: l in before.likeIds && before.likeIds[l] == activityId && l.author == actor && after == WithoutReaction(before, l)
  }

  /** The activity made a reaction of someone else, or a post that is not a repost of the actor. */
  predicate RowOfSomeoneElse(rows: PostRows, actor: ProfileId, activityId: string) {
    || (exists l :: l in rows.likeIds && rows.likeIds[l] == activityId && l.author != actor)
    || (exists p :: p in rows.posts && rows.posts[p].objectId == Some(activityId)
                 && (rows.posts[p].author != actor || rows.posts[p].repostOf.None?))
  }

  predicate RequestOfSomeoneElse(social: Social, actor: ProfileId, activityId: string) {
    exists i :: i in social.requests && social.requests[i].activityId == Some(activityId) && social.requests[i].source != actor
  }

  predicate MadeNoRow(rows: PostRows, activityId: string) {
    && (forall l :: l in rows.likeIds ==> rows.likeIds[l] != activityId)
    && (forall p :: p in rows.posts ==> rows.posts[p].objectId != Some(activityId))
  }

  /** `delete_post` of a repost: nothing else goes with it. */
  method DeleteRepost(store: Database, p: PostId) returns (dropped: DeletionQueue)
    requires store.RowsValid() && store.CountersValid()
    requires p in store.rows.posts && store.rows.posts[p].repostOf.Some?
    modifies store`rows, store`counters
    ensures store.RowsValid() && store.CountersValid()
    ensures dropped == DeletionQueue({}, {}) && store.rows == RowsWithout(old(store.rows), {p})
  {
    RepostLosesNothing(store.rows, store.depth, store.profiles, store.emoji.emojis, p);
    var deleted := store.DeletePost(p);
    dropped := deleted.value;
  }

  /** The third part of `handle_undo`: the activity may be a repost. */
  method UndoAnnounce(store: Database, actor: ProfileId, activityId: string) returns (r: Result<Undone>, dropped: DeletionQueue)
    requires store.RowsValid() && store.CountersValid()
    modifies store`rows, store`counters
    ensures store.RowsValid() && store.CountersValid()
    ensures dropped == DeletionQueue({}, {})
    ensures r.Failure? || r.value.NothingUndone? ==> unchanged(store)
    ensures r.Success? ==> r.value.NothingUndone? || r.value.UndoneAnnounce?
    ensures r.Success? && r.value.NothingUndone? ==>
              forall p :: p in store.rows.posts ==> store.rows.posts[p].objectId != Some(activityId)
    ensures r.Failure? ==> RowOfSomeoneElse(store.rows, actor, activityId)
    ensures r.Success? && r.value.UndoneAnnounce? ==> UndidRepost(old(store.rows), store.rows, actor, activityId)
  {
    dropped := DeletionQueue({}, {});
    if p :| p in store.rows.posts && store.rows.posts[p].objectId == Some(activityId) {
      if store.rows.posts[p].author != actor {
        return Failure(ConstraintViolation("actor is not an author")), dropped;
      }
      if store.rows.posts[p].repostOf.None? {
        return Failure(ConstraintViolation("object is not a repost")), dropped;
      }
      dropped := DeleteRepost(store, p);
      return Success(UndoneAnnounce), dropped;
    }
    r := Success(NothingUndone);
  }

  /** The second part of `handle_undo`: the activity may be a like. */
  method UndoLike(store: Database, actor: ProfileId, activityId: string) returns (r: Result<Undone>)
    requires store.RowsValid() && store.CountersValid()
    modifies store`rows, store`counters
    ensures store.RowsValid() && store.CountersValid()
    ensures r.Failure? || r.value.NothingUndone? ==> unchanged(store)
    ensures r.Success? ==> r.value.NothingUndone? || r.value.UndoneLike?
    ensures r.Success? && r.value.NothingUndone? ==> forall l :: l in store.rows.likeIds ==> store.rows.likeIds[l] != activityId
    ensures r.Failure? ==> RowOfSomeoneElse(store.rows, actor, activityId)
    ensures r.Success? && r.value.UndoneLike? ==> UndidLike(old(store.rows), store.rows, actor, activityId)
  {
    if l :| l in store.rows.likeIds && store.rows.likeIds[l] == activityId {
      if l.author != actor {
        return Failure(ConstraintViolation("actor is not an author"));
      }
      var _ :- store.DeleteReaction(l);
      return Success(UndoneLike);
    }
    r := Success(NothingUndone);
  }

  predicate MadeNoRequest(social: Social, activityId: string) {
    forall i :: i in social.requests ==> social.requests[i].activityId != Some(activityId)
  }

  /** What an Undo changes of the post rows: the one that the activity made. */
  predicate RowsUndone(before: PostRows, after: PostRows, actor: ProfileId, activityId: string, undone: Undone) {
    match undone
    case UndoneFollow => after == before
    case UndoneLike => UndidLike(before, after, actor, activityId)
    case UndoneAnnounce => UndidRepost(before, after, actor, activityId)
    case NothingUndone => after == before && MadeNoRow(before, activityId)
  }

  /** What it changes of the follows and requests. */
  predicate FollowUndone(before: Social, after: Social, actor: ProfileId, activityId: string, undone: Undone) {
    if undone.UndoneFollow? then UndidFollow(before, after, actor, activityId)
    else after == before && MadeNoRequest(before, activityId)
  }

  /** The first part of `handle_undo`: the activity may have made a follow request. */
  method UndoFollow(store: Database, actor: ProfileId, activityId: string) returns (r: Result<Undone>)
    requires store.SocialValid()
    modifies store`social
    ensures store.SocialValid()
    ensures r.Failure? ==> unchanged(store) && RequestOfSomeoneElse(store.social, actor, activityId)
    ensures r.Success? ==>
              (r.value.UndoneFollow? || r.value.NothingUndone?)
              && FollowUndone(old(store.social), store.social, actor, activityId, r.value)
  {
    if i :| i in store.social.requests && store.social.requests[i].activityId == Some(activityId) {
      var request := store.social.requests[i];
      if request.source != actor {
        return Failure(ConstraintViolation("actor is not a follower"));
      }
      UnfollowedKeepsLifecycle(store.social, store.profiles, request.source, request.target);
      var _ :- store.Unfollow(request.source, request.target);
      return Success(UndoneFollow);
    }
    r := Success(NothingUndone);
  }

  /** A like is looked for first, then a repost. */
  method UndoLikeOrAnnounce(store: Database, actor: ProfileId, activityId: string) returns (r: Result<Undone>, dropped: DeletionQueue)
    requires store.RowsValid() && store.CountersValid()
    modifies store`rows, store`counters
    ensures store.RowsValid() && store.CountersValid()
    ensures dropped == DeletionQueue({}, {})
    ensures r.Failure? ==> unchanged(store) && RowOfSomeoneElse(store.rows, actor, activityId)
    ensures r.Success? ==> !r.value.UndoneFollow? && RowsUndone(old(store.rows), store.rows, actor, activityId, r.value)
  {
    dropped := DeletionQueue({}, {});
    r := UndoLike(store, actor, activityId);
    if r.Success? && r.value.NothingUndone? {
      r, dropped := UndoAnnounce(store, actor, activityId);
    }
  }

  /** `handle_undo`, for an activity that is not a nested Follow. The deletion queue of an undone
      repost is dropped, and rightly so: it is empty. A refused Undo changes nothing. */
  method HandleUndo(store: Database, actor: ProfileId, activityId: string) returns (r: Result<Undone>, dropped: DeletionQueue)
    requires store.RowsValid() && store.CountersValid() && store.SocialValid()
    modifies store`rows, store`counters, store`social
    ensures store.RowsValid() && store.CountersValid() && store.SocialValid()
    ensures dropped == DeletionQueue({}, {})
    ensures r.Success? ==> RowsUndone(old(store.rows), store.rows, actor, activityId, r.value)
    ensures r.Success? ==> FollowUndone(old(store.social), store.social, actor, activityId, r.value)
    ensures r.Failure? ==> unchanged(store)
    ensures r.Failure? ==>
              || actor !in store.profiles || store.profiles[actor].IsLocal()
              || RequestOfSomeoneElse(store.social, actor, activityId) || RowOfSomeoneElse(store.rows, actor, activityId)
  {
    dropped := DeletionQueue({}, {});
    if actor !in store.profiles || store.profiles[actor].IsLocal() {
      return Failure(NotFound("profile")), dropped;
    }
    r := UndoFollow(store, actor, activityId);
    if r.Success? && r.value.NothingUndone? {
      r, dropped := UndoLikeOrAnnounce(store, actor, activityId);
    }
  }

  datatype ViewOutcome = Responded | InternalError

  /** `unfollow_account`: "the deleted request had a remote target" is taken for granted by
      the view, and an internal error would be returned if it did not hold. */
  method UnfollowAccount(store: Database, user: ProfileId, target: ProfileId) returns (outcome: ViewOutcome)
    requires store.SocialValid()
    requires user in store.profiles && store.profiles[user].IsLocal() && target in store.profiles
    modifies store`social
    ensures store.SocialValid()
    ensures outcome.Responded?
    ensures FollowRow(user, target) !in store.social.relationships && !Requested(store.social.requests, user, target)
  {
    UnfollowedKeepsLifecycle(store.social, store.profiles, user, target);
    UnfollowedRows(store.social, user, target);
    RequestHasRemoteTarget(store.social, store.profiles, user, target);
    var result := store.Unfollow(user, target);
    if result.Success? && result.value.Some? && store.profiles[target].IsLocal() {
      return InternalError; // target.actor_json is missing
    }
    outcome := Responded;
  }

  lemma RequestHasRemoteTarget(social: Social, profiles: ProfileTable, source: ProfileId, target: ProfileId)
    requires RequestsLive(social, profiles) && source in profiles && target in profiles
    requires profiles[source].IsLocal()
    ensures Requested(social.requests, source, target) ==> !profiles[target].IsLocal()
  {
  }

  datatype MoveOutcome = Moved | MoveFailed(error: DbError) | Panicked

  /** The follower now follows `newId`, or has asked to. */
  predicate FollowsOrAsks(social: Social, profiles: ProfileTable, follower: ProfileId, newId: ProfileId)
    requires newId in profiles
  {
    if profiles[newId].IsLocal() then FollowRow(follower, newId) in social.relationships
    else Requested(social.requests, follower, newId)
  }

  /** The followers of the old profile do not follow it in the end: a local profile that moves
      to itself is followed again at once. */
  predicate LeavesOld(profiles: ProfileTable, oldId: ProfileId, newId: ProfileId)
    requires newId in profiles
  {
    oldId != newId || !profiles[newId].IsLocal()
  }

  /** Who follows anyone but these two profiles has not changed. */
  ghost predicate SameOtherFollows(before: Social, after: Social, oldId: ProfileId, newId: ProfileId) {
    forall p, q :: q != oldId && q != newId ==>
      (FollowRow(p, q) in after.relationships <==> FollowRow(p, q) in before.relationships)
  }

  /** One turn of the follower loop of `handle_move`. The code expects a follow request to be
      deleted with a follow of a remote profile, and panics otherwise; it never does. */
  method MoveFollower(store: Database, follower: ProfileId, oldId: ProfileId, newId: ProfileId) returns (outcome: MoveOutcome)
    requires store.SocialValid()
    requires oldId in store.profiles && newId in store.profiles
    requires FollowRow(follower, oldId) in store.social.relationships
    modifies store`social
    ensures store.SocialValid()
    ensures !outcome.Panicked?
    ensures store.profiles[follower].IsLocal() && !store.profiles[newId].IsLocal() ==> outcome.Moved?
    ensures outcome.Moved? ==>
              && (forall p :: p != follower ==>
                    (FollowRow(p, oldId) in store.social.relationships <==> FollowRow(p, oldId) in old(store.social).relationships))
              && (LeavesOld(store.profiles, oldId, newId) ==> FollowRow(follower, oldId) !in store.social.relationships)
              && (follower != newId ==> FollowsOrAsks(store.social, store.profiles, follower, newId))
              && (forall p :: FollowsOrAsks(old(store.social), store.profiles, p, newId) ==>
                    FollowsOrAsks(store.social, store.profiles, p, newId))
    ensures SameOtherFollows(old(store.social), store.social, oldId, newId)
  {
    var social := store.social;
    if !store.profiles[follower].IsLocal() {
      return MoveFailed(NotFound("user")); // get_user_by_id
    }
    UnfollowedKeepsLifecycle(social, store.profiles, follower, oldId);
    UnfollowedRows(social, follower, oldId);
    var result := store.Unfollow(follower, oldId);
    if result.Failure? {
      return MoveFailed(NotFound("relationship"));
    }
    if !store.profiles[oldId].IsLocal() && result.value.None? {
      return Panicked; // "follow request must exist"
    }
    if follower != newId {
      outcome := FollowInstead(store, follower, newId);
    } else {
      outcome := Moved;
    }
  }

  method FollowInstead(store: Database, follower: ProfileId, newId: ProfileId) returns (outcome: MoveOutcome)
    requires store.SocialValid() && newId in store.profiles
    requires follower in store.profiles && store.profiles[follower].IsLocal()
    modifies store`social
    ensures store.SocialValid()
    ensures !outcome.Panicked?
    ensures !store.profiles[newId].IsLocal() ==> outcome.Moved?
    ensures outcome.Moved? ==> FollowsOrAsks(store.social, store.profiles, follower, newId)
    ensures forall s, t :: Requested(old(store.social).requests, s, t) ==> Requested(store.social.requests, s, t)
    ensures forall f :: f in old(store.social).relationships ==> f in store.social.relationships
    ensures forall f :: f in store.social.relationships ==>
              f in old(store.social).relationships || (f == FollowRow(follower, newId) && store.profiles[newId].IsLocal())
  {
    var id := FreshRequestId(store.social.requests);
    var followed := FollowOrCreateRequest(store, id, follower, newId);
    outcome := match followed case Success(_) => Moved case Failure(error) => MoveFailed(error);
  }

  /** The follower loop of `handle_move`. Nothing keeps a profile from naming itself. */
  method HandleMove(store: Database, oldId: ProfileId, newId: ProfileId) returns (outcome: MoveOutcome)
    requires store.SocialValid()
    requires oldId in store.profiles && newId in store.profiles
    modifies store`social
    ensures store.SocialValid()
    ensures !outcome.Panicked?
    ensures SameOtherFollows(old(store.social), store.social, oldId, newId)
    ensures && (forall p :: FollowRow(p, oldId) in old(store.social).relationships ==> store.profiles[p].IsLocal())
            && !store.profiles[newId].IsLocal()
            ==> outcome.Moved?
    ensures outcome.Moved? && LeavesOld(store.profiles, oldId, newId) ==>
              forall p :: FollowRow(p, oldId) !in store.social.relationships
    ensures outcome.Moved? ==>
              forall p :: FollowRow(p, oldId) in old(store.social).relationships && p != newId ==>
                FollowsOrAsks(store.social, store.profiles, p, newId)
  {
    var todo := set f | f in store.social.relationships && f.kind.Follow? && f.target == oldId :: f.source;
    ghost var followers := todo;
    assert forall p :: FollowRow(p, oldId) in store.social.relationships <==> p in todo;
    assert forall p :: p in followers ==> FollowRow(p, oldId) in old(store.social).relationships;
    while todo != {}
      invariant store.SocialValid() && todo <= followers
      invariant SameOtherFollows(old(store.social), store.social, oldId, newId)
      invariant forall p :: p in todo ==> FollowRow(p, oldId) in store.social.relationships
      invariant LeavesOld(store.profiles, oldId, newId) ==>
                  forall p :: FollowRow(p, oldId) in store.social.relationships ==> p in todo
      invariant forall p :: p in followers && p !in todo && p != newId ==> FollowsOrAsks(store.social, store.profiles, p, newId)
      decreases |todo|
    {
      var f :| f in todo;
      outcome := MoveFollower(store, f, oldId, newId);
      if !outcome.Moved? {
        return;
      }
      todo := todo - {f};
    }
    outcome := Moved;
  }

  // move_followers_task

  /** A local follower of the old profile, if it is one, now follows `user`. */
  method MoveLocalFollower(store: Database, user: ProfileId, from: ProfileId, follower: ProfileId) returns (outcome: MoveOutcome)
    requires store.SocialValid()
    requires user in store.profiles && store.profiles[user].IsLocal()
    requires from in store.profiles && !store.profiles[from].IsLocal()
    requires follower in store.profiles && store.profiles[follower].IsLocal()
    modifies store`social
    ensures store.SocialValid()
    ensures !outcome.Panicked?
    ensures outcome.Moved? ==> FollowRow(follower, from) !in store.social.relationships
    ensures outcome.Moved? && FollowRow(follower, from) in old(store.social).relationships ==>
              FollowRow(follower, user) in store.social.relationships
    ensures outcome.Moved? ==>
              forall f: Relationship :: f.kind.Follow? && f.source != follower ==>
                (f in store.social.relationships <==> f in old(store.social).relationships)
    ensures outcome.Moved? ==>
              forall p :: p != from && FollowRow(follower, p) in old(store.social).relationships ==>
                FollowRow(follower, p) in store.social.relationships
    ensures SameOtherFollows(old(store.social), store.social, from, user)
  {
    UnfollowedKeepsLifecycle(store.social, store.profiles, follower, from);
    UnfollowedRows(store.social, follower, from);
    var unfollowed := store.Unfollow(follower, from);
    if unfollowed.Failure? {
      return Moved; // not a follower
    }
    if unfollowed.value.None? {
      return Panicked; // "follow request must exist"
    }
    var social := store.social;
    var followed := store.Follow(follower, user);
    if followed.Success? {
      LocalFollowLives(social, store.profiles, FollowRow(follower, user));
    } else if followed.error != AlreadyExists("relationship") {
      return MoveFailed(followed.error);
    }
    outcome := Moved;
  }

  /** The local profiles among `done` have left `from`, and those that followed it follow `user`. */
  predicate HaveMoved(profiles: ProfileTable, before: set<Relationship>, after: set<Relationship>, done: seq<ProfileId>,
                      from: ProfileId, user: ProfileId)
  {
    forall p :: p in done && p in profiles && profiles[p].IsLocal() ==>
      FollowRow(p, from) !in after && (FollowRow(p, from) in before ==> FollowRow(p, user) in after)
  }

  ghost predicate StillFollow(before: set<Relationship>, after: set<Relationship>, done: seq<ProfileId>, from: ProfileId) {
    forall p :: p !in done && FollowRow(p, from) in before ==> FollowRow(p, from) in after
  }

  lemma RemoteFollowerTold(profiles: ProfileTable, before: set<Relationship>, after: set<Relationship>, done: seq<ProfileId>,
                           follower: ProfileId, from: ProfileId, user: ProfileId)
    requires HaveMoved(profiles, before, after, done, from, user) && StillFollow(before, after, done, from)
    requires follower in profiles && !profiles[follower].IsLocal()
    ensures HaveMoved(profiles, before, after, done + [follower], from, user)
    ensures StillFollow(before, after, done + [follower], from)
  {
  }

  /** One more follower has been moved, and nobody else's follows were touched. */
  lemma OneMoreMoved(profiles: ProfileTable, before: set<Relationship>, between: set<Relationship>, after: set<Relationship>,
                     done: seq<ProfileId>, follower: ProfileId, from: ProfileId, user: ProfileId)
    requires from != user && HaveMoved(profiles, before, between, done, from, user)
    requires StillFollow(before, between, done, from)
    requires FollowRow(follower, from) !in after
    requires FollowRow(follower, from) in between ==> FollowRow(follower, user) in after
    requires FollowRow(follower, user) in between ==> FollowRow(follower, user) in after
    requires follower in profiles && profiles[follower].IsLocal()
    requires forall f: Relationship :: f.kind.Follow? && f.source != follower ==> (f in between <==> f in after)
    ensures HaveMoved(profiles, before, after, done + [follower], from, user)
    ensures StillFollow(before, after, done + [follower], from)
  {
  }

  /** `move_followers_task`, for followers that could be imported; remote ones are told. The
      expectation that a follow request exists never fails. */
  method MoveFollowersTask(store: Database, user: ProfileId, from: Option<ProfileId>, followers: seq<ProfileId>)
    returns (outcome: MoveOutcome, told: seq<ProfileId>)
    requires store.SocialValid()
    requires user in store.profiles && store.profiles[user].IsLocal()
    requires from.Some? ==> from.value in store.profiles && !store.profiles[from.value].IsLocal()
    requires forall p :: p in followers ==> p in store.profiles
    modifies store`social
    ensures store.SocialValid()
    ensures !outcome.Panicked?
    ensures outcome.Moved? ==> forall p :: p in told <==> p in followers && !store.profiles[p].IsLocal()
    ensures outcome.Moved? && from.Some? ==>
              HaveMoved(store.profiles, old(store.social).relationships, store.social.relationships, followers, from.value, user)
    ensures from.Some? ==> SameOtherFollows(old(store.social), store.social, from.value, user)
    ensures from.None? ==> store.social == old(store.social)
  {
    told := [];
    ghost var before := store.social.relationships;
    for i := 0 to |followers|
      invariant store.SocialValid()
      invariant forall p :: p in told <==> p in followers[..i] && !store.profiles[p].IsLocal()
      invariant from.None? ==> store.social == old(store.social)
      invariant from.Some? ==>
                  && HaveMoved(store.profiles, before, store.social.relationships, followers[..i], from.value, user)
                  && StillFollow(before, store.social.relationships, followers[..i], from.value)
                  && SameOtherFollows(old(store.social), store.social, from.value, user)
    {
      var follower := followers[i];
      assert followers[..i + 1] == followers[..i] + [follower];
      ghost var between := store.social.relationships;
      if !store.profiles[follower].IsLocal() {
        told := told + [follower];
        if from.Some? {
          RemoteFollowerTold(store.profiles, before, between, followers[..i], follower, from.value, user);
        }
      } else if from.Some? {
        outcome := MoveLocalFollower(store, user, from.value, follower);
        if !outcome.Moved? {
          return;
        }
        OneMoreMoved(store.profiles, before, between, store.social.relationships, followers[..i], follower, from.value, user);
      }
    }
    assert followers[..|followers|] == followers;
    outcome := Moved;
  }
}
