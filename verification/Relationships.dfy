/** Follows, follow requests and subscriptions: the statements of `relationships/queries.rs`
    and of the subscription transactions that change relationships. */
module Relationships {
  import opened Collections
  import opened PostGraph
  import opened Schema
  import opened Counters
  import opened Posting

  /** The three counters of `actor_profile` that summarise relationships. */
  predicate SocialCountersOk(social: Social, profiles: ProfileTable) {
    && RelationshipsOk(profiles, social.relationships)
    && CountsIncoming(profiles, social.relationships, Follow, social.followers)
    && CountsOutgoing(profiles, social.relationships, Follow, social.following)
    && CountsIncoming(profiles, social.relationships, Subscription, social.subscribers)
  }

  predicate RequestsLive(social: Social, profiles: ProfileTable) {
    && RelationshipsOk(profiles, social.relationships)
    && RequestsOk(profiles, social.requests)
    && Lifecycle(profiles, social.relationships, social.requests)
  }

  /** `INSERT INTO relationship`: UNIQUE, then the foreign keys and `CHECK (source_id != target_id)`. */
  function InsertRelationship(relationships: set<Relationship>, profiles: ProfileTable, r: Relationship): Result<set<Relationship>> {
    if r in relationships then Failure(AlreadyExists("relationship"))
    else if r.source !in profiles || r.target !in profiles || r.source == r.target then Failure(ConstraintViolation("relationship"))
    else Success(relationships + {r})
  }

  // One relationship more or less

  function Bump<K>(counts: map<K, int>, k: K, change: int): map<K, int> {
    map i | i in counts :: if i == k then counts[i] + change else counts[i]
  }

  lemma IncomingPlus(profiles: ProfileTable, relationships: set<Relationship>, r: Relationship, kind: RelationshipType, counts: ProfileCounts)
    requires CountsIncoming(profiles, relationships, kind, counts) && r !in relationships
    requires r.kind == kind ==> r.target in counts && IsCounter(counts[r.target] + 1)
    ensures CountsIncoming(profiles, relationships + {r}, kind, if r.kind == kind then Bump(counts, r.target, 1) else counts)
  {
    var counts' := if r.kind == kind then Bump(counts, r.target, 1) else counts;
    forall p | p in counts' ensures IsCounter(counts'[p]) && counts'[p] == |Incoming(relationships + {r}, p, kind)| {
      assert counts[p] == |Incoming(relationships, p, kind)|;
      if r.kind == kind && p == r.target {
        assert Incoming(relationships + {r}, p, kind) == Incoming(relationships, p, kind) + {r};
      } else {
        assert Incoming(relationships + {r}, p, kind) == Incoming(relationships, p, kind);
      }
    }
  }

  lemma OutgoingPlus(profiles: ProfileTable, relationships: set<Relationship>, r: Relationship, kind: RelationshipType, counts: ProfileCounts)
    requires CountsOutgoing(profiles, relationships, kind, counts) && r !in relationships
    requires r.kind == kind ==> r.source in counts && IsCounter(counts[r.source] + 1)
    ensures CountsOutgoing(profiles, relationships + {r}, kind, if r.kind == kind then Bump(counts, r.source, 1) else counts)
  {
    var counts' := if r.kind == kind then Bump(counts, r.source, 1) else counts;
    forall p | p in counts' ensures IsCounter(counts'[p]) && counts'[p] == |Outgoing(relationships + {r}, p, kind)| {
      assert counts[p] == |Outgoing(relationships, p, kind)|;
      if r.kind == kind && p == r.source {
        assert Outgoing(relationships + {r}, p, kind) == Outgoing(relationships, p, kind) + {r};
      } else {
        assert Outgoing(relationships + {r}, p, kind) == Outgoing(relationships, p, kind);
      }
    }
  }

  lemma IncomingMinus(profiles: ProfileTable, relationships: set<Relationship>, r: Relationship, kind: RelationshipType, counts: ProfileCounts)
    requires CountsIncoming(profiles, relationships, kind, counts) && r in relationships
    ensures CountsIncoming(profiles, relationships - {r}, kind, if r.kind == kind then Bump(counts, r.target, -1) else counts)
  {
    var counts' := if r.kind == kind then Bump(counts, r.target, -1) else counts;
    forall p | p in counts' ensures IsCounter(counts'[p]) && counts'[p] == |Incoming(relationships - {r}, p, kind)| {
      assert counts[p] == |Incoming(relationships, p, kind)|;
      if r.kind == kind && p == r.target {
        assert Incoming(relationships - {r}, p, kind) == Incoming(relationships, p, kind) - {r};
        assert |Incoming(relationships - {r}, p, kind)| == |Incoming(relationships, p, kind)| - 1;
      } else {
        assert Incoming(relationships - {r}, p, kind) == Incoming(relationships, p, kind);
      }
    }
  }

  lemma OutgoingMinus(profiles: ProfileTable, relationships: set<Relationship>, r: Relationship, kind: RelationshipType, counts: ProfileCounts)
    requires CountsOutgoing(profiles, relationships, kind, counts) && r in relationships
    ensures CountsOutgoing(profiles, relationships - {r}, kind, if r.kind == kind then Bump(counts, r.source, -1) else counts)
  {
    var counts' := if r.kind == kind then Bump(counts, r.source, -1) else counts;
    forall p | p in counts' ensures IsCounter(counts'[p]) && counts'[p] == |Outgoing(relationships - {r}, p, kind)| {
      assert counts[p] == |Outgoing(relationships, p, kind)|;
      if r.kind == kind && p == r.source {
        assert Outgoing(relationships - {r}, p, kind) == Outgoing(relationships, p, kind) - {r};
        assert |Outgoing(relationships - {r}, p, kind)| == |Outgoing(relationships, p, kind)| - 1;
      } else {
        assert Outgoing(relationships - {r}, p, kind) == Outgoing(relationships, p, kind);
      }
    }
  }

  /** The social tables with relationship `r` added and counted. */
  function With(social: Social, r: Relationship): Social {
    social.(
    relationships := social.relationships + {r},
    followers := if r.kind == Follow then Bump(social.followers, r.target, 1) else social.followers,
    following := if r.kind == Follow then Bump(social.following, r.source, 1) else social.following,
    subscribers := if r.kind == Subscription then Bump(social.subscribers, r.target, 1) else social.subscribers)
  }

  /** The social tables with relationship `r` removed and no longer counted. */
  function Without(social: Social, r: Relationship): Social {
    if r !in social.relationships then social
    else
      social.(
      relationships := social.relationships - {r},
      followers := if r.kind == Follow then Bump(social.followers, r.target, -1) else social.followers,
      following := if r.kind == Follow then Bump(social.following, r.source, -1) else social.following,
      subscribers := if r.kind == Subscription then Bump(social.subscribers, r.target, -1) else social.subscribers)
  }

  /** The counters that adding `r` increments have room. */
  predicate RoomFor(social: Social, r: Relationship) {
    && (r.kind == Follow ==> r.target in social.followers && IsCounter(social.followers[r.target] + 1)
                             && r.source in social.following && IsCounter(social.following[r.source] + 1))
    && (r.kind == Subscription ==> r.target in social.subscribers && IsCounter(social.subscribers[r.target] + 1))
  }

  /** Exactly when the relationship can be added. */
  predicate CanAdd(social: Social, profiles: ProfileTable, r: Relationship) {
    && r !in social.relationships
    && r.source in profiles && r.target in profiles && r.source != r.target
    && RoomFor(social, r)
  }

  lemma AddKeepsCounters(social: Social, profiles: ProfileTable, r: Relationship)
    requires SocialCountersOk(social, profiles) && CanAdd(social, profiles, r)
    ensures SocialCountersOk(With(social, r), profiles)
  {
    IncomingPlus(profiles, social.relationships, r, Follow, social.followers);
    OutgoingPlus(profiles, social.relationships, r, Follow, social.following);
    IncomingPlus(profiles, social.relationships, r, Subscription, social.subscribers);
  }

  lemma RemoveKeepsCounters(social: Social, profiles: ProfileTable, r: Relationship)
    requires SocialCountersOk(social, profiles)
    ensures SocialCountersOk(Without(social, r), profiles)
  {
    if r in social.relationships {
      IncomingMinus(profiles, social.relationships, r, Follow, social.followers);
      OutgoingMinus(profiles, social.relationships, r, Follow, social.following);
      IncomingMinus(profiles, social.relationships, r, Subscription, social.subscribers);
    }
  }

  /** A row that is there is counted, so decrementing its counters cannot fail. */
  lemma CountedRelationship(social: Social, profiles: ProfileTable, r: Relationship)
    requires SocialCountersOk(social, profiles) && r in social.relationships
    ensures r.kind == Follow ==> UpdateProfileCounter(social.followers, r.target, -1) == Success(Bump(social.followers, r.target, -1))
    ensures r.kind == Follow ==> UpdateProfileCounter(social.following, r.source, -1) == Success(Bump(social.following, r.source, -1))
    ensures r.kind == Subscription ==> UpdateProfileCounter(social.subscribers, r.target, -1) == Success(Bump(social.subscribers, r.target, -1))
  {
    if r.kind == Follow {
      SubsetCardinality({r}, Incoming(social.relationships, r.target, Follow));
      SubsetCardinality({r}, Outgoing(social.relationships, r.source, Follow));
      assert social.followers[r.target] == |Incoming(social.relationships, r.target, Follow)|;
      assert social.following[r.source] == |Outgoing(social.relationships, r.source, Follow)|;
      assert social.followers[r.target := social.followers[r.target] - 1] == Bump(social.followers, r.target, -1);
      assert social.following[r.source := social.following[r.source] - 1] == Bump(social.following, r.source, -1);
    }
    if r.kind == Subscription {
      SubsetCardinality({r}, Incoming(social.relationships, r.target, Subscription));
      assert social.subscribers[r.target] == |Incoming(social.relationships, r.target, Subscription)|;
      assert social.subscribers[r.target := social.subscribers[r.target] - 1] == Bump(social.subscribers, r.target, -1);
    }
  }

  /** `follow` */
  method FollowRows(social: Social, profiles: ProfileTable, source: ProfileId, target: ProfileId) returns (r: Result<Social>)
    ensures r.Success? <==> CanAdd(social, profiles, Relationship(source, target, Follow))
    ensures r.Success? ==> r.value == With(social, Relationship(source, target, Follow))
    ensures r == Failure(AlreadyExists("relationship")) <==> Relationship(source, target, Follow) in social.relationships
  {
    var relationships :- InsertRelationship(social.relationships, profiles, Relationship(source, target, Follow));
    var followers :- UpdateProfileCounter(social.followers, target, 1);
    assert followers == Bump(social.followers, target, 1);
    var following :- UpdateProfileCounter(social.following, source, 1);
    assert following == Bump(social.following, source, 1);
    r := Success(social.(relationships := relationships, followers := followers, following := following));
  }

  function RequestsBut(requests: RequestTable, source: ProfileId, target: ProfileId): RequestTable {
    map i | i in requests && !(requests[i].source == source && requests[i].target == target) :: requests[i]
  }

  /** The social tables after `unfollow`: the Follow row, the visibility settings that go with
      it, and any follow request are gone. */
  function Unfollowed(social: Social, source: ProfileId, target: ProfileId): Social {
    var f := Relationship(source, target, Follow);
    var left := if f !in social.relationships then social
                else Without(Without(Without(social, f), Relationship(source, target, HideReposts)),
                             Relationship(source, target, HideReplies));
    left.(requests := RequestsBut(social.requests, source, target))
  }

  lemma NothingToUnfollow(social: Social, source: ProfileId, target: ProfileId)
    requires Relationship(source, target, Follow) !in social.relationships && !Requested(social.requests, source, target)
    ensures Unfollowed(social, source, target) == social
  {
    assert RequestsBut(social.requests, source, target) == social.requests;
  }

  /** `unfollow`; returns the id of the deleted follow request, if there was one. */
  method UnfollowRows(social: Social, ghost profiles: ProfileTable, source: ProfileId, target: ProfileId)
    returns (r: Result<(Social, Option<RequestId>)>)
    requires SocialCountersOk(social, profiles) && RequestsOk(profiles, social.requests)
    ensures r.Success? <==> Relationship(source, target, Follow) in social.relationships || Requested(social.requests, source, target)
    ensures r.Failure? ==> r.error == NotFound("relationship")
    ensures r.Success? ==> r.value.0 == Unfollowed(social, source, target)
    ensures r.Success? ==> (r.value.1.Some? <==> Requested(social.requests, source, target))
    ensures r.Success? && r.value.1.Some? ==>
              var i := r.value.1.value;
              i in social.requests && social.requests[i].source == source && social.requests[i].target == target
  {
    var f := Relationship(source, target, Follow);
    var request := None;
    if i :| i in social.requests && social.requests[i].source == source && social.requests[i].target == target {
      request := Some(i);
    }
    if f !in social.relationships && request.None? {
      return Failure(NotFound("relationship"));
    }
    var left := social.(requests := RequestsBut(social.requests, source, target));
    if f in social.relationships {
      CountedRelationship(social, profiles, f);
      var followers :- UpdateProfileCounter(social.followers, target, -1);
      var following :- UpdateProfileCounter(social.following, source, -1);
      left := left.(
      relationships := Shown(social.relationships - {f}, source, target),
      followers := followers,
      following := following);
      HiddenSettingsRemoved(Without(social, f), source, target);
    }
    r := Success((left, request));
  }

  /** Show reposts and replies of `target` to `source` again. */
  function Shown(relationships: set<Relationship>, source: ProfileId, target: ProfileId): set<Relationship> {
    relationships - {Relationship(source, target, HideReposts), Relationship(source, target, HideReplies)}
  }

  lemma HiddenSettingsRemoved(social: Social, source: ProfileId, target: ProfileId)
    ensures Without(Without(social, Relationship(source, target, HideReposts)), Relationship(source, target, HideReplies))
         == social.(relationships := Shown(social.relationships, source, target))
  {
  }

  /** The follow, the settings that go with it and the request are gone, and nothing else is. */
  ghost predicate OnlyUnfollowed(before: Social, after: Social, source: ProfileId, target: ProfileId) {
    && (forall r: Relationship :: r in after.relationships <==>
          r in before.relationships
          && !(r.source == source && r.target == target
               && (r.kind.Follow? || (Relationship(source, target, Follow) in before.relationships && (r.kind.HideReposts? || r.kind.HideReplies?)))))
    && (forall i :: i in after.requests <==>
          i in before.requests && !(before.requests[i].source == source && before.requests[i].target == target))
    && (forall i :: i in after.requests ==> after.requests[i] == before.requests[i])
  }

  lemma UnfollowedAsAsked(social: Social, source: ProfileId, target: ProfileId)
    ensures OnlyUnfollowed(social, Unfollowed(social, source, target), source, target)
  {
  }

  lemma UnfollowedKeepsCounters(social: Social, profiles: ProfileTable, source: ProfileId, target: ProfileId)
    requires SocialCountersOk(social, profiles)
    ensures SocialCountersOk(Unfollowed(social, source, target), profiles)
  {
    var f := Relationship(source, target, Follow);
    if f in social.relationships {
      RemoveKeepsCounters(social, profiles, f);
      RemoveKeepsCounters(Without(social, f), profiles, Relationship(source, target, HideReposts));
      RemoveKeepsCounters(Without(Without(social, f), Relationship(source, target, HideReposts)), profiles,
                          Relationship(source, target, HideReplies));
    }
  }

  lemma UnfollowedKeepsLifecycle(social: Social, profiles: ProfileTable, source: ProfileId, target: ProfileId)
    requires RequestsLive(social, profiles)
    ensures RequestsLive(Unfollowed(social, source, target), profiles)
  {
    var after := Unfollowed(social, source, target);
    assert after.relationships <= social.relationships;
    assert Relationship(source, target, Follow) !in after.relationships;
    assert forall r :: r in social.relationships && r.kind == Follow && r != Relationship(source, target, Follow) ==> r in after.relationships;
    forall r | r in after.relationships && r.kind.Follow? && !profiles[r.target].IsLocal()
      ensures Requested(after.requests, r.source, r.target)
    {
      var i :| i in social.requests && social.requests[i].source == r.source && social.requests[i].target == r.target;
      assert i in after.requests;
    }
  }

  /** `subscribe` */
  method SubscribeRows(social: Social, profiles: ProfileTable, source: ProfileId, target: ProfileId) returns (r: Result<Social>)
    ensures r.Success? <==> CanAdd(social, profiles, Relationship(source, target, Subscription))
    ensures r.Success? ==> r.value == With(social, Relationship(source, target, Subscription))
  {
    var relationships :- InsertRelationship(social.relationships, profiles, Relationship(source, target, Subscription));
    var subscribers :- UpdateProfileCounter(social.subscribers, target, 1);
    assert subscribers == Bump(social.subscribers, target, 1);
    r := Success(social.(relationships := relationships, subscribers := subscribers));
  }

  /** `unsubscribe` */
  method UnsubscribeRows(social: Social, ghost profiles: ProfileTable, source: ProfileId, target: ProfileId) returns (r: Result<Social>)
    requires SocialCountersOk(social, profiles)
    ensures r.Success? <==> Relationship(source, target, Subscription) in social.relationships
    ensures r.Success? ==> r.value == Without(social, Relationship(source, target, Subscription))
  {
    var s := Relationship(source, target, Subscription);
    if s !in social.relationships {
      return Failure(NotFound("relationship"));
    }
    CountedRelationship(social, profiles, s);
    var subscribers :- UpdateProfileCounter(social.subscribers, target, -1);
    r := Success(social.(relationships := social.relationships - {s}, subscribers := subscribers));
  }

  /** The relationship statements of `reset_subscriptions`. */
  function WithoutSubscriptions(social: Social): Social {
    social.(
    relationships := (set r | r in social.relationships && r.kind != Subscription),
    subscribers := (map p | p in social.subscribers :: 0))
  }

  lemma IncomingUnaffected(profiles: ProfileTable, rels: set<Relationship>, rels': set<Relationship>, kind: RelationshipType, counts: ProfileCounts)
    requires CountsIncoming(profiles, rels, kind, counts)
    requires forall r: Relationship :: r.kind == kind ==> (r in rels' <==> r in rels)
    ensures CountsIncoming(profiles, rels', kind, counts)
  {
    forall p | p in counts ensures IsCounter(counts[p]) && counts[p] == |Incoming(rels', p, kind)| {
      assert counts[p] == |Incoming(rels, p, kind)|;
      assert Incoming(rels', p, kind) == Incoming(rels, p, kind);
    }
  }

  lemma OutgoingUnaffected(profiles: ProfileTable, rels: set<Relationship>, rels': set<Relationship>, kind: RelationshipType, counts: ProfileCounts)
    requires CountsOutgoing(profiles, rels, kind, counts)
    requires forall r: Relationship :: r.kind == kind ==> (r in rels' <==> r in rels)
    ensures CountsOutgoing(profiles, rels', kind, counts)
  {
    forall p | p in counts ensures IsCounter(counts[p]) && counts[p] == |Outgoing(rels', p, kind)| {
      assert counts[p] == |Outgoing(rels, p, kind)|;
      assert Outgoing(rels', p, kind) == Outgoing(rels, p, kind);
    }
  }

  lemma NoneLeftIsZero(profiles: ProfileTable, rels: set<Relationship>, kind: RelationshipType, counts: ProfileCounts)
    requires counts.Keys == profiles.Keys
    requires forall r :: r in rels ==> r.kind != kind
    ensures CountsIncoming(profiles, rels, kind, map p | p in counts :: 0)
  {
    var zeros := map p | p in counts :: 0;
    forall p | p in zeros ensures zeros[p] == |Incoming(rels, p, kind)| {
      assert Incoming(rels, p, kind) == {};
    }
  }

  lemma ResetKeepsCounters(social: Social, profiles: ProfileTable)
    requires SocialCountersOk(social, profiles)
    ensures SocialCountersOk(WithoutSubscriptions(social), profiles)
  {
    var rels := WithoutSubscriptions(social).relationships;
    IncomingUnaffected(profiles, social.relationships, rels, Follow, social.followers);
    OutgoingUnaffected(profiles, social.relationships, rels, Follow, social.following);
    NoneLeftIsZero(profiles, rels, Subscription, social.subscribers);
  }

  /** Relationships of other kinds do not take part in the lifecycle. */
  lemma OtherKindsKeepLifecycle(social: Social, profiles: ProfileTable, social': Social)
    requires RequestsLive(social, profiles) && RelationshipsOk(profiles, social'.relationships)
    requires social'.requests == social.requests
    requires forall r: Relationship :: r.kind.Follow? ==> (r in social'.relationships <==> r in social.relationships)
    ensures RequestsLive(social', profiles)
  {
  }

  // Follow requests

  /** Some stored request already has this pair of profiles, or this activity id. */
  predicate RequestCollides(requests: RequestTable, except: Option<RequestId>, request: FollowRequest) {
    exists i :: i in requests && except != Some(i) && !RequestsApart(request, requests[i])
  }

  function InsertRequest(requests: RequestTable, profiles: ProfileTable, id: RequestId, request: FollowRequest): Result<RequestTable> {
    if id in requests || RequestCollides(requests, None, request) then Failure(AlreadyExists("follow request"))
    else if request.source !in profiles || request.target !in profiles || request.source == request.target then
      Failure(ConstraintViolation("follow_request"))
    else Success(requests[id := request])
  }

  /** No request of another pair of profiles has the activity id. */
  predicate NobodyElsesId(requests: RequestTable, source: ProfileId, target: ProfileId, activityId: string) {
    forall i {:trigger requests[i]} :: i in requests && requests[i].activityId == Some(activityId) ==>
      requests[i].source == source && requests[i].target == target
  }

  /** A stored request already shows that the profiles are there and differ. */
  lemma CollidesIff(requests: RequestTable, profiles: ProfileTable, i: RequestId, activityId: string)
    requires RequestsOk(profiles, requests) && i in requests
    ensures RequestCollides(requests, Some(i), requests[i].(activityId := Some(activityId)))
       <==> !NobodyElsesId(requests, requests[i].source, requests[i].target, activityId)
  {
    var request := requests[i].(activityId := Some(activityId));
    forall j | j in requests && j != i
      ensures RequestsApart(request, requests[j]) <==> requests[j].activityId != Some(activityId)
      ensures requests[j].source != requests[i].source || requests[j].target != requests[i].target
    {
      assert RequestsApart(requests[i], requests[j]);
    }
  }

  /** `create_remote_follow_request_opt`: an existing request for the pair only gets the new
      activity id. Returns the id of the request. */
  method UpsertRequest(requests: RequestTable, profiles: ProfileTable, id: RequestId,
                       source: ProfileId, target: ProfileId, activityId: string)
    returns (r: Result<(RequestId, RequestTable)>)
    requires RequestsOk(profiles, requests)
    ensures r.Success? <==>
              && source in profiles && target in profiles && source != target
              && NobodyElsesId(requests, source, target, activityId)
              && (Requested(requests, source, target) || id !in requests)
    ensures r.Success? ==>
              var i := r.value.0;
              && (if Requested(requests, source, target)
                  then i in requests && requests[i].source == source && requests[i].target == target
                       && r.value.1 == requests[i := requests[i].(activityId := Some(activityId))]
                       && !RequestCollides(requests, Some(i), r.value.1[i])
                  else InsertRequest(requests, profiles, id, FollowRequest(source, target, Some(activityId), Pending)) == Success(r.value.1)
                       && i == id)
  {
    if i :| i in requests && requests[i].source == source && requests[i].target == target {
      var request := requests[i].(activityId := Some(activityId));
      CollidesIff(requests, profiles, i, activityId);
      if RequestCollides(requests, Some(i), request) {
        return Failure(ConstraintViolation("activity_id"));
      }
      r := Success((i, requests[i := request]));
    } else {
      var request := FollowRequest(source, target, Some(activityId), Pending);
      assert RequestCollides(requests, None, request) <==> !NobodyElsesId(requests, source, target, activityId) by {
        forall j | j in requests ensures RequestsApart(request, requests[j]) <==> requests[j].activityId != Some(activityId) {
        }
      }
      var requests' :- InsertRequest(requests, profiles, id, request);
      r := Success((id, requests'));
    }
  }

  /** Nobody has asked for this pair, or with this activity. */
  predicate NeverAsked(requests: RequestTable, source: ProfileId, target: ProfileId, activityId: Option<string>) {
    forall i :: i in requests ==>
      && !(requests[i].source == source && requests[i].target == target)
      && (activityId != None ==> requests[i].activityId != activityId)
  }

  /** When a request can be stored, and that it is stored as it is. */
  lemma InsertRequestCondition(requests: RequestTable, profiles: ProfileTable, id: RequestId, request: FollowRequest)
    ensures InsertRequest(requests, profiles, id, request).Success? <==>
              && id !in requests && NeverAsked(requests, request.source, request.target, request.activityId)
              && request.source in profiles && request.target in profiles && request.source != request.target
    ensures InsertRequest(requests, profiles, id, request).Success? ==>
              InsertRequest(requests, profiles, id, request).value == requests[id := request]
  {
    forall i | i in requests
      ensures RequestsApart(request, requests[i]) <==>
                && !(requests[i].source == request.source && requests[i].target == request.target)
                && (request.activityId != None ==> requests[i].activityId != request.activityId)
    {
    }
  }

  lemma RequestsStayApart(requests: RequestTable, except: Option<RequestId>, id: RequestId, request: FollowRequest)
    requires forall i, j {:trigger RequestsApart(requests[i], requests[j])} :: i in requests && j in requests && i != j ==>
               RequestsApart(requests[i], requests[j])
    requires except == Some(id) || (except.None? && id !in requests)
    requires !RequestCollides(requests, except, request)
    ensures var requests' := requests[id := request];
            forall i, j {:trigger RequestsApart(requests'[i], requests'[j])} :: i in requests' && j in requests' && i != j ==>
              RequestsApart(requests'[i], requests'[j])
  {
  }

  /** A request that keeps its pair and activity id keeps clear of the others. */
  lemma SameKeysNoCollision(requests: RequestTable, id: RequestId, request: FollowRequest)
    requires forall i, j {:trigger RequestsApart(requests[i], requests[j])} :: i in requests && j in requests && i != j ==>
               RequestsApart(requests[i], requests[j])
    requires id in requests && request.source == requests[id].source && request.target == requests[id].target
    requires request.activityId == requests[id].activityId
    ensures !RequestCollides(requests, Some(id), request)
  {
    forall i | i in requests && i != id ensures RequestsApart(request, requests[i]) {
      assert RequestsApart(requests[id], requests[i]);
    }
  }

  /** A pending request between a local and a remote profile fits the lifecycle. */
  lemma NewRequestLives(social: Social, profiles: ProfileTable, id: RequestId, request: FollowRequest)
    requires RequestsLive(social, profiles)
    requires InsertRequest(social.requests, profiles, id, request).Success?
    requires request.status.Pending? && profiles[request.source].IsLocal() != profiles[request.target].IsLocal()
    ensures RequestsLive(social.(requests := social.requests[id := request]), profiles)
  {
    var requests' := social.requests[id := request];
    RequestsStayApart(social.requests, None, id, request);
    forall r | r in social.relationships && r.kind.Follow? && !profiles[r.target].IsLocal()
      ensures Requested(requests', r.source, r.target)
    {
      var i :| i in social.requests && social.requests[i].source == r.source && social.requests[i].target == r.target;
      assert requests'[i] == social.requests[i];
    }
  }

  /** Replacing the activity id, or a status other than Accepted, fits the lifecycle. */
  lemma ChangedRequestLives(social: Social, profiles: ProfileTable, id: RequestId, request: FollowRequest)
    requires RequestsLive(social, profiles) && id in social.requests
    requires request.source == social.requests[id].source && request.target == social.requests[id].target
    requires request.activityId == social.requests[id].activityId || !RequestCollides(social.requests, Some(id), request)
    requires request.status == social.requests[id].status || !request.status.Accepted?
    ensures RequestsLive(social.(requests := social.requests[id := request]), profiles)
  {
    var requests' := social.requests[id := request];
    if request.activityId == social.requests[id].activityId {
      SameKeysNoCollision(social.requests, id, request);
    }
    RequestsStayApart(social.requests, Some(id), id, request);
    forall r | r in social.relationships && r.kind.Follow? && !profiles[r.target].IsLocal()
      ensures Requested(requests', r.source, r.target)
    {
      var i :| i in social.requests && social.requests[i].source == r.source && social.requests[i].target == r.target;
      assert requests'[i].source == r.source && requests'[i].target == r.target;
    }
  }

  /** The request is accepted and its Follow row is there. */
  function AcceptedRequest(social: Social, id: RequestId): Social
    requires id in social.requests
  {
    var request := social.requests[id].(status := Accepted);
    With(social.(requests := social.requests[id := request]), Relationship(request.source, request.target, Follow))
  }

  /** Accepting a request together with adding its Follow row fits the lifecycle. */
  lemma AcceptedRequestLives(social: Social, profiles: ProfileTable, id: RequestId)
    requires RequestsLive(social, profiles) && id in social.requests
    requires CanAdd(social, profiles, Relationship(social.requests[id].source, social.requests[id].target, Follow))
    ensures RequestsLive(AcceptedRequest(social, id), profiles)
  {
    var request := social.requests[id].(status := Accepted);
    var requests' := social.requests[id := request];
    var f := Relationship(request.source, request.target, Follow);
    SameKeysNoCollision(social.requests, id, request);
    RequestsStayApart(social.requests, Some(id), id, request);
    forall r | r in social.relationships + {f} && r.kind.Follow? && !profiles[r.target].IsLocal()
      ensures Requested(requests', r.source, r.target)
    {
      if r == f {
        assert requests'[id].source == r.source && requests'[id].target == r.target;
      } else {
        var i :| i in social.requests && social.requests[i].source == r.source && social.requests[i].target == r.target;
        assert requests'[i].source == r.source && requests'[i].target == r.target;
      }
    }
  }

  /** Following a local profile needs no request. */
  lemma LocalFollowLives(social: Social, profiles: ProfileTable, r: Relationship)
    requires RequestsLive(social, profiles) && CanAdd(social, profiles, r)
    requires r.kind.Follow? ==> profiles[r.target].IsLocal()
    ensures RequestsLive(With(social, r), profiles)
  {
  }

  /** Rows, uniqueness and counters, without the lifecycle that only the handlers maintain. */
  predicate SocialTablesOk(social: Social, profiles: ProfileTable) {
    SocialCountersOk(social, profiles) && RequestsOk(profiles, social.requests)
  }

  /** `show_reposts`, `hide_replies`, `mute_posts` and the like: relationships that nothing counts. */
  predicate IsPreference(kind: RelationshipType) {
    kind.HideReposts? || kind.HideReplies? || kind.Mute?
  }

  lemma PreferenceKeepsSocial(social: Social, profiles: ProfileTable, relationships: set<Relationship>)
    requires SocialTablesOk(social, profiles) && RelationshipsOk(profiles, relationships)
    requires forall r: Relationship :: !IsPreference(r.kind) ==> (r in relationships <==> r in social.relationships)
    ensures SocialTablesOk(social.(relationships := relationships), profiles)
    ensures RequestsLive(social, profiles) ==> RequestsLive(social.(relationships := relationships), profiles)
  {
    IncomingUnaffected(profiles, social.relationships, relationships, Follow, social.followers);
    OutgoingUnaffected(profiles, social.relationships, relationships, Follow, social.following);
    IncomingUnaffected(profiles, social.relationships, relationships, Subscription, social.subscribers);
    if RequestsLive(social, profiles) {
      OtherKindsKeepLifecycle(social, profiles, social.(relationships := relationships));
    }
  }
}
