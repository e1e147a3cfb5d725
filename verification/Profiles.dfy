/** Inserting and updating profile rows: the first statements of `create_profile` and
    `update_profile`. */
module Profiles {
  import opened Collections
  import opened Text
  import opened PostGraph
  import opened Schema
  import opened Posting
  import opened EmojiCache

  /** `acct`, a generated UNIQUE column. */
  function Acct(profile: Profile): string {
    if profile.hostname.None? then profile.username else profile.username + "@" + profile.hostname.value
  }

  /** `CHECK ((hostname IS NULL) = (actor_json IS NULL))` */
  predicate HomeConsistent(profile: Profile) {
    profile.hostname.None? <==> profile.actorId.None?
  }

  predicate ProfileCollides(profiles: ProfileTable, id: ProfileId, profile: Profile) {
    exists q :: q in profiles && q != id
                && (Acct(profiles[q]) == Acct(profile) || (profile.actorId.Some? && profiles[q].actorId == profile.actorId))
  }

  function InsertProfile(profiles: ProfileTable, id: ProfileId, profile: Profile): Result<ProfileTable> {
    if !HomeConsistent(profile) then Failure(ConstraintViolation("actor_profile"))
    else if id in profiles || ProfileCollides(profiles, id, profile) then Failure(AlreadyExists("profile"))
    else Success(profiles[id := profile])
  }

  /** `update_profile` never changes the name or the host, so the CHECK keeps a local profile
      local and a remote one remote. A missing row fails later, in `update_emoji_cache`. */
  function ChangeProfile(profiles: ProfileTable, id: ProfileId, actorId: Option<string>, avatar: Option<string>, banner: Option<string>)
    : Result<ProfileTable>
  {
    if id !in profiles then Failure(NotFound("profile"))
    else
      var profile := profiles[id].(actorId := actorId, avatar := avatar, banner := banner);
      if !HomeConsistent(profile) then Failure(ConstraintViolation("actor_profile"))
      else if ProfileCollides(profiles, id, profile) then Failure(ConstraintViolation("actor_id"))
      else Success(profiles[id := profile])
  }

  /** Same ids, and every profile local or remote as before. */
  predicate SameHomes(profiles: ProfileTable, profiles': ProfileTable) {
    && profiles'.Keys == profiles.Keys
    && (forall p {:trigger profiles'[p].IsLocal()} :: p in profiles ==> profiles'[p].IsLocal() == profiles[p].IsLocal())
  }

  predicate AllHomesConsistent(profiles: ProfileTable) {
    forall p {:trigger HomeConsistent(profiles[p])} :: p in profiles ==> HomeConsistent(profiles[p])
  }

  // A profile is added

  lemma RowsWithProfile(rows: PostRows, depth: map<PostId, nat>, profiles: ProfileTable, emojis: EmojiTable, id: ProfileId, profile: Profile)
    requires PostRowsOk(rows, depth, profiles, emojis) && id !in profiles
    ensures PostRowsOk(rows, depth, profiles[id := profile], emojis)
    ensures AuthoredBy(rows.posts, id) == {}
  {
  }

  lemma CountersWithProfile(rows: PostRows, counters: PostCounters, profiles: ProfileTable, id: ProfileId, profile: Profile)
    requires PostCountersOk(rows, counters, profiles) && id !in profiles && AuthoredBy(rows.posts, id) == {}
    ensures PostCountersOk(rows, counters.(authored := counters.authored[id := 0]), profiles[id := profile])
  {
    var authored := counters.authored[id := 0];
    forall a | a in authored ensures IsCounter(authored[a]) && authored[a] == |AuthoredBy(rows.posts, a)| {
      assert a != id ==> counters.authored[a] == |AuthoredBy(rows.posts, a)|;
    }
  }

  function SocialWithProfile(social: Social, id: ProfileId): Social {
    social.(followers := social.followers[id := 0], following := social.following[id := 0], subscribers := social.subscribers[id := 0])
  }

  lemma IncomingWithProfile(profiles: ProfileTable, relationships: set<Relationship>, kind: RelationshipType, counts: ProfileCounts,
                            id: ProfileId, profile: Profile)
    requires RelationshipsOk(profiles, relationships) && id !in profiles
    requires CountsIncoming(profiles, relationships, kind, counts)
    ensures CountsIncoming(profiles[id := profile], relationships, kind, counts[id := 0])
  {
    assert Incoming(relationships, id, kind) == {};
    var counts' := counts[id := 0];
    forall p | p in counts' ensures IsCounter(counts'[p]) && counts'[p] == |Incoming(relationships, p, kind)| {
      assert p != id ==> counts[p] == |Incoming(relationships, p, kind)|;
    }
  }

  lemma OutgoingWithProfile(profiles: ProfileTable, relationships: set<Relationship>, kind: RelationshipType, counts: ProfileCounts,
                            id: ProfileId, profile: Profile)
    requires RelationshipsOk(profiles, relationships) && id !in profiles
    requires CountsOutgoing(profiles, relationships, kind, counts)
    ensures CountsOutgoing(profiles[id := profile], relationships, kind, counts[id := 0])
  {
    assert Outgoing(relationships, id, kind) == {};
    var counts' := counts[id := 0];
    forall p | p in counts' ensures IsCounter(counts'[p]) && counts'[p] == |Outgoing(relationships, p, kind)| {
      assert p != id ==> counts[p] == |Outgoing(relationships, p, kind)|;
    }
  }

  lemma SocialStaysOk(social: Social, profiles: ProfileTable, id: ProfileId, profile: Profile)
    requires SocialOk(social, profiles) && id !in profiles
    ensures SocialOk(SocialWithProfile(social, id), profiles[id := profile])
  {
    IncomingWithProfile(profiles, social.relationships, Follow, social.followers, id, profile);
    OutgoingWithProfile(profiles, social.relationships, Follow, social.following, id, profile);
    IncomingWithProfile(profiles, social.relationships, Subscription, social.subscribers, id, profile);
  }

  lemma EmojisWithProfile(emoji: EmojiRows, profiles: ProfileTable, id: ProfileId, profile: Profile)
    requires EmojisOk(emoji, profiles) && id !in profiles
    ensures EmojisOk(emoji.(cache := emoji.cache[id := []]), profiles[id := profile])
  {
  }

  // A profile changes, and stays where it is

  lemma RowsKeepHomes(rows: PostRows, depth: map<PostId, nat>, profiles: ProfileTable, profiles': ProfileTable, emojis: EmojiTable)
    requires PostRowsOk(rows, depth, profiles, emojis) && SameHomes(profiles, profiles')
    ensures PostRowsOk(rows, depth, profiles', emojis)
  {
  }

  lemma IncomingKeepsHomes(profiles: ProfileTable, profiles': ProfileTable, relationships: set<Relationship>,
                           kind: RelationshipType, counts: ProfileCounts)
    requires CountsIncoming(profiles, relationships, kind, counts) && profiles'.Keys == profiles.Keys
    ensures CountsIncoming(profiles', relationships, kind, counts)
  {
    forall p | p in counts ensures IsCounter(counts[p]) && counts[p] == |Incoming(relationships, p, kind)| {
      assert counts[p] == |Incoming(relationships, p, kind)|;
    }
  }

  lemma OutgoingKeepsHomes(profiles: ProfileTable, profiles': ProfileTable, relationships: set<Relationship>,
                           kind: RelationshipType, counts: ProfileCounts)
    requires CountsOutgoing(profiles, relationships, kind, counts) && profiles'.Keys == profiles.Keys
    ensures CountsOutgoing(profiles', relationships, kind, counts)
  {
    forall p | p in counts ensures IsCounter(counts[p]) && counts[p] == |Outgoing(relationships, p, kind)| {
      assert counts[p] == |Outgoing(relationships, p, kind)|;
    }
  }

  lemma SocialKeepsHomes(social: Social, profiles: ProfileTable, profiles': ProfileTable)
    requires SocialOk(social, profiles) && SameHomes(profiles, profiles')
    ensures SocialOk(social, profiles')
  {
    IncomingKeepsHomes(profiles, profiles', social.relationships, Follow, social.followers);
    OutgoingKeepsHomes(profiles, profiles', social.relationships, Follow, social.following);
    IncomingKeepsHomes(profiles, profiles', social.relationships, Subscription, social.subscribers);
  }

  lemma CountersKeepHomes(rows: PostRows, counters: PostCounters, profiles: ProfileTable, profiles': ProfileTable)
    requires PostCountersOk(rows, counters, profiles) && SameHomes(profiles, profiles')
    ensures PostCountersOk(rows, counters, profiles')
  {
    var counts := counters.authored;
    forall a | a in counts ensures IsCounter(counts[a]) && counts[a] == |AuthoredBy(rows.posts, a)| {
      assert counts[a] == |AuthoredBy(rows.posts, a)|;
    }
  }

  lemma EmojisKeepHomes(emoji: EmojiRows, profiles: ProfileTable, profiles': ProfileTable)
    requires EmojisOk(emoji, profiles) && SameHomes(profiles, profiles')
    ensures EmojisOk(emoji, profiles')
  {
  }

  /** A successful `update_profile` leaves every profile where it was. */
  lemma ChangeKeepsHomes(profiles: ProfileTable, id: ProfileId, actorId: Option<string>, avatar: Option<string>, banner: Option<string>)
    requires AllHomesConsistent(profiles)
    requires ChangeProfile(profiles, id, actorId, avatar, banner).Success?
    ensures SameHomes(profiles, ChangeProfile(profiles, id, actorId, avatar, banner).value)
    ensures AllHomesConsistent(ChangeProfile(profiles, id, actorId, avatar, banner).value)
  {
    assert HomeConsistent(profiles[id]);
  }

  /** Everything that refers to profiles survives a change that keeps their homes. */
  lemma TablesKeepHomes(rows: PostRows, counters: PostCounters, depth: map<PostId, nat>, emojis: EmojiTable, social: Social,
                        profiles: ProfileTable, profiles': ProfileTable)
    requires PostRowsOk(rows, depth, profiles, emojis) && PostCountersOk(rows, counters, profiles) && SocialOk(social, profiles)
    requires SameHomes(profiles, profiles')
    ensures PostRowsOk(rows, depth, profiles', emojis) && PostCountersOk(rows, counters, profiles') && SocialOk(social, profiles')
  {
    RowsKeepHomes(rows, depth, profiles, profiles', emojis);
    CountersKeepHomes(rows, counters, profiles, profiles');
    SocialKeepsHomes(social, profiles, profiles');
  }

  function Changed(profile: Profile, actorId: Option<string>, avatar: Option<string>, banner: Option<string>): Profile {
    profile.(actorId := actorId, avatar := avatar, banner := banner)
  }

  /** Exactly when `update_profile` succeeds. */
  predicate CanChange(profiles: ProfileTable, emojis: EmojiTable, id: ProfileId,
                      actorId: Option<string>, avatar: Option<string>, banner: Option<string>, emojiIds: seq<EmojiId>)
  {
    && id in profiles
    && HomeConsistent(Changed(profiles[id], actorId, avatar, banner))
    && !ProfileCollides(profiles, id, Changed(profiles[id], actorId, avatar, banner))
    && AllPresent(emojiIds, emojis.Keys)
  }

  function ChangedIn(profiles: ProfileTable, id: ProfileId, actorId: Option<string>, avatar: Option<string>, banner: Option<string>)
    : ProfileTable
    requires id in profiles
  {
    profiles[id := Changed(profiles[id], actorId, avatar, banner)]
  }

  /** Actor and images are new, everything else and everyone else is as before. */
  predicate ProfileChanged(before: ProfileTable, after: ProfileTable, id: ProfileId,
                           actorId: Option<string>, avatar: Option<string>, banner: Option<string>)
  {
    && id in before && after.Keys == before.Keys
    && after[id].username == before[id].username && after[id].hostname == before[id].hostname
    && after[id].actorId == actorId && after[id].avatar == avatar && after[id].banner == banner
    && (forall p :: p in before && p != id ==> after[p] == before[p])
  }

  lemma ChangedAsGiven(profiles: ProfileTable, id: ProfileId, actorId: Option<string>, avatar: Option<string>, banner: Option<string>)
    requires id in profiles
    ensures ProfileChanged(profiles, ChangedIn(profiles, id, actorId, avatar, banner), id, actorId, avatar, banner)
  {
  }

  /** The statements of `update_profile`. */
  method UpdateProfileRow(profiles: ProfileTable, emoji: EmojiRows, id: ProfileId,
                          actorId: Option<string>, avatar: Option<string>, banner: Option<string>, emojiIds: seq<EmojiId>)
    returns (r: Result<(ProfileTable, EmojiRows)>)
    requires EmojisOk(emoji, profiles) && AllHomesConsistent(profiles)
    ensures r.Success? <==> CanChange(profiles, emoji.emojis, id, actorId, avatar, banner, emojiIds)
    ensures r.Success? ==>
              && r.value.0 == ChangedIn(profiles, id, actorId, avatar, banner)
              && SameHomes(profiles, r.value.0) && AllHomesConsistent(r.value.0)
              && r.value.1.emojis == emoji.emojis
              && r.value.1.profileEmojis == Using(emoji.profileEmojis, id, emojiIds)
              && EmojisOk(r.value.1, r.value.0)
  {
    var profiles' :- ChangeProfile(profiles, id, actorId, avatar, banner);
    ChangeKeepsHomes(profiles, id, actorId, avatar, banner);
    EmojisKeepHomes(emoji, profiles, profiles');
    var emoji' :- SetProfileEmojis(emoji, profiles', id, emojiIds);
    r := Success((profiles', emoji'));
  }

  /** Exactly when `create_profile` succeeds. */
  predicate CanInsert(profiles: ProfileTable, emojis: EmojiTable, id: ProfileId, profile: Profile, emojiIds: seq<EmojiId>) {
    && HomeConsistent(profile) && id !in profiles && !ProfileCollides(profiles, id, profile)
    && AllPresent(emojiIds, emojis.Keys)
  }

  /** Names without `@` are told apart by user name and host. */
  lemma SameAcct(a: Profile, b: Profile)
    requires '@' !in a.username && '@' !in b.username
    ensures Acct(a) == Acct(b) <==> a.username == b.username && a.hostname == b.hostname
  {
    if a.hostname.Some? {
      SplitFirst(a.username, a.hostname.value, '@');
      assert '@' in a.username + ['@'] + a.hostname.value;
      assert Acct(a) == a.username + ['@'] + a.hostname.value;
      assert Split(Acct(a), '@')[0] == a.username;
    }
    if b.hostname.Some? {
      SplitFirst(b.username, b.hostname.value, '@');
      assert Acct(b) == b.username + ['@'] + b.hostname.value;
      assert Split(Acct(b), '@')[0] == b.username;
    }
    if Acct(a) == Acct(b) && a.hostname.Some? && b.hostname.Some? {
      assert a.username == b.username;
      assert a.hostname.value == Acct(a)[|a.username| + 1..];
      assert b.hostname.value == Acct(b)[|b.username| + 1..];
    }
  }

  /** When a profile can be created, said of the table. */
  lemma InsertCondition(profiles: ProfileTable, emojis: EmojiTable, id: ProfileId, profile: Profile, emojiIds: seq<EmojiId>)
    requires '@' !in profile.username && forall q :: q in profiles ==> '@' !in profiles[q].username
    ensures CanInsert(profiles, emojis, id, profile, emojiIds) <==>
              && (profile.hostname == None <==> profile.actorId == None) && id !in profiles
              && (forall q :: q in profiles ==>
                    && (profiles[q].username != profile.username || profiles[q].hostname != profile.hostname)
                    && (profile.actorId != None ==> profiles[q].actorId != profile.actorId))
              && NoDuplicates(emojiIds) && forall e :: e in emojiIds ==> e in emojis
  {
    forall q | q in profiles
      ensures Acct(profiles[q]) == Acct(profile) <==> profiles[q].username == profile.username && profiles[q].hostname == profile.hostname
    {
      SameAcct(profiles[q], profile);
    }
  }

  /** The statements of `create_profile`. */
  method CreateProfileRow(profiles: ProfileTable, emoji: EmojiRows, id: ProfileId, profile: Profile, emojiIds: seq<EmojiId>)
    returns (r: Result<(ProfileTable, EmojiRows)>)
    requires EmojisOk(emoji, profiles) && AllHomesConsistent(profiles)
    ensures r.Success? <==> CanInsert(profiles, emoji.emojis, id, profile, emojiIds)
    ensures r.Success? ==>
              && r.value.0 == profiles[id := profile] && AllHomesConsistent(r.value.0)
              && r.value.1.emojis == emoji.emojis
              && r.value.1.profileEmojis == Using(emoji.profileEmojis, id, emojiIds)
              && EmojisOk(r.value.1, r.value.0)
  {
    var profiles' :- InsertProfile(profiles, id, profile);
    EmojisWithProfile(emoji, profiles, id, profile);
    var emoji' :- SetProfileEmojis(emoji.(cache := emoji.cache[id := []]), profiles', id, emojiIds);
    assert AllHomesConsistent(profiles') by {
      forall p | p in profiles' ensures HomeConsistent(profiles'[p]) {
        assert p != id ==> HomeConsistent(profiles[p]);
      }
    }
    r := Success((profiles', emoji'));
  }

  /** A new profile, counted by zeros, leaves all other tables valid. */
  lemma TablesWithProfile(rows: PostRows, counters: PostCounters, depth: map<PostId, nat>, emojis: EmojiTable, social: Social,
                          profiles: ProfileTable, id: ProfileId, profile: Profile)
    requires PostRowsOk(rows, depth, profiles, emojis) && PostCountersOk(rows, counters, profiles) && SocialOk(social, profiles)
    requires id !in profiles
    ensures PostRowsOk(rows, depth, profiles[id := profile], emojis)
    ensures PostCountersOk(rows, counters.(authored := counters.authored[id := 0]), profiles[id := profile])
    ensures SocialOk(SocialWithProfile(social, id), profiles[id := profile])
  {
    RowsWithProfile(rows, depth, profiles, emojis, id, profile);
    CountersWithProfile(rows, counters, profiles, id, profile);
    SocialStaysOk(social, profiles, id, profile);
  }
}
