/** The tables of the database and the invariants of their rows. Each table is a value; the
    counter columns of `post` and `actor_profile` are maps of their own, so the rows a
    counter summarises never depend on the counter. */
module Schema {
  import opened Collections
  import opened PostGraph

  datatype AttachmentId = AttachmentId(uuid: nat)
  datatype RequestId = RequestId(uuid: nat)
  datatype EmojiId = EmojiId(uuid: nat)

  /** `actorId` is None for a local profile (`actor_json IS NULL`). */
  datatype Profile = Profile(
    username: string,
    hostname: Option<string>,
    actorId: Option<string>,
    avatar: Option<string>,
    banner: Option<string>)
  {
    predicate IsLocal() {
      actorId.None?
    }
  }

  datatype Reaction = Reaction(author: ProfileId, post: PostId)
  datatype Mention = Mention(post: PostId, profile: ProfileId)
  datatype PostTag = PostTag(post: PostId, name: string)
  datatype PostLink = PostLink(source: PostId, target: PostId)
  datatype PostEmoji = PostEmoji(post: PostId, emoji: EmojiId)
  datatype ProfileEmoji = ProfileEmoji(profile: ProfileId, emoji: EmojiId)

  datatype Attachment = Attachment(
    owner: ProfileId,
    fileName: string,
    ipfsCid: Option<string>,
    post: Option<PostId>,
    createdAt: int)

  datatype Emoji = Emoji(name: string, hostname: Option<string>, objectId: Option<string>, fileName: string, updatedAt: int)
  datatype CachedEmoji = CachedEmoji(id: EmojiId, emoji: Emoji)

  datatype RelationshipType = Follow | Subscription | HideReposts | HideReplies | Mute
  datatype Relationship = Relationship(source: ProfileId, target: ProfileId, kind: RelationshipType)

  function FollowRow(source: ProfileId, target: ProfileId): Relationship {
    Relationship(source, target, Follow)
  }

  datatype RequestStatus = Pending | Accepted | Rejected
  datatype FollowRequest = FollowRequest(
    source: ProfileId,
    target: ProfileId,
    activityId: Option<string>,
    status: RequestStatus)

  type ProfileTable = map<ProfileId, Profile>
  type AttachmentTable = map<AttachmentId, Attachment>
  type RequestTable = map<RequestId, FollowRequest>
  type EmojiTable = map<EmojiId, Emoji>
  type LikeIds = map<Reaction, string> // `post_reaction.activity_id` where it is not NULL
  type PostCounts = map<PostId, int>
  type ProfileCounts = map<ProfileId, int>

  /** `post` without its counters, and the tables that reference it. */
  datatype PostRows = PostRows(
    posts: PostTable,
    reactions: set<Reaction>,
    likeIds: LikeIds,
    mentions: set<Mention>,
    tags: set<PostTag>,
    links: set<PostLink>,
    postEmojis: set<PostEmoji>,
    attachments: AttachmentTable)

  /** The counters of `post`, and `actor_profile.post_count`. */
  datatype PostCounters = PostCounters(
    replies: PostCounts,
    reposts: PostCounts,
    reactions: PostCounts,
    authored: ProfileCounts)

  /** `relationship`, `follow_request` and the other counters of `actor_profile`. */
  datatype Social = Social(
    relationships: set<Relationship>,
    requests: RequestTable,
    followers: ProfileCounts,
    following: ProfileCounts,
    subscribers: ProfileCounts)

  /** `emoji`, `profile_emoji` and the cached join `actor_profile.emojis`. */
  datatype EmojiRows = EmojiRows(
    emojis: EmojiTable,
    profileEmojis: set<ProfileEmoji>,
    cache: map<ProfileId, seq<CachedEmoji>>)

  /** `INTEGER NOT NULL CHECK (counter >= 0)` */
  predicate IsCounter(n: int) {
    0 <= n <= 0x7FFF_FFFF
  }

  // Rows summarised by counters

  function ReactionsTo(reactions: set<Reaction>, p: PostId): set<Reaction> {
    set r | r in reactions && r.post == p
  }

  function Incoming(relationships: set<Relationship>, p: ProfileId, kind: RelationshipType): set<Relationship> {
    set r | r in relationships && r.target == p && r.kind == kind
  }

  function Outgoing(relationships: set<Relationship>, p: ProfileId, kind: RelationshipType): set<Relationship> {
    set r | r in relationships && r.source == p && r.kind == kind
  }

  predicate CountsReplies(t: PostTable, counts: PostCounts) {
    && counts.Keys == t.Keys
    && (forall p {:trigger Replies(t, p)} :: p in counts ==> IsCounter(counts[p]) && counts[p] == |Replies(t, p)|)
  }

  predicate CountsReposts(t: PostTable, counts: PostCounts) {
    && counts.Keys == t.Keys
    && (forall p {:trigger Reposts(t, p)} :: p in counts ==> IsCounter(counts[p]) && counts[p] == |Reposts(t, p)|)
  }

  predicate CountsReactions(t: PostTable, reactions: set<Reaction>, counts: PostCounts) {
    && counts.Keys == t.Keys
    && (forall p {:trigger ReactionsTo(reactions, p)} :: p in counts ==> IsCounter(counts[p]) && counts[p] == |ReactionsTo(reactions, p)|)
  }

  predicate CountsPosts(t: PostTable, profiles: ProfileTable, counts: ProfileCounts) {
    && counts.Keys == profiles.Keys
    && (forall a {:trigger AuthoredBy(t, a)} :: a in counts ==> IsCounter(counts[a]) && counts[a] == |AuthoredBy(t, a)|)
  }

  predicate CountsIncoming(profiles: ProfileTable, relationships: set<Relationship>, kind: RelationshipType, counts: ProfileCounts) {
    && counts.Keys == profiles.Keys
    && (forall p {:trigger Incoming(relationships, p, kind)} :: p in counts ==>
          IsCounter(counts[p]) && counts[p] == |Incoming(relationships, p, kind)|)
  }

  predicate CountsOutgoing(profiles: ProfileTable, relationships: set<Relationship>, kind: RelationshipType, counts: ProfileCounts) {
    && counts.Keys == profiles.Keys
    && (forall p {:trigger Outgoing(relationships, p, kind)} :: p in counts ==>
          IsCounter(counts[p]) && counts[p] == |Outgoing(relationships, p, kind)|)
  }

  // Row invariants: foreign keys, UNIQUE constraints, and the consistency checks of Post::new

  /** `UNIQUE (author_id, repost_of_id)` and `UNIQUE (object_id)` for two rows. */
  predicate Apart(p: Post, q: Post) {
    && (p.repostOf.Some? && p.repostOf == q.repostOf ==> p.author != q.author)
    && (p.objectId.Some? ==> p.objectId != q.objectId)
  }

  predicate UniquePosts(t: PostTable) {
    forall p, q {:trigger Apart(t[p], t[q])} :: p in t && q in t && p != q ==> Apart(t[p], t[q])
  }

  /** What `Post::new` demands of a row on its own: a repost carries no content of its own,
      and exactly the posts of remote authors have an object id. */
  predicate RowConsistent(row: Post, authorIsLocal: bool) {
    && (authorIsLocal <==> row.objectId.None?)
    && (row.repostOf.Some? ==> row.content == "" && !row.isSensitive && row.inReplyTo.None? && row.ipfsCid.None?)
  }

  predicate AuthorsOk(t: PostTable, profiles: ProfileTable) {
    forall p :: p in t ==> t[p].author in profiles && RowConsistent(t[p], profiles[t[p].author].IsLocal())
  }

  /** `p` is stored and may have related rows: `Post::new` rejects a repost that has any. */
  predicate Original(t: PostTable, p: PostId) {
    p in t && t[p].repostOf.None?
  }

  predicate ReactionsOk(reactions: set<Reaction>, t: PostTable, profiles: ProfileTable) {
    forall r :: r in reactions ==> r.author in profiles && Original(t, r.post)
  }

  predicate LikesApart(likeIds: LikeIds, a: Reaction, b: Reaction)
    requires a in likeIds && b in likeIds
  {
    a != b ==> likeIds[a] != likeIds[b]
  }

  /** `UNIQUE (activity_id)` */
  predicate LikeIdsOk(likeIds: LikeIds, reactions: set<Reaction>) {
    && likeIds.Keys <= reactions
    && (forall a, b {:trigger LikesApart(likeIds, a, b)} :: a in likeIds && b in likeIds ==> LikesApart(likeIds, a, b))
  }

  predicate MentionsOk(mentions: set<Mention>, t: PostTable, profiles: ProfileTable) {
    forall m :: m in mentions ==> Original(t, m.post) && m.profile in profiles
  }

  predicate TagsOk(tags: set<PostTag>, t: PostTable) {
    forall g :: g in tags ==> Original(t, g.post)
  }

  predicate LinksOk(links: set<PostLink>, t: PostTable) {
    forall l :: l in links ==> Original(t, l.source) && l.target in t && l.source != l.target
  }

  predicate PostEmojisOk(postEmojis: set<PostEmoji>, t: PostTable, emojis: EmojiTable) {
    forall e :: e in postEmojis ==> Original(t, e.post) && e.emoji in emojis
  }

  predicate AttachmentsOk(attachments: AttachmentTable, t: PostTable, profiles: ProfileTable) {
    forall a {:trigger attachments[a]} :: a in attachments ==>
      && attachments[a].owner in profiles
      && (attachments[a].post.Some? ==>
            Original(t, attachments[a].post.value) && t[attachments[a].post.value].author == attachments[a].owner)
  }

  predicate RelationshipsOk(profiles: ProfileTable, relationships: set<Relationship>) {
    forall r :: r in relationships ==> r.source in profiles && r.target in profiles && r.source != r.target
  }

  predicate Requested(requests: RequestTable, source: ProfileId, target: ProfileId) {
    exists i :: i in requests && requests[i].source == source && requests[i].target == target
  }

  /** `UNIQUE (source_id, target_id)` and `UNIQUE (activity_id)` for two rows. */
  predicate RequestsApart(p: FollowRequest, q: FollowRequest) {
    && (p.source != q.source || p.target != q.target)
    && (p.activityId.Some? ==> p.activityId != q.activityId)
  }

  predicate RequestsOk(profiles: ProfileTable, requests: RequestTable) {
    && (forall i {:trigger requests[i]} :: i in requests ==>
          requests[i].source in profiles && requests[i].target in profiles && requests[i].source != requests[i].target)
    && (forall i, j {:trigger RequestsApart(requests[i], requests[j])} :: i in requests && j in requests && i != j ==>
          RequestsApart(requests[i], requests[j]))
  }

  /** The follow lifecycle: a request joins a local and a remote profile; once accepted the
      Follow row is there; a Follow of a remote profile is backed by a request; no Follow
      joins two remote profiles. */
  predicate Lifecycle(profiles: ProfileTable, relationships: set<Relationship>, requests: RequestTable)
    requires RelationshipsOk(profiles, relationships) && RequestsOk(profiles, requests)
  {
    && (forall i {:trigger requests[i]} :: i in requests ==>
          && profiles[requests[i].source].IsLocal() != profiles[requests[i].target].IsLocal()
          && (requests[i].status.Accepted? ==>
                Relationship(requests[i].source, requests[i].target, Follow) in relationships))
    && (forall r :: r in relationships && r.kind.Follow? ==>
          && (profiles[r.source].IsLocal() || profiles[r.target].IsLocal())
          && (!profiles[r.target].IsLocal() ==> Requested(requests, r.source, r.target)))
  }

  /** The rows of the join of `profile_emoji` with `emoji` for one profile. */
  function JoinedEmojis(emojis: EmojiTable, profileEmojis: set<ProfileEmoji>, p: ProfileId): set<CachedEmoji> {
    set e | e in emojis && ProfileEmoji(p, e) in profileEmojis :: CachedEmoji(e, emojis[e])
  }

  /** The cached list is the join, as a JSON array without repetitions in any order. */
  predicate CacheOk(cache: seq<CachedEmoji>, emojis: EmojiTable, profileEmojis: set<ProfileEmoji>, p: ProfileId) {
    && NoDuplicates(cache)
    && Elements(cache) == JoinedEmojis(emojis, profileEmojis, p)
  }

  predicate ProfileEmojisOk(profiles: ProfileTable, emojis: EmojiTable, profileEmojis: set<ProfileEmoji>) {
    forall e :: e in profileEmojis ==> e.profile in profiles && e.emoji in emojis
  }

  predicate CachesOk(profiles: ProfileTable, emojis: EmojiTable, profileEmojis: set<ProfileEmoji>,
                     cache: map<ProfileId, seq<CachedEmoji>>)
  {
    && cache.Keys == profiles.Keys
    && (forall p {:trigger cache[p]} :: p in cache ==> CacheOk(cache[p], emojis, profileEmojis, p))
  }

  // Files and IPFS objects the rows refer to (content hashes: names are shared)

  function AttachedFiles(attachments: AttachmentTable): set<string> {
    set a | a in attachments :: attachments[a].fileName
  }

  function ProfileFiles(profiles: ProfileTable): set<string> {
    (set p | p in profiles && profiles[p].avatar.Some? :: profiles[p].avatar.value)
    + (set p | p in profiles && profiles[p].banner.Some? :: profiles[p].banner.value)
  }

  function EmojiFiles(emojis: EmojiTable): set<string> {
    set e | e in emojis :: emojis[e].fileName
  }

  function ReferencedFiles(attachments: AttachmentTable, profiles: ProfileTable, emojis: EmojiTable): set<string> {
    AttachedFiles(attachments) + ProfileFiles(profiles) + EmojiFiles(emojis)
  }

  function ReferencedObjects(attachments: AttachmentTable, t: PostTable): set<string> {
    (set a | a in attachments && attachments[a].ipfsCid.Some? :: attachments[a].ipfsCid.value)
    + (set p | p in t && t[p].ipfsCid.Some? :: t[p].ipfsCid.value)
  }

  /** An attachment, an avatar, a banner or an emoji has this file. */
  predicate FileInUse(attachments: AttachmentTable, profiles: ProfileTable, emojis: EmojiTable, f: string) {
    || (exists a :: a in attachments && attachments[a].fileName == f)
    || (exists p :: p in profiles && profiles[p].avatar == Some(f))
    || (exists p :: p in profiles && profiles[p].banner == Some(f))
    || (exists e :: e in emojis && emojis[e].fileName == f)
  }

  predicate ObjectInUse(attachments: AttachmentTable, t: PostTable, c: string) {
    || (exists a :: a in attachments && attachments[a].ipfsCid == Some(c))
    || (exists p :: p in t && t[p].ipfsCid == Some(c))
  }

  lemma ReferencedIsInUse(attachments: AttachmentTable, profiles: ProfileTable, emojis: EmojiTable, t: PostTable, x: string)
    ensures x in ReferencedFiles(attachments, profiles, emojis) <==> FileInUse(attachments, profiles, emojis, x)
    ensures x in ReferencedObjects(attachments, t) <==> ObjectInUse(attachments, t, x)
  {
  }

  // ON DELETE CASCADE from deleted posts to the rows that reference them

  function AttachmentsWithout(attachments: AttachmentTable, gone: set<PostId>): AttachmentTable {
    map a | a in attachments && (attachments[a].post.Some? ==> attachments[a].post.value !in gone) :: attachments[a]
  }

  function ReactionsWithout(reactions: set<Reaction>, gone: set<PostId>): set<Reaction> {
    set r | r in reactions && r.post !in gone
  }

  function RowsWithout(rows: PostRows, gone: set<PostId>): PostRows {
    PostRows(
      rows.posts - gone,
      ReactionsWithout(rows.reactions, gone),
      (map r | r in rows.likeIds && r.post !in gone :: rows.likeIds[r]),
      (set m | m in rows.mentions && m.post !in gone),
      (set g | g in rows.tags && g.post !in gone),
      (set l | l in rows.links && l.source !in gone && l.target !in gone),
      (set e | e in rows.postEmojis && e.post !in gone),
      AttachmentsWithout(rows.attachments, gone))
  }

  /** The posts `gone` and whatever refers to them are deleted; every other row stays as it was. */
  ghost predicate OnlyGone(before: PostRows, after: PostRows, gone: set<PostId>) {
    && (forall p {:trigger p in after.posts} :: p in after.posts <==> p in before.posts && p !in gone)
    && (forall p {:trigger after.posts[p]} :: p in after.posts ==> after.posts[p] == before.posts[p])
    && (forall r {:trigger r in after.reactions} :: r in after.reactions <==> r in before.reactions && r.post !in gone)
    && (forall r {:trigger r in after.likeIds} :: r in after.likeIds <==> r in before.likeIds && r.post !in gone)
    && (forall r {:trigger after.likeIds[r]} :: r in after.likeIds ==> after.likeIds[r] == before.likeIds[r])
    && (forall m {:trigger m in after.mentions} :: m in after.mentions <==> m in before.mentions && m.post !in gone)
    && (forall g {:trigger g in after.tags} :: g in after.tags <==> g in before.tags && g.post !in gone)
    && (forall l {:trigger l in after.links} :: l in after.links <==> l in before.links && l.source !in gone && l.target !in gone)
    && (forall e {:trigger e in after.postEmojis} :: e in after.postEmojis <==> e in before.postEmojis && e.post !in gone)
    && (forall a {:trigger a in after.attachments} :: a in after.attachments <==>
          a in before.attachments && (before.attachments[a].post == None || before.attachments[a].post.value !in gone))
    && (forall a {:trigger after.attachments[a]} :: a in after.attachments ==> after.attachments[a] == before.attachments[a])
  }

  lemma RemovalIsPointwise(rows: PostRows, gone: set<PostId>)
    ensures OnlyGone(rows, RowsWithout(rows, gone), gone)
  {
  }

  // The invariants of each group of tables

  predicate PostRowsOk(rows: PostRows, depth: map<PostId, nat>, profiles: ProfileTable, emojis: EmojiTable) {
    && Forest(rows.posts, depth)
    && UniquePosts(rows.posts)
    && AuthorsOk(rows.posts, profiles)
    && ReactionsOk(rows.reactions, rows.posts, profiles)
    && LikeIdsOk(rows.likeIds, rows.reactions)
    && MentionsOk(rows.mentions, rows.posts, profiles)
    && TagsOk(rows.tags, rows.posts)
    && LinksOk(rows.links, rows.posts)
    && PostEmojisOk(rows.postEmojis, rows.posts, emojis)
    && AttachmentsOk(rows.attachments, rows.posts, profiles)
  }

  predicate PostCountersOk(rows: PostRows, counters: PostCounters, profiles: ProfileTable) {
    && CountsReplies(rows.posts, counters.replies)
    && CountsReposts(rows.posts, counters.reposts)
    && CountsReactions(rows.posts, rows.reactions, counters.reactions)
    && CountsPosts(rows.posts, profiles, counters.authored)
  }

  predicate SocialOk(social: Social, profiles: ProfileTable) {
    && RelationshipsOk(profiles, social.relationships)
    && RequestsOk(profiles, social.requests)
    && Lifecycle(profiles, social.relationships, social.requests)
    && CountsIncoming(profiles, social.relationships, Follow, social.followers)
    && CountsOutgoing(profiles, social.relationships, Follow, social.following)
    && CountsIncoming(profiles, social.relationships, Subscription, social.subscribers)
  }

  predicate EmojisOk(emoji: EmojiRows, profiles: ProfileTable) {
    && ProfileEmojisOk(profiles, emoji.emojis, emoji.profileEmojis)
    && CachesOk(profiles, emoji.emojis, emoji.profileEmojis, emoji.cache)
  }

  /** Fewer reactions keep their activity ids. */
  lemma FewerLikes(likeIds: LikeIds, reactions: set<Reaction>, likeIds': LikeIds, reactions': set<Reaction>)
    requires LikeIdsOk(likeIds, reactions) && likeIds'.Keys <= likeIds.Keys && likeIds'.Keys <= reactions'
    requires forall r :: r in likeIds' ==> likeIds'[r] == likeIds[r]
    ensures LikeIdsOk(likeIds', reactions')
  {
    forall a, b | a in likeIds' && b in likeIds' ensures LikesApart(likeIds', a, b) {
      assert LikesApart(likeIds, a, b);
    }
  }

  /** Removing a closed set of posts, with the rows that reference them, leaves no dangling
      reference and no edge out of the forest. */
  lemma RowsAfterRemoval(rows: PostRows, depth: map<PostId, nat>, profiles: ProfileTable, emojis: EmojiTable, gone: set<PostId>)
    requires PostRowsOk(rows, depth, profiles, emojis) && Closed(rows.posts, gone)
    ensures PostRowsOk(RowsWithout(rows, gone), depth, profiles, emojis)
  {
    var t := rows.posts;
    ForestWithout(t, depth, gone);
    FewerLikes(rows.likeIds, rows.reactions, RowsWithout(rows, gone).likeIds, RowsWithout(rows, gone).reactions);
    forall p, q | p in t - gone && q in t - gone && p != q ensures Apart((t - gone)[p], (t - gone)[q]) {
      assert Apart(t[p], t[q]);
    }
  }
}
