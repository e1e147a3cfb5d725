/** Custom emojis, and the JSON copy of a profile's emojis kept on its row. */
module EmojiCache {
  import opened Collections
  import opened PostGraph
  import opened Schema
  import opened Posting
  import opened Cleanup

  type CacheTable = map<ProfileId, seq<CachedEmoji>>

  /** `jsonb_agg`: the rows as a list, in no particular order. */
  method AggregateJson(joined: set<CachedEmoji>) returns (list: seq<CachedEmoji>)
    ensures NoDuplicates(list) && Elements(list) == joined
  {
    list := [];
    var rest := joined;
    while rest != {}
      invariant NoDuplicates(list) && rest <= joined && Elements(list) == joined - rest
      decreases |rest|
    {
      var e :| e in rest;
      ElementsAppend(list, e);
      assert e !in Elements(list);
      list, rest := list + [e], rest - {e};
    }
  }

  /** How many elements of a cached list mention the emoji. */
  function Mentions(cached: seq<CachedEmoji>, id: EmojiId): nat {
    if cached == [] then 0 else (if cached[0].id == id then 1 else 0) + Mentions(cached[1..], id)
  }

  lemma {:induction false} MentionsFromJoin(cached: seq<CachedEmoji>, id: EmojiId)
    requires NoDuplicates(cached)
    requires forall x, y :: x in cached && y in cached && x.id == y.id ==> x == y
    ensures Mentions(cached, id) == if exists x :: x in cached && x.id == id then 1 else 0
  {
    if cached != [] {
      var tail := cached[1..];
      assert forall i :: 0 <= i < |tail| ==> tail[i] == cached[i + 1];
      assert forall x :: x in tail ==> x in cached;
      MentionsFromJoin(tail, id);
      assert cached == [cached[0]] + tail;
      if cached[0].id == id {
        forall x | x in tail ensures x.id != id {
          var i :| 0 <= i < |tail| && tail[i] == x;
          assert cached[0] != cached[i + 1];
        }
      }
    }
  }

  /** The statement of `update_emoji_caches` for one profile: the CROSS JOIN with the cached
      elements that mention the emoji repeats every row of the join once per such element. */
  method RefreshOne(cached: seq<CachedEmoji>, joined: set<CachedEmoji>, id: EmojiId) returns (list: seq<CachedEmoji>)
    requires NoDuplicates(cached)
    requires forall x, y :: x in cached && y in cached && x.id == y.id ==> x == y
    ensures if exists x :: x in cached && x.id == id then NoDuplicates(list) && Elements(list) == joined else list == cached
  {
    MentionsFromJoin(cached, id);
    if Mentions(cached, id) == 0 {
      return cached;
    }
    list := [];
    var done := 0;
    while done < Mentions(cached, id)
      invariant 0 <= done <= 1
      invariant done == 0 ==> list == []
      invariant done == 1 ==> NoDuplicates(list) && Elements(list) == joined
    {
      var copy := AggregateJson(joined);
      assert list + copy == copy;
      list, done := list + copy, done + 1;
    }
  }

  /** The emoji and profile_emoji rows changed only in what they say about emoji `id`. */
  predicate OnlyEmojiChanged(emojis: EmojiTable, profileEmojis: set<ProfileEmoji>,
                             emojis': EmojiTable, profileEmojis': set<ProfileEmoji>, id: EmojiId)
  {
    && (forall e :: e in profileEmojis' ==> e in profileEmojis)
    && (forall e :: e in profileEmojis && e.emoji != id ==> e in profileEmojis')
    && (forall e :: e in emojis && e != id ==> e in emojis' && emojis'[e] == emojis[e])
    && (forall e :: e in emojis' && e != id ==> e in emojis)
  }

  /** The cached list of `p` mentions the emoji exactly when `p` uses it, so refreshing only
      the profiles whose cache mentions it is enough. */
  lemma CacheMentionsUse(cached: seq<CachedEmoji>, emojis: EmojiTable, profileEmojis: set<ProfileEmoji>, p: ProfileId, id: EmojiId)
    requires CacheOk(cached, emojis, profileEmojis, p)
    ensures (exists x :: x in cached && x.id == id) <==> id in emojis && ProfileEmoji(p, id) in profileEmojis
    ensures forall x, y :: x in cached && y in cached && x.id == y.id ==> x == y
  {
    forall x | x in cached ensures x in JoinedEmojis(emojis, profileEmojis, p) {
      assert x in Elements(cached);
    }
    if id in emojis && ProfileEmoji(p, id) in profileEmojis {
      assert CachedEmoji(id, emojis[id]) in JoinedEmojis(emojis, profileEmojis, p);
      assert CachedEmoji(id, emojis[id]) in Elements(cached);
    }
  }

  lemma UnusedKeepsJoin(emojis: EmojiTable, profileEmojis: set<ProfileEmoji>,
                        emojis': EmojiTable, profileEmojis': set<ProfileEmoji>, id: EmojiId, p: ProfileId)
    requires OnlyEmojiChanged(emojis, profileEmojis, emojis', profileEmojis', id)
    requires ProfileEmoji(p, id) !in profileEmojis
    ensures JoinedEmojis(emojis', profileEmojis', p) == JoinedEmojis(emojis, profileEmojis, p)
  {
  }

  /** `update_emoji_caches` */
  method UpdateEmojiCaches(cache: CacheTable, ghost emojis: EmojiTable, ghost profileEmojis: set<ProfileEmoji>,
                           emojis': EmojiTable, profileEmojis': set<ProfileEmoji>, ghost profiles: ProfileTable, id: EmojiId)
    returns (cache': CacheTable)
    requires ProfileEmojisOk(profiles, emojis, profileEmojis)
    requires CachesOk(profiles, emojis, profileEmojis, cache)
    requires OnlyEmojiChanged(emojis, profileEmojis, emojis', profileEmojis', id)
    ensures CachesOk(profiles, emojis', profileEmojis', cache')
  {
    cache' := cache;
    var todo := cache.Keys;
    while todo != {}
      invariant todo <= cache.Keys == cache'.Keys
      invariant forall p {:trigger cache'[p]} :: p in cache' ==>
                  if p in todo then cache'[p] == cache[p] else CacheOk(cache'[p], emojis', profileEmojis', p)
      decreases |todo|
    {
      var p :| p in todo;
      assert CacheOk(cache[p], emojis, profileEmojis, p);
      CacheMentionsUse(cache[p], emojis, profileEmojis, p, id);
      var list := RefreshOne(cache[p], JoinedEmojis(emojis', profileEmojis', p), id);
      if !(exists x :: x in cache[p] && x.id == id) {
        UnusedKeepsJoin(emojis, profileEmojis, emojis', profileEmojis', id, p);
      }
      cache', todo := cache'[p := list], todo - {p};
    }
  }

  /** `create_profile_emojis` */
  function UseAll(profileEmojis: set<ProfileEmoji>, emojis: EmojiTable, p: ProfileId, ids: seq<EmojiId>): Result<set<ProfileEmoji>> {
    if |set e | e in ids && e in emojis| != |ids| then Failure(NotFound("emoji"))
    else Success(profileEmojis + (set e | e in ids :: ProfileEmoji(p, e)))
  }

  /** The profile_emoji rows once profile `p` uses exactly `ids`. */
  function Using(profileEmojis: set<ProfileEmoji>, p: ProfileId, ids: seq<EmojiId>): set<ProfileEmoji> {
    (set e | e in profileEmojis && e.profile != p) + (set e | e in ids :: ProfileEmoji(p, e))
  }

  /** In valid tables the cached list of a profile shows exactly the emojis it uses, as they are
      now, and each once. */
  lemma CacheShowsUse(emoji: EmojiRows, profiles: ProfileTable, p: ProfileId, id: EmojiId, row: Emoji)
    requires EmojisOk(emoji, profiles) && p in profiles
    ensures CachedEmoji(id, row) in emoji.cache[p] <==>
              id in emoji.emojis && emoji.emojis[id] == row && ProfileEmoji(p, id) in emoji.profileEmojis
    ensures forall i, j :: 0 <= i < j < |emoji.cache[p]| ==> emoji.cache[p][i].id != emoji.cache[p][j].id
  {
    var cached := emoji.cache[p];
    assert CacheOk(cached, emoji.emojis, emoji.profileEmojis, p);
    assert CachedEmoji(id, row) in cached <==> CachedEmoji(id, row) in Elements(cached);
    forall i, j | 0 <= i < j < |cached| ensures cached[i].id != cached[j].id {
      CacheMentionsUse(cached, emoji.emojis, emoji.profileEmojis, p, cached[i].id);
    }
  }

  /** Profile `p` uses exactly `ids`; nobody else's emojis change. */
  ghost predicate UsesExactly(before: set<ProfileEmoji>, after: set<ProfileEmoji>, p: ProfileId, ids: seq<EmojiId>) {
    forall q, e :: ProfileEmoji(q, e) in after <==> if q == p then e in ids else ProfileEmoji(q, e) in before
  }

  lemma UsingIsExact(profileEmojis: set<ProfileEmoji>, p: ProfileId, ids: seq<EmojiId>)
    ensures UsesExactly(profileEmojis, Using(profileEmojis, p, ids), p, ids)
  {
  }

  /** Replace what profile `p` uses by `ids` and rebuild its cache: the last statements of
      `create_profile` and `update_profile`. */
  method SetProfileEmojis(emoji: EmojiRows, ghost profiles: ProfileTable, p: ProfileId, ids: seq<EmojiId>) returns (r: Result<EmojiRows>)
    requires p in profiles && EmojisOk(emoji, profiles)
    ensures r.Success? <==> AllPresent(ids, emoji.emojis.Keys)
    ensures r.Success? ==>
              && r.value.emojis == emoji.emojis
              && r.value.profileEmojis == Using(emoji.profileEmojis, p, ids)
              && EmojisOk(r.value, profiles)
  {
    assert (set e | e in ids && e in emoji.emojis) == (set e | e in ids && e in emoji.emojis.Keys);
    RowCountTest(ids, emoji.emojis.Keys);
    var used :- UseAll((set e | e in emoji.profileEmojis && e.profile != p), emoji.emojis, p, ids);
    var list := AggregateJson(JoinedEmojis(emoji.emojis, used, p));
    var cache' := emoji.cache[p := list];
    forall q | q in cache' ensures CacheOk(cache'[q], emoji.emojis, used, q) {
      if q != p {
        assert CacheOk(emoji.cache[q], emoji.emojis, emoji.profileEmojis, q);
        assert JoinedEmojis(emoji.emojis, used, q) == JoinedEmojis(emoji.emojis, emoji.profileEmojis, q);
      }
    }
    r := Success(EmojiRows(emoji.emojis, used, cache'));
  }

  // create_emoji, update_emoji, delete_emoji. They run without a transaction; the contracts
  // speak of calls that run to completion.

  /** `UNIQUE (emoji_name, hostname)`, where a missing hostname never collides, and
      `UNIQUE (object_id)` */
  predicate EmojiCollides(emojis: EmojiTable, emoji: Emoji) {
    exists e :: e in emojis
                && ((emoji.hostname.Some? && emojis[e].name == emoji.name && emojis[e].hostname == emoji.hostname)
                    || (emoji.objectId.Some? && emojis[e].objectId == emoji.objectId))
  }

  function InsertEmoji(emojis: EmojiTable, id: EmojiId, emoji: Emoji): Result<EmojiTable> {
    if !(emoji.hostname.None? <==> emoji.objectId.None?) then Failure(ConstraintViolation("emoji"))
    else if id in emojis || EmojiCollides(emojis, emoji) then Failure(AlreadyExists("emoji"))
    else Success(emojis[id := emoji])
  }

  lemma NewEmojiKeepsCaches(emoji: EmojiRows, profiles: ProfileTable, id: EmojiId, row: Emoji)
    requires EmojisOk(emoji, profiles) && id !in emoji.emojis
    ensures EmojisOk(emoji.(emojis := emoji.emojis[id := row]), profiles)
  {
  }

  /** The statements of `update_emoji`. */
  method UpdateEmojiRow(emoji: EmojiRows, ghost profiles: ProfileTable, id: EmojiId, fileName: string, updatedAt: int)
    returns (r: Result<EmojiRows>)
    requires EmojisOk(emoji, profiles)
    ensures r.Success? <==> id in emoji.emojis
    ensures r.Success? ==>
              && r.value.emojis == emoji.emojis[id := emoji.emojis[id].(fileName := fileName, updatedAt := updatedAt)]
              && r.value.profileEmojis == emoji.profileEmojis
              && EmojisOk(r.value, profiles)
  {
    if id !in emoji.emojis {
      return Failure(ConstraintViolation("emoji")); // query_one without a row
    }
    var emojis' := emoji.emojis[id := emoji.emojis[id].(fileName := fileName, updatedAt := updatedAt)];
    var cache' := UpdateEmojiCaches(emoji.cache, emoji.emojis, emoji.profileEmojis, emojis', emoji.profileEmojis, profiles, id);
    r := Success(EmojiRows(emojis', emoji.profileEmojis, cache'));
  }

  /** The statements of `delete_emoji` on emojis and caches. */
  method DeleteEmojiRow(emoji: EmojiRows, ghost profiles: ProfileTable, id: EmojiId) returns (r: Result<EmojiRows>)
    requires EmojisOk(emoji, profiles)
    ensures r.Success? <==> id in emoji.emojis
    ensures r.Success? ==>
              && r.value.emojis == emoji.emojis - {id}
              && r.value.profileEmojis == (set e | e in emoji.profileEmojis && e.emoji != id)
              && EmojisOk(r.value, profiles)
  {
    if id !in emoji.emojis {
      return Failure(NotFound("emoji"));
    }
    var emojis' := emoji.emojis - {id};
    var profileEmojis' := set e | e in emoji.profileEmojis && e.emoji != id;
    var cache' := UpdateEmojiCaches(emoji.cache, emoji.emojis, emoji.profileEmojis, emojis', profileEmojis', profiles, id);
    r := Success(EmojiRows(emojis', profileEmojis', cache'));
  }

  lemma RowsWithMoreEmojis(rows: PostRows, depth: map<PostId, nat>, profiles: ProfileTable, emojis: EmojiTable, emojis': EmojiTable)
    requires PostRowsOk(rows, depth, profiles, emojis) && emojis.Keys <= emojis'.Keys
    ensures PostRowsOk(rows, depth, profiles, emojis')
  {
  }

  lemma RowsWithoutEmoji(rows: PostRows, depth: map<PostId, nat>, profiles: ProfileTable, emojis: EmojiTable, id: EmojiId)
    requires PostRowsOk(rows, depth, profiles, emojis)
    ensures PostRowsOk(rows.(postEmojis := (set e | e in rows.postEmojis && e.emoji != id)), depth, profiles, emojis - {id})
  {
  }

  /** The clean-up of `delete_emoji`: its image, if nothing else uses the same file. */
  lemma EmojiFileLost(attachments: AttachmentTable, profiles: ProfileTable, emojis: EmojiTable, id: EmojiId)
    requires id in emojis
    ensures OrphanedFiles(attachments, profiles, emojis - {id}, {emojis[id].fileName})
         == ReferencedFiles(attachments, profiles, emojis) - ReferencedFiles(attachments, profiles, emojis - {id})
  {
    forall f | f in EmojiFiles(emojis) && f !in EmojiFiles(emojis - {id}) ensures f == emojis[id].fileName {
      var e :| e in emojis && emojis[e].fileName == f;
      assert e !in emojis - {id} by {
        assert forall d :: d in emojis - {id} ==> emojis[d].fileName != f;
      }
    }
  }
}
