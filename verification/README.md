# Verified model of the fedimovies federation core

Fedimovies is a federated server. This project models the parts of it in which state, recursion
and retries meet, and proves what they keep:

- **The social-graph store.** Posts with reply, repost and link edges, profiles, relationships,
  follow requests, reactions, emojis and attachments, with seven stored counters and one JSON
  cache that summarise them. `Database.Database` is the store; each of its methods is one
  transaction. An error returns before the assignment that commits, so it rolls back.
  `Service.Step` says what each operation does to the tables, and every state of every run is
  valid: counters equal the rows, caches equal the join, reply and repost edges form a forest,
  follows and follow requests agree.
- **Handlers over the store** (`Handlers`, `Extraneous`, `Thread`): several transactions in a
  row, the clean-up of extraneous posts, and the reply thread with its split into ancestors and
  descendants. `Privacy` joins creating and editing a post with who gets to read it.
- **`import_post`** (`ImportPost`, `Replay`): the worklist that collects a remote thread from
  arbitrary servers, and the replay of what it collected. `ImportExamples` has two concrete runs.
- **The background jobs** (`JobQueue`, `Delivery`, `JobProtocol`): leases, deliveries and
  retries, and the protocol with executors that may stop between any two actions, be slower than
  their leases, and lose the sender of a job. `ProtocolTurn` shows that the executor takes part
  in that protocol; `OrderlyRuns`, `RepeatedSends` and `MissingSenders`
  say when a delivery is repeated and what becomes of an abandoned one.
- **Formats that must undo each other** (`HttpSignature`, `Addresses`, `Audience`) and the
  cursor walk over followers (`Pagination`).

`PostGraph` and `Schema` hold the tables and their invariants; `Counters`, `Posting`,
`ProfileDeletion`, `Profiles`, `EmojiCache`, `Relationships`, `Attachments` and `Cleanup` hold
the statements of the transactions. `Collections` and `Text` are shared helpers.

## Reading the model

- A table is a map or a set. The counter columns are maps of their own, so the rows a counter
  summarises never depend on the counter. A counter column is an `INTEGER` with
  `CHECK (counter >= 0)`: a statement that would leave 0 to 2^31 - 1 fails.
- Cascades, UNIQUE and CHECK constraints are those of `fedimovies-models/migrations/schema.sql`.
- The ghost field `depth` of the store witnesses that reply and repost edges are acyclic.
- Identifiers that the program generates are parameters. One that is taken is an error, or is
  excluded by a precondition that says so; random job ids are modelled by a counter.
- Clocks, the network, signing, digests and date parsing are parameters. The answer to the n-th
  fetch is an arbitrary function of n and the URL; where a result needs that a URL always has
  the same answer, the lemma says so (`Deterministic`).
- `Activity` in the job modules names one call of `enqueue`: all jobs of a delivery share it.

## What the code does not do

Some natural claims are false of the code. For each there is a run in which it fails or the
exact condition under which it holds.

- `import_post` can reach `objects[0]` with nothing collected: exactly when the first object,
  asked for under an unknown remote id, carries the id of an existing local post
  (`ImportPost.FirstObjectMissing`).
- The reverse order is not a valid order for every acyclic thread: a reply that quotes another
  reply to the same post is enough (`ImportExamples.QuoteInSameThread`). It is valid exactly when
  no collected object refers, after one redirect, to itself or to one collected before it
  (`ImportPost.ReplayOrder`); a run that does not log "loop detected" has no such reference
  (`ImportPost.LoopFreeReplay`).
- A redirect entry need not come from fetching its key. When a redirect leads to a post that is
  stored, local or collected, its object stays in hand, and every later entry of the queue is
  redirected to it without being fetched (`ImportExamples.StaleObjectMisdirects`). All redirects
  are genuine exactly when each of those that lead to the object left in hand is
  (`ImportPost.RedirectsAreGenuine`).
- `delete_profile` does not return the files of uploads that are attached to no post
  (`Service.UploadIsAbandoned`). Its list is complete exactly when those uploads leave nothing
  behind (`ProfileDeletion.ProfileFilesExact`).
- A job whose sender has gone before its delivery began keeps its row and its failure count in
  every later state, and becomes eligible again after every lease
  (`MissingSenders.AbandonedForEver`).
- A recipient that has acknowledged can be sent to again. There are two causes: an executor that
  stops between an acknowledgement and the end of its round, and one that is merely slower than
  its lease, so that another takes the same job (`RepeatedSends.RepeatedSend`). Without both it
  never happens, and no activity has more than four rounds (`OrderlyRuns.OrderlyRunsSendOnce`).
- A local profile that names itself as an alias can move to itself; its followers unfollow it and
  follow it again (`Handlers.HandleMove`).

## Model

| member | source | states |
|---|---|---|
| `PostGraph.SelectContext` | fedimovies-models/src/posts/queries.rs:1213-1223 | the worklist of `WITH RECURSIVE ... UNION` returns the least set that holds the seeds and, with each post, its replies and reposts |
| `PostGraph.CascadeDelete` | fedimovies-models/migrations/schema.sql:117-118 | deleting seeds with cascading foreign keys removes exactly that same least set, in whatever order rows go |
| `PostGraph.ClosureIsLeast` | fedimovies-models/src/posts/queries.rs:1213-1223 | the closure is closed, and every closed set over the seeds contains it |
| `PostGraph.ClosureIsDescendants` | fedimovies-models/src/posts/queries.rs:1213-1223 | a post is selected exactly when walking up its parent chain meets a seed |
| `PostGraph.ParentOutsideClosure` | fedimovies-models/src/posts/queries.rs:1293-1299 | the parent of a deleted post is never among the posts deleted with it, so its counter can be patched |
| `PostGraph.OnlySeedsCrossBoundary` | fedimovies-models/src/posts/queries.rs:1293-1299 | deleting a closure takes from a surviving post only replies and reposts that are seeds themselves: fixing counters at the boundary is enough |
| `PostGraph.RootsDisjoint` | src/job_queue/periodic_tasks.rs:46-51 | two posts without parents have disjoint descendants |
| `PostGraph.ClosureAfterRemoval` | src/job_queue/periodic_tasks.rs:46-51 | deleting a closed set leaves a disjoint closure as it was |
| `PostGraph.RepostIsLeaf` | src/activitypub/handlers/undo.rs:113-116 | nothing hangs below a repost |
| `Database.Database.constructor` | fedimovies-models/migrations/schema.sql:1-13 | an empty database satisfies every invariant |
| `Database.Database.DeletePost` | fedimovies-models/src/posts/queries.rs:1203-1308 | removes exactly the closure of the post with the rows that refer to it, every other row stays as it was, all counters stay right, and the returned files and objects are exactly those that lost their last reference; fails only for a missing post, changing nothing |
| `Schema.ReferencedIsInUse` | fedimovies-models/src/cleanup.rs:8-66 | a file counts as referenced exactly when an attachment, an avatar, a banner or an emoji has it, an IPFS object when an attachment or a post has it |
| `Counters.DeletePostRows` | fedimovies-models/src/posts/queries.rs:1207-1299 | the statements of the transaction: no CHECK and no row count can make them fail on a stored post, and every counter again equals its rows |
| `Counters.PatchParents` | fedimovies-models/src/posts/queries.rs:1293-1299 | the two boundary updates succeed and leave reply and repost counts right |
| `Counters.SubtractPostsSucceeds` | fedimovies-models/src/posts/queries.rs:1265-1280 | subtracting the deleted posts of each author never violates the CHECK and yields the remaining count |
| `Database.Database.CreatePost` | fedimovies-models/src/posts/queries.rs:165-322 | on success every column of the new row is the datum given for it, exactly the listed mentions, tags, links, emojis and attachments are related to it, every other post and its rows stay, and counters and forest are intact; an error changes nothing |
| `Posting.CreatedAsGiven` | fedimovies-models/src/posts/queries.rs:200-222 | visibility, author, content, edges and times of the stored row are those given, and what is related to the post is what was listed |
| `Posting.OriginalCondition` | fedimovies-models/src/posts/queries.rs:172-318 | an original can be created exactly for a stored author, with an object id for remote authors only and not used before, below an original, with related rows that are there and listed once, and with room in the counters |
| `Posting.CreatePostRows` | fedimovies-models/src/posts/queries.rs:172-318 | insert guards, related rows, counters and the checks of `Post::new` in order succeed exactly when `CanCreate` holds |
| `Posting.CreatedIsValid` | fedimovies-models/src/posts/queries.rs:172-318 | after a successful creation every row and counter invariant holds again, with the post below its parent in the forest |
| `Posting.RowCountTest` | fedimovies-models/src/posts/queries.rs:41-45 | comparing the number of rows written with the number of ids asked for tests that all ids exist and none repeats |
| `Posting.CreateRelated` | fedimovies-models/src/posts/queries.rs:19-164 | the five helpers succeed exactly when all attachments, mentions, tags, links and emojis can be attached, and then attach them all |
| `Posting.RepostCondition` | fedimovies-models/src/posts/types.rs:262-275 | a repost is accepted exactly for a public original not yet reposted by the author, with an object id for remote authors only |
| `Posting.StoredPostsReadBack` | fedimovies-models/src/posts/types.rs:118-152 | the consistency checks of `Post::new` hold of every stored post ever after, so no read fails on one |
| `Database.Database.UpdatePost` | fedimovies-models/src/posts/queries.rs:323-419 | exact success condition and new rows; identity, edges and all counters are kept |
| `Posting.UpdateCondition` | fedimovies-models/src/posts/queries.rs:323-419 | a post can be edited exactly when it is an original without an IPFS id and everything listed is there, once, and not an attachment that it already has |
| `Posting.EditedAsGiven` | fedimovies-models/src/posts/queries.rs:332-415 | only content and sensitivity change; exactly what is listed now is related to the post, attachments it had are gone, and every other post keeps its rows |
| `Service.EditMeans` | fedimovies-models/src/posts/queries.rs:323-419 | the same of every performed edit, which also touches no profile and no follow |
| `Posting.UpdatePostRows` | fedimovies-models/src/posts/queries.rs:323-419 | attachments of the post are dropped before the new list is attached, so listing one again fails |
| `Posting.UpdatedIsValid` | fedimovies-models/src/posts/queries.rs:323-419 | an edit keeps the forest, the row invariants and all counters |
| `Database.Database.CreateReaction` | fedimovies-models/src/reactions/queries.rs:11-45 | one reaction per author and post and per activity, on originals only; the counter follows |
| `Database.Database.DeleteReaction` | fedimovies-models/src/reactions/queries.rs:65-88 | removes exactly that reaction with its activity id; the decrement cannot fail |
| `Database.Database.CreateAttachment` | fedimovies-models/src/attachments/queries.rs:12-44 | an upload of a stored profile, attached to no post yet, under a new id |
| `Attachments.SetIds` | fedimovies-models/src/posts/queries.rs:981-983 | the loop succeeds exactly when every listed attachment is there without an IPFS id and none is listed twice; each then has its own id, and no other attachment changes |
| `Database.Database.SetPostIpfsCid` | fedimovies-models/src/posts/queries.rs:959-986 | exactly for an original without an IPFS id whose attachments can all get theirs; all ids are stored or none, and every invariant is kept |
| `Attachments.StoredIdsAreValid` | fedimovies-models/src/posts/queries.rs:959-986 | storing the ids keeps rows, forest and counters valid |
| `Database.Database.DeleteUnusedAttachments` | fedimovies-models/src/attachments/queries.rs:67-97 | removes exactly the old uploads that no post uses, and returns exactly the files and objects that lost their last reference |
| `Attachments.UnusedQueueIsWhatWasLost` | fedimovies-models/src/attachments/queries.rs:67-97 | the orphan queries over the deleted rows miss nothing, although names are shared |
| `Database.Database.DeleteProfile` | fedimovies-models/src/profiles/queries.rs:343-535 | removes the profile with its posts, their descendants, relationships, requests, reactions and emoji rows; every counter and cache is right afterwards |
| `Service.DeletionMeans` | fedimovies-models/src/profiles/queries.rs:343-535 | of other profiles exactly what lies below a deleted post, or has the deleted profile on one side, is gone; every other post, reaction, mention, upload, follow, request and emoji row stays as it was |
| `ProfileDeletion.DeleteAuthor` | fedimovies-models/src/profiles/queries.rs:348-513 | the post, reply, reaction and repost counter statements all succeed and are right after the closure of all posts of the author is gone |
| `ProfileDeletion.SubtractRepliesSucceeds` | fedimovies-models/src/profiles/queries.rs:473-487 | subtracting the replies of the author from their parents leaves the exact reply counts of the posts that stay |
| `ProfileDeletion.DecrementRepostsSucceeds` | fedimovies-models/src/profiles/queries.rs:501-513 | decrementing a matched target once is right because an author reposts a post at most once |
| `ProfileDeletion.DecrementReactionsSucceeds` | fedimovies-models/src/profiles/queries.rs:488-500 | decrementing a matched post once is right because an author reacts to a post at most once |
| `ProfileDeletion.RowsAfterProfileRemoval` | fedimovies-models/src/profiles/queries.rs:514-526 | no row is left that refers to the profile or to a deleted post |
| `ProfileDeletion.DeleteRelationships` | fedimovies-models/src/profiles/queries.rs:430-472 | follower, following and subscriber counts of everyone else are right after the cascade, and the follow lifecycle holds |
| `ProfileDeletion.ProfileFilesExact` | fedimovies-models/src/profiles/queries.rs:372-394 | the files returned are all unreferenced; they are all that were lost if and only if no unattached upload of the profile leaves a file behind |
| `ProfileDeletion.ProfileObjectsExact` | fedimovies-models/src/profiles/queries.rs:395-412 | the same for IPFS objects |
| `Attachments.UploadLeftBehind` | fedimovies-models/src/profiles/queries.rs:372-394 | in any valid state, an upload under a file name of its own makes the list incomplete: its file is lost and not returned |
| `Service.UploadIsAbandoned` | fedimovies-models/src/profiles/queries.rs:343-535 | the three operations that create a profile, upload a file and delete the profile succeed from the empty database and leave the file behind |
| `Cleanup.QueueIsWhatWasLost` | fedimovies-models/src/cleanup.rs:8-66 | the orphan queries over what was collected return exactly the files and objects that lost their last reference, although names are shared |
| `Database.Database.CreateProfile` | fedimovies-models/src/profiles/queries.rs:112-170 | exact success condition; counters start at zero and the cache is built |
| `Profiles.InsertCondition` | fedimovies-models/src/profiles/queries.rs:112-170 | a profile can be created exactly when no other has its name on its host, or its actor id, host and actor are given together, and every emoji is there and listed once |
| `Database.Database.UpdateProfile` | fedimovies-models/src/profiles/queries.rs:171-227 | exact success condition; a local profile stays local, and the cache is rebuilt |
| `Database.Database.CreateEmoji` | fedimovies-models/src/emojis/queries.rs:13-53 | a new emoji keeps every cache right |
| `Database.Database.UpdateEmoji` | fedimovies-models/src/emojis/queries.rs:54-77 | every cache shows the new image afterwards |
| `Database.Database.DeleteEmoji` | fedimovies-models/src/emojis/queries.rs:175-197 | every cache forgets the emoji, and its image is returned exactly when nothing else uses the file |
| `EmojiCache.AggregateJson` | fedimovies-models/src/profiles/queries.rs:49-72 | a join is aggregated to a list without repetitions |
| `EmojiCache.RefreshOne` | fedimovies-models/src/profiles/queries.rs:79-111 | the CROSS JOIN with the cached elements repeats nothing, because at most one cached element mentions the emoji |
| `EmojiCache.CacheMentionsUse` | fedimovies-models/src/profiles/queries.rs:79-111 | a cache mentions an emoji exactly when the profile uses it, so refreshing only those profiles suffices |
| `EmojiCache.UpdateEmojiCaches` | fedimovies-models/src/profiles/queries.rs:79-111 | after any change to one emoji every cached list equals the join again |
| `EmojiCache.CacheShowsUse` | fedimovies-models/src/profiles/queries.rs:49-72 | in valid tables the cached list of a profile shows exactly the emojis it uses, as they are now, each once |
| `EmojiCache.SetProfileEmojis` | fedimovies-models/src/profiles/queries.rs:17-78 | replaces what a profile uses and rebuilds its cache, or fails for an unknown or repeated emoji |
| `Database.Database.Follow` | fedimovies-models/src/relationships/queries.rs:73-97 | exact success condition, both counters, and which error means that the follow exists |
| `Database.Database.Unfollow` | fedimovies-models/src/relationships/queries.rs:98-134 | removes the follow, the request and the hidden settings of this pair, and no other relationship or request; fails only when there was neither follow nor request |
| `Database.Database.CreateFollowRequest` | fedimovies-models/src/relationships/queries.rs:135-163 | stores a pending request exactly for two different stored profiles for which there is none yet |
| `Database.Database.CreateRemoteFollowRequestOpt` | fedimovies-models/src/relationships/queries.rs:164-198 | succeeds exactly for two different stored profiles when no request of another pair has the activity id; inserts the request, or changes only the activity id of the one that is there, and returns its id |
| `Database.Database.FollowRequestAccepted` | fedimovies-models/src/relationships/queries.rs:199-222 | status and Follow row change together or not at all |
| `Database.Database.FollowRequestRejected` | fedimovies-models/src/relationships/queries.rs:223-242 | changes the status and nothing else |
| `Database.Database.Subscribe` | fedimovies-models/src/relationships/queries.rs:446-466 | adds and counts the subscription |
| `Database.Database.SubscribeOpt` | fedimovies-models/src/relationships/queries.rs:467-489 | an existing subscription is neither added nor counted again |
| `Database.Database.Unsubscribe` | fedimovies-models/src/relationships/queries.rs:490-514 | removes and uncounts the subscription |
| `Database.Database.ResetSubscriptions` | fedimovies-models/src/subscriptions/queries.rs:184-199 | removes every subscription and nothing else, and zero is then the right count for everyone |
| `Database.Database.SetPreference` | fedimovies-models/src/relationships/queries.rs:541-654 | preferences are relationships that nothing counts |
| `Relationships.AddKeepsCounters` | fedimovies-models/src/relationships/queries.rs:73-97 | adding a relationship and bumping its counters keeps all three counts equal to the rows |
| `Relationships.RemoveKeepsCounters` | fedimovies-models/src/relationships/queries.rs:98-134 | the same for removal |
| `Relationships.CountedRelationship` | fedimovies-models/src/relationships/queries.rs:98-134 | decrementing the counters of a row that is there cannot fail |
| `Relationships.UnfollowedKeepsLifecycle` | fedimovies-models/src/relationships/queries.rs:98-134 | unfollowing keeps: accepted requests have their follow, follows of remote profiles have a request, no request joins two local profiles |
| `Relationships.NewRequestLives` | fedimovies-models/src/relationships/queries.rs:135-198 | a new pending request between a local and a remote profile keeps the lifecycle |
| `Relationships.AcceptedRequestLives` | fedimovies-models/src/relationships/queries.rs:199-222 | accepting keeps the lifecycle |
| `Relationships.ChangedRequestLives` | fedimovies-models/src/relationships/queries.rs:223-242 | rejecting a request, or changing its activity id, keeps the lifecycle |
| `Handlers.FollowOrCreateRequest` | src/activitypub/builders/follow.rs:68-93 | exactly when it succeeds: a local target is followed, a remote one is asked, and an existing follow or request is no error |
| `Handlers.HandleFollow` | src/activitypub/handlers/follow.rs:28-75 | succeeds exactly for a remote actor and a local user when no request of another pair has the activity id and the follow is there or has room, so a repeated Follow succeeds; then follow and request are both stored and nothing else changes |
| `Handlers.HandleAccept` | src/activitypub/handlers/accept.rs:26-50 | exactly when it succeeds: the target accepts, and the request is accepted already or the follow can be added |
| `Handlers.HandleReject` | src/activitypub/handlers/reject.rs:26-50 | succeeds exactly for the target of the request; no follow changes |
| `Handlers.HandleUndoFollow` | src/activitypub/handlers/undo.rs:28-59 | afterwards there is neither follow nor request |
| `Handlers.HandleUndo` | src/activitypub/handlers/undo.rs:60-123 | undoes the follow, else the like, else the repost that the activity made, and nothing else; nothing is undone exactly when it made none; the deletion queue that is dropped is empty; a refusal changes nothing and is due to an unknown actor or the row of someone else |
| `Handlers.RepostLosesNothing` | src/activitypub/handlers/undo.rs:113-116 | deleting a repost takes no file and no IPFS object out of use |
| `Handlers.UnfollowAccount` | src/mastodon_api/accounts/views.rs:327-358 | the missing-actor error of the view never occurs |
| `Handlers.MoveFollower` | src/activitypub/handlers/move.rs:78-95 | "follow request must exist" never fails, even when a profile moves to itself; the follower now follows or asks the new profile, and nobody else is touched |
| `Handlers.HandleMove` | src/activitypub/handlers/move.rs:76-96 | a completed move loses no follower, and leaves none behind unless a local profile moved to itself; with local followers and a remote new profile it always completes; follows of anyone else never change |
| `Handlers.MoveFollowersTask` | src/mastodon_api/settings/helpers.rs:101-178 | the same expectation never fails; local followers of the old profile follow the user afterwards, remote ones are told |
| `Service.Perform` | fedimovies-models/src/posts/queries.rs:165-322 | one operation takes the tables from a valid state to a valid state as `Step` says: when it succeeds, what it changes, and that a failed transaction changes nothing |
| `Service.Run` | fedimovies-models/src/posts/queries.rs:165-322 | any sequence of operations, successful or not, is performed step by step in that sense from the empty tables, and in every state passed through all counters, caches, edges and lifecycles are right |
| `Service.CountersFollow` | fedimovies-models/migrations/schema.sql:34-37 | in valid tables all seven counters are determined by the rows, so the effect of an operation on the rows fixes its effect on the counters |
| `Extraneous.SelectContexts` | fedimovies-models/src/posts/queries.rs:1132-1151 | the recursive query pairs each root with exactly its closure |
| `Extraneous.FindExtraneousPosts` | fedimovies-models/src/posts/queries.rs:1125-1202 | finds exactly the posts without a parent whose whole context is old, is by no user of this server, and has no mention or reaction of one and no link from a post of one |
| `Extraneous.ExtraneousIsOfNoUse` | fedimovies-models/src/posts/queries.rs:1148-1192 | the conditions of the query, post by post, are those of the whole context |
| `Extraneous.NoUserLosesAny` | fedimovies-models/src/posts/queries.rs:1155-1192 | deleting such contexts takes no post, mention or reaction of a user, and no link from a post of a user nor the post it leads to |
| `Extraneous.NextRootUntouched` | src/job_queue/periodic_tasks.rs:46-51 | deleting other roots first does not change what lies below the next one |
| `Extraneous.DeleteExtraneousPosts` | src/job_queue/periodic_tasks.rs:40-54 | a full run never fails and deletes exactly the contexts of no use; users of this server keep their posts, mentions, reactions and links with what they lead to |
| `Thread.SelectRoot` | fedimovies-models/src/posts/queries.rs:786-795 | climbing the reply chain ends, at the head of the root-to-node path |
| `Thread.SelectThread` | fedimovies-models/src/posts/queries.rs:796-802 | the recursive query selects every post below the root with its own path |
| `Thread.PreorderIsBelow` | fedimovies-models/src/posts/queries.rs:786-814 | the depth-first preorder with siblings by id lists exactly the posts below a post, in path order |
| `Thread.SortedIsUnique` | fedimovies-models/src/posts/queries.rs:814 | a set of rows has one order by path |
| `Thread.GetThread` | fedimovies-models/src/posts/queries.rs:778-835 | the thread is the readable part of the depth-first preorder of the whole tree; it is found exactly for an original that the viewer may read: a Public post by everybody, a Followers post by its author, those mentioned and followers of the author, any other by its author and those mentioned |
| `Thread.FilterIsMayRead` | fedimovies-models/src/posts/queries.rs:421-437 | the visibility filter of the queries, visibility by visibility |
| `Privacy.DirectPostIsPrivate` | fedimovies-models/src/posts/queries.rs:165-322 | a Direct post, once created, is found by its author and those mentioned and by nobody else |
| `Privacy.FollowersPostIsShared` | fedimovies-models/src/posts/queries.rs:165-322 | a Followers post is found by its author, those mentioned and the followers of its author |
| `Privacy.EditedPostIsPrivate` | fedimovies-models/src/posts/queries.rs:323-419 | an edit of a Direct post takes it from those it no longer mentions |
| `Privacy.OtherPostsKeepReaders` | fedimovies-models/src/posts/queries.rs:165-419 | creating or editing a post changes nobody's access to any other |
| `Thread.ThreadListsOnce` | fedimovies-models/src/posts/queries.rs:778-835 | each visible post of the tree once, and nothing else |
| `Thread.SplitAt` | src/mastodon_api/statuses/views.rs:294-307 | the loop splits the list at the first occurrence and loses nothing |
| `Thread.GetContext` | src/mastodon_api/statuses/views.rs:268-313 | ancestors, the post and descendants make up the thread; readable proper ancestors come before, readable proper descendants after, and everything listed may be read |
| `Thread.AncestorsOnChain` | fedimovies-models/src/posts/queries.rs:786-795 | a proper prefix of the path is a post on the reply chain |
| `ImportPost.GetObjectLinks` | src/activitypub/handlers/create.rs:195-222 | each Link tag and the quoted object once |
| `ImportPost.Collect` | src/activitypub/fetcher/helpers.rs:164-243 | the loop refines the recursive `Run`, and ends for every sequence of answers |
| `ImportPost.RunCollects` | src/activitypub/fetcher/helpers.rs:164-243 | at most 50 fetches; collected objects have different ids, none local or stored; only unknown ids are redirected |
| `ImportPost.WhyCollectingFails` | src/activitypub/fetcher/helpers.rs:164-222 | a recursion error comes only after fifty answered fetches, a failed fetch from one without an answer, a missing post from a local id without a post |
| `ImportPost.ChainIsCollected` | src/activitypub/fetcher/helpers.rs:164-243 | a chain of at most fifty unknown parents without links, each answered under its own id, is collected in order |
| `ImportPost.FirstObjectMissing` | src/activitypub/fetcher/helpers.rs:244 | `objects[0]` is missing exactly when the first object carries the id of an existing local post under another id |
| `ImportPost.StepKeepsOrdered` | src/activitypub/fetcher/helpers.rs:175-243 | one round keeps: every reference of a collected object is resolved by a stored post or a later object, or is still in the queue or in hand |
| `ImportPost.StepKeepsTraced` | src/activitypub/fetcher/helpers.rs:175-243 | one round keeps, loop or no loop and whatever the servers answer: redirects lead to posts, collected objects or the object in hand, and no reference of a collected object is lost |
| `ImportPost.ReplayOrder` | src/activitypub/fetcher/helpers.rs:175-248 | for every run that collects objects: reverse order has every reference stored before it is needed if and only if no collected object refers, after one redirect, to itself or to one collected before it |
| `ImportPost.LoopFreeReplay` | src/activitypub/fetcher/helpers.rs:175-248 | a run that does not log "loop detected" has no such reference |
| `ImportPost.RedirectsAreGenuine` | src/activitypub/fetcher/helpers.rs:175-243 | for every run that collects objects: a redirect is what fetching its key returned, or leads to an object left in hand whose id is stored, local or collected; all are genuine if and only if those leading to that object are |
| `ImportExamples.QuoteInSameThread` | src/activitypub/fetcher/helpers.rs:175-180 | a reply that quotes another reply to the same post: acyclic, yet the replay order is wrong |
| `ImportExamples.StaleObjectMisdirects` | src/activitypub/fetcher/helpers.rs:185-197 | a parent that turns out to be stored under another id: the quoted note is never fetched and its id is redirected to that post |
| `Replay.GetObjectTags` | src/activitypub/handlers/create.rs:440-485 | the loop over the tags and the quoted object agree with the specification, including which failing lookup or tag ends them first |
| `Replay.TagsResolved` | src/activitypub/handlers/create.rs:440-470 | tagged links up to ten are linked without repetitions, each found under its redirect; only a missing post or a refused tag stops the loop |
| `Replay.HandleNote` | src/activitypub/handlers/create.rs:532-635 | the checks, tags, quoted object and parent are tried in the order of the code, and the first that fails decides the error |
| `Replay.NoteOutcome` | src/activitypub/handlers/create.rs:532-635 | a note is stored only when every reference it consults is found and linked and all checks accept it; a missing-post error means that some reference is missing, a refusal that some check refused |
| `Replay.ReplayObjects` | src/activitypub/fetcher/helpers.rs:245-261 | a lookup fails only when the order is unsound, and never when all is stored with no consulted reference back; a refusal names a note that is not accepted |
| `Replay.SimpleImports` | src/activitypub/fetcher/helpers.rs:164-222 | a stored post, or one that turns out to be stored under another id, ends the collection at once; a chain of replies refers forward only |
| `Replay.Import` | src/activitypub/fetcher/helpers.rs:152-268 | which outcome `import_post` has: a stored post is returned without a change; local ids are refused; the exact condition of the panic; a fetch or recursion error for the reasons above, changing nothing; an accepted chain of at most fifty unknown parents is imported whole; any other collected thread misses a post only if an object refers back, is imported only if no consulted reference does, and is refused only for a note that is not accepted |
| `JobQueue.Queue.EnqueueJob` | fedimovies-models/src/background_jobs/queries.rs:8-30 | one more row with the data given, under an id never used, that is given out at every time after its delay and at none before |
| `JobQueue.SelectBatch` | fedimovies-models/src/background_jobs/queries.rs:47-66 | jobs of the kind that are due, queued or with a lease that has run out, up to the limit; no such job outside is queued while one inside is running, or due before one inside with its status |
| `JobQueue.Queue.GetJobBatch` | fedimovies-models/src/background_jobs/queries.rs:32-82 | the batch is Running from now on, and nothing else changes |
| `JobQueue.LeaseIsExclusive` | fedimovies-models/src/background_jobs/queries.rs:52-58 | a leased job is not offered again until the lease runs out, and then it is |
| `JobQueue.Queue.DeleteJob` | fedimovies-models/src/background_jobs/queries.rs:84-102 | removes the row, or reports that it is gone |
| `Delivery.NewRecipients` | src/activitypub/deliverer.rs:166-190 | one recipient per actor id, in the order of ids, with the inbox of the first such actor |
| `Delivery.DeliverActivityWorker` | src/activitypub/deliverer.rs:116-156 | sends once, in order, to exactly the undelivered recipients; flags are never cleared |
| `Delivery.FourRounds` | src/activitypub/queues.rs:195-204 | a delivery has at most four rounds, all to the same recipients |
| `Delivery.LineageEnds` | src/activitypub/queues.rs:195-211 | it ends before that exactly when everyone was reached |
| `Delivery.NeverSentAgain` | src/activitypub/deliverer.rs:133-136 | within the rounds of one delivery, after an acknowledgement no later round sends to that recipient |
| `Delivery.BackoffFits` | src/activitypub/queues.rs:152-156 | the delay fits 32 bits exactly up to eight failures; three are used |
| `Delivery.Enqueue` | src/activitypub/deliverer.rs:203-221 | nothing is queued for nobody |
| `Delivery.ProcessQueuedOutgoingActivities` | src/activitypub/queues.rs:158-214 | a missing sender leaves the job Running with its count, an unexpected error drops it, otherwise the next round is queued before the row goes or the reachability of everyone is recorded |
| `Delivery.DeliveredAsSaid` | src/activitypub/queues.rs:195-212 | there is a new row exactly when someone has not acknowledged and fewer than three rounds failed before; it flags exactly whoever acknowledged, and is given out only after 300, 3000 or 30000 seconds; no other row changes |
| `Delivery.Attempts` | src/activitypub/queues.rs:54-60 | an incoming activity reaches its handler at most three times |
| `Delivery.ProcessQueuedIncomingActivities` | src/activitypub/queues.rs:62-121 | up to ten due jobs are handled and gone, and the new rows are the next attempts of exactly those that failed for the first or second time and not for a recursion error |
| `Delivery.HandledAsSaid` | src/activitypub/queues.rs:103-116 | each next attempt has the same activity and one failure more, and is given out only after ten minutes |
| `JobProtocol.StepKeepsInv` | src/activitypub/queues.rs:158-214 | each action of any executor, or its crash, keeps the invariant of the protocol |
| `JobProtocol.RequeueKeepsInv` | src/activitypub/queues.rs:195-204 | re-queueing before deleting keeps every undelivered recipient covered |
| `JobProtocol.DeleteKeepsInv` | src/activitypub/queues.rs:212 | whoever a finished job awaited is settled or covered by a job with more failures |
| `JobProtocol.TakeKeepsInv` | fedimovies-models/src/background_jobs/queries.rs:43-66 | a job is given out again only when every lease on it has run out |
| `JobProtocol.NothingIsLost` | src/activitypub/queues.rs:158-214 | in every reachable state each enqueued delivery was acknowledged, given up after four failures, dropped by an unexpected error, or has a row that becomes available again |
| `JobProtocol.OneExecutorPerLease` | fedimovies-models/src/background_jobs/queries.rs:52-58 | within a lease at most one executor works on a job |
| `ProtocolTurn.TurnIsReached` | src/activitypub/queues.rs:158-214 | what one undisturbed run of the executor does to the table, as the contract of its method states it, is what a sequence of protocol actions does |
| `OrderlyRuns.StepIsOrderly` | src/activitypub/queues.rs:158-214 | while no executor stops and none takes a job that another still works on, every action keeps: each activity has one live row, whose flags are exactly the acknowledgements, in its own round |
| `OrderlyRuns.SendIsOrderly` | src/activitypub/deliverer.rs:133-142 | an acknowledgement sets the flag of that recipient in the one working copy and of no other |
| `OrderlyRuns.RequeueIsOrderly` | src/activitypub/queues.rs:195-204 | the new row takes over exactly whoever has not acknowledged; the old one is only left to be deleted |
| `OrderlyRuns.OrderlyRunsSendOnce` | src/activitypub/queues.rs:158-214 | in every state of such a run nobody who has acknowledged is about to be sent to again, and no activity has had more than four rounds |
| `RepeatedSends.RepeatedSend` | src/activitypub/queues.rs:158-214 | an executor that stops after an acknowledgement, or one that is slower than its lease, each lead to a state in which the recipient is sent to again |
| `RepeatedSends.RepeatedSendIff` | src/activitypub/queues.rs:158-214 | a recipient that has acknowledged can be sent to again if and only if executors may stop, or may take a job that another still works on |
| `MissingSenders.StepKeepsAbandoned` | src/activitypub/queues.rs:173 | whatever any executor does, the row of a job whose sender is gone before its delivery began stays with its data, and whoever holds it can only let go of it |
| `MissingSenders.AbandonedForEver` | src/activitypub/queues.rs:173 | in every later state of every run that row is there with the same data and failure count, nobody can begin its delivery, and it is eligible again once its lease has run out |
| `HttpSignature.CreateHttpSignature` | src/http_signatures/create.rs:28-84 | the four headers, spelled out: request target, host and date are signed, and the digest whenever there is a body |
| `HttpSignature.ParseHttpSignature` | src/http_signatures/verify.rs:41-148 | both loops refine the specification of parsing, with every error |
| `HttpSignature.ParsedFromRequest` | src/http_signatures/verify.rs:41-148 | a parsed signature has the key id and signature of the header, one line per signed name rebuilt from the request, and expires as it says or twelve hours after it was created |
| `HttpSignature.ParameterRoundTrip` | src/http_signatures/verify.rs:10 | a parameter is parsed back exactly when its value is not empty and has no newline |
| `HttpSignature.ParsedKeyId` | src/http_signatures/verify.rs:52-66 | no request is parsed to a key id that is empty or has a comma |
| `HttpSignature.SignatureRoundTrip` | src/http_signatures/verify.rs:41-148 | key id, signed message, signature and expiry come back if and only if the key id is a non-empty header text without a comma |
| `Addresses.AddressRoundTrip` | src/webfinger/types.rs:24-76 | an address is read back from its text, with or without prefix, exactly when both names are well-formed |
| `Addresses.ExportProfilesToCsv` | src/mastodon_api/settings/helpers.rs:23-30 | one line per profile, in order, with the host of a remote profile and the local host of a local one |
| `Addresses.ReadLineByLine` | src/mastodon_api/settings/helpers.rs:52-58 | a list is read exactly when each line is blank or an address, and then has the addresses of its lines |
| `Addresses.TrimIsTrimmed` | src/mastodon_api/settings/helpers.rs:54 | white space at both ends of a line is taken away, and all of it |
| `Addresses.ReadCsv` | src/mastodon_api/settings/helpers.rs:52-58 | the lines of an export are read back as the exported addresses |
| `Addresses.ParseAddressList` | src/mastodon_api/settings/helpers.rs:52-67 | sorted, without duplicates, at most 50, or which error |
| `Addresses.ImportUndoesExport` | src/mastodon_api/settings/helpers.rs:23-67 | importing an export returns exactly the exported addresses if and only if all are well-formed and at most 50 are distinct |
| `Audience.BuildNote` | src/activitypub/builders/create_note.rs:105-186 | per visibility the collection in `to` and in `cc`, everyone addressed, each once, and nobody else |
| `Audience.ParseArray` | src/activitypub/receiver.rs:60-86 | strings and ids of objects in order; any other item is an error |
| `Audience.GetAudience` | src/activitypub/handlers/create.rs:488-501 | members of `to`, then of `cc` |
| `Audience.CollectionsDiffer` | src/activitypub/identifiers.rs:47-60 | the collections of an actor differ from each other and are no public marker |
| `Audience.VisibilityReadBack` | src/activitypub/handlers/create.rs:503-530 | the visibility is read back if and only if no addressed id is a public marker or a wider collection of the author |
| `Audience.PublicMarkers` | src/activitypub/handlers/create.rs:503-512 | any of the three public markers in the audience makes an object public |
| `Pagination.GetPaginated` | fedimovies-models/src/relationships/queries.rs:330-363 | a page has follows of or by the profile with the greatest ids below the cursor, with the profile on the other side, in descending order, and is short only when all are listed |
| `Pagination.WalkPages` | src/mastodon_api/accounts/views.rs:453-470 | following next-page links ends and lists nothing twice, misses no row that stays during the walk, and makes one request per full page and one more, even if the table changes meanwhile |
| `Pagination.UnchangedTableIsListed` | src/mastodon_api/accounts/views.rs:453-470 | if nothing changes, all followers are listed exactly once |

## Left out

- Notifications, mentions of movies and their reposting, timelines, search and markers: they read the tables, or add rows that nothing here summarises. Skipped mention notifications are never removed by the original.
- Payments, invoices, wallets, identity proofs, tokens, and the rows of the `subscription` table: only the Subscription relationships and their counter are modelled.
- Columns that no invariant mentions (names, bios, media types, file sizes, `updated_at`); a tag is its name.
- HTTP servers and clients, media storage, IPFS, TMDB, HTML cleaning, microsyntax, configuration and logging. A send is a success or a failure.
- The removal of files after a transaction has committed.
- Files of attachments that `update_post` drops: it collects none, so nothing is claimed about them.
- JSON signatures: the parser of proof types does not accept the type that signing emits.
- RSA, SHA-256 and base64: signing and digests are uninterpreted; `HttpSignature.LibrariesOk` states what is used of them.
- Unicode classes: `\w` and whitespace beyond ASCII are parameters of `Addresses`, required to be disjoint.
- Paging of posts by author: it orders by creation time and filters by id, so the enumeration does not apply to it.
- The finders of empty profiles and unused emojis, and the clean-up of orphaned files by name: single queries without recursion.
- Errors of the database connection: a statement fails only for its constraints or a missing row.
- The statement of `get_job_batch` is taken to be atomic. It is an UPDATE with a plain subquery and no row lock, so two executors that run it at the same instant could lease the same row; `JobProtocol.OneExecutorPerLease` and `OrderlyRuns.OrderlyRunsSendOnce` depend on that this does not happen.
- Concurrent transactions on the store: transactions are atomic and run one after another; only the job queue is modelled with interleaving.
- `update_emoji` and `delete_emoji` run without a transaction in the original; the contracts speak of calls that complete.
- The textual parsing of local object URLs: `ImportPost.World` takes it as a function.
- `get_note_recipients` and the tags of a built note other than its audience.
- Replay.HandleNote: its other checks (type, author, content, attachments, and `create_post` itself) are one predicate `accepts`; that creating a post keeps the store valid is `Database.Database.CreatePost`.
- Handlers.HandleMove: the check of aliases and the enqueued activities are not modelled.
- Handlers.MoveFollowersTask: followers that cannot be imported are taken to be skipped already.
- Thread.GetContext: that only true ancestors come before the post is not claimed, since earlier sibling branches also do.
- Delivery.ProcessQueuedOutgoingActivities: one batch is one job, as the batch size says; the loop over the batch is not modelled.
- Delivery.NeverSentAgain: speaks of the consecutive rounds of one delivery, without executors or leases; with them, `RepeatedSends.RepeatedSendIff` has the exact condition.
- MissingSenders.AbandonedForEver: it is about a sender that is missing before the delivery begins; a sender that goes later does not stop the round.
- JobProtocol.NothingIsLost: it is a safety property; that an executor eventually runs is not modelled.
