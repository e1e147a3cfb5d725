/** Uploads: creating attachments, storing IPFS object ids, deleting uploads that no post uses. */
module Attachments {
  import opened Collections
  import opened PostGraph
  import opened Schema
  import opened Counters
  import opened Cleanup
  import opened Posting
  import opened ProfileDeletion

  /** `create_attachment` */
  function InsertAttachment(attachments: AttachmentTable, profiles: ProfileTable, id: AttachmentId,
                            owner: ProfileId, fileName: string, now: int): Result<AttachmentTable>
  {
    if id in attachments || owner !in profiles then Failure(ConstraintViolation("media_attachment"))
    else Success(attachments[id := Attachment(owner, fileName, None, None, now)])
  }

  // set_post_ipfs_cid

  /** Attachments and the ids of their IPFS objects. */
  type ObjectIds = seq<(AttachmentId, string)>

  /** Every attachment is there without an id yet, and is listed once. */
  predicate CanSetIds(attachments: AttachmentTable, cids: ObjectIds) {
    && (forall k :: 0 <= k < |cids| ==> cids[k].0 in attachments && attachments[cids[k].0].ipfsCid.None?)
    && (forall j, k :: 0 <= j < k < |cids| ==> cids[j].0 != cids[k].0)
  }

  /** Each listed attachment has its own id now; the others are as they were. */
  predicate IdsAreSet(attachments: AttachmentTable, cids: ObjectIds, attachments': AttachmentTable) {
    && attachments'.Keys == attachments.Keys
    && (forall k :: 0 <= k < |cids| && cids[k].0 in attachments ==>
          attachments'[cids[k].0] == attachments[cids[k].0].(ipfsCid := Some(cids[k].1)))
    && (forall a :: a in attachments && (forall k :: 0 <= k < |cids| ==> cids[k].0 != a) ==> attachments'[a] == attachments[a])
  }

  lemma OneMoreId(attachments: AttachmentTable, cids: ObjectIds, left: AttachmentTable, a: AttachmentId, cid: string)
    requires CanSetIds(attachments, cids) && IdsAreSet(attachments, cids, left)
    ensures CanSetIds(attachments, cids + [(a, cid)]) <==> a in left && left[a].ipfsCid.None?
    ensures a in left && left[a].ipfsCid.None? ==>
              IdsAreSet(attachments, cids + [(a, cid)], left[a := left[a].(ipfsCid := Some(cid))])
  {
    var more := cids + [(a, cid)];
    if k :| 0 <= k < |cids| && cids[k].0 == a {
      assert more[k].0 == more[|cids|].0;
    } else {
      assert more[|cids|] == (a, cid) && forall k :: 0 <= k < |cids| ==> more[k] == cids[k];
      assert forall k :: 0 <= k < |cids| ==> cids[k].0 != a;
      forall b | b in attachments && (forall k :: 0 <= k < |more| ==> more[k].0 != b) ensures left[b] == attachments[b] && b != a {
        assert forall k :: 0 <= k < |cids| ==> more[k].0 != b;
      }
    }
  }

  /** The loop of `set_post_ipfs_cid` over `set_attachment_ipfs_cid`. */
  method SetIds(attachments: AttachmentTable, cids: ObjectIds) returns (r: Result<AttachmentTable>)
    ensures r.Success? <==> CanSetIds(attachments, cids)
    ensures r.Success? ==> IdsAreSet(attachments, cids, r.value)
  {
    var left := attachments;
    for i := 0 to |cids|
      invariant CanSetIds(attachments, cids[..i]) && IdsAreSet(attachments, cids[..i], left)
    {
      var (a, cid) := cids[i];
      assert cids[..i + 1] == cids[..i] + [(a, cid)];
      OneMoreId(attachments, cids[..i], left, a, cid);
      if a !in left || left[a].ipfsCid.Some? {
        return Failure(NotFound("attachment"));
      }
      left := left[a := left[a].(ipfsCid := Some(cid))];
    }
    assert cids[..|cids|] == cids;
    r := Success(left);
  }

  /** The rows once the post and the listed attachments have their ids. Attachments of other
      posts, or of nobody's, may be listed. */
  predicate IdsStored(rows: PostRows, rows': PostRows, id: PostId, cid: string, cids: ObjectIds) {
    && id in rows.posts
    && rows' == rows.(posts := rows.posts[id := rows.posts[id].(ipfsCid := Some(cid))], attachments := rows'.attachments)
    && IdsAreSet(rows.attachments, cids, rows'.attachments)
  }

  /** `set_post_ipfs_cid` */
  method SetPostIds(rows: PostRows, id: PostId, cid: string, cids: ObjectIds) returns (r: Result<PostRows>)
    ensures r.Success? <==>
              && Original(rows.posts, id) && rows.posts[id].ipfsCid.None?
              && CanSetIds(rows.attachments, cids)
    ensures r.Success? ==> IdsStored(rows, r.value, id, cid, cids)
  {
    if id !in rows.posts || rows.posts[id].repostOf.Some? || rows.posts[id].ipfsCid.Some? {
      return Failure(NotFound("post"));
    }
    var attachments :- SetIds(rows.attachments, cids);
    r := Success(rows.(posts := rows.posts[id := rows.posts[id].(ipfsCid := Some(cid))], attachments := attachments));
  }

  lemma StoredIdsAreValid(rows: PostRows, rows': PostRows, counters: PostCounters, depth: map<PostId, nat>, profiles: ProfileTable,
                          emojis: EmojiTable, id: PostId, cid: string, cids: ObjectIds)
    requires PostRowsOk(rows, depth, profiles, emojis) && PostCountersOk(rows, counters, profiles)
    requires Original(rows.posts, id) && IdsStored(rows, rows', id, cid, cids)
    ensures PostRowsOk(rows', depth, profiles, emojis) && PostCountersOk(rows', counters, profiles)
  {
    var row := rows.posts[id].(ipfsCid := Some(cid));
    RowsWithEdit(rows, depth, profiles, emojis, id, row);
    CountersWithEdit(rows, counters, profiles, id, row);
    forall a | a in rows'.attachments
      ensures rows'.attachments[a] == rows.attachments[a].(ipfsCid := rows'.attachments[a].ipfsCid)
    {
      if k :| 0 <= k < |cids| && cids[k].0 == a {
        assert rows'.attachments[cids[k].0] == rows.attachments[a].(ipfsCid := Some(cids[k].1));
      }
    }
  }

  // delete_unused_attachments

  /** No post uses it, and it is older than `before`. */
  predicate Unused(attachment: Attachment, before: int) {
    attachment.post.None? && attachment.createdAt < before
  }

  function WithoutUnused(attachments: AttachmentTable, before: int): AttachmentTable {
    map a | a in attachments && !Unused(attachments[a], before) :: attachments[a]
  }

  /** The orphan queries of `delete_unused_attachments`, run after the rows are deleted. */
  function UnusedQueue(rows: PostRows, profiles: ProfileTable, emojis: EmojiTable, before: int): DeletionQueue {
    var left := WithoutUnused(rows.attachments, before);
    DeletionQueue(
      OrphanedFiles(left, profiles, emojis,
                    set a | a in rows.attachments && Unused(rows.attachments[a], before) :: rows.attachments[a].fileName),
      OrphanedObjects(left, rows.posts,
                      set a | a in rows.attachments && Unused(rows.attachments[a], before) && rows.attachments[a].ipfsCid.Some? ::
                      rows.attachments[a].ipfsCid.value))
  }

  /** The clean-up of unused uploads, unlike that of a profile, misses nothing. */
  lemma UnusedQueueIsWhatWasLost(rows: PostRows, profiles: ProfileTable, emojis: EmojiTable, before: int)
    ensures var left := WithoutUnused(rows.attachments, before);
            UnusedQueue(rows, profiles, emojis, before) == DeletionQueue(
              ReferencedFiles(rows.attachments, profiles, emojis) - ReferencedFiles(left, profiles, emojis),
              ReferencedObjects(rows.attachments, rows.posts) - ReferencedObjects(left, rows.posts))
  {
    var queue, left := UnusedQueue(rows, profiles, emojis, before), WithoutUnused(rows.attachments, before);
    forall f | f in AttachedFiles(rows.attachments) && f !in AttachedFiles(left)
      ensures exists a :: a in rows.attachments && Unused(rows.attachments[a], before) && rows.attachments[a].fileName == f
    {
      var a :| a in rows.attachments && rows.attachments[a].fileName == f;
      assert a !in left by {
        assert forall b :: b in left ==> left[b].fileName != f;
      }
    }
    forall c | c in ReferencedObjects(rows.attachments, rows.posts) && c !in ReferencedObjects(left, rows.posts)
      ensures exists a :: a in rows.attachments && Unused(rows.attachments[a], before) && rows.attachments[a].ipfsCid == Some(c)
    {
      var a :| a in rows.attachments && rows.attachments[a].ipfsCid == Some(c);
      assert a !in left by {
        assert forall b :: b in left ==> left[b].ipfsCid != Some(c);
      }
    }
    assert queue.files == ReferencedFiles(rows.attachments, profiles, emojis) - ReferencedFiles(left, profiles, emojis);
    assert queue.ipfsObjects == ReferencedObjects(rows.attachments, rows.posts) - ReferencedObjects(left, rows.posts);
  }

  /** A new upload under a file name of its own is left behind when its owner is deleted before
      a post uses it: no row refers to the file any more, and `delete_profile` does not return it. */
  lemma UploadLeftBehind(rows: PostRows, profiles: ProfileTable, emojis: EmojiTable, id: AttachmentId,
                         owner: ProfileId, fileName: string, now: int)
    requires AttachmentsOk(rows.attachments, rows.posts, profiles)
    requires InsertAttachment(rows.attachments, profiles, id, owner, fileName, now).Success?
    requires fileName !in ReferencedFiles(rows.attachments, profiles, emojis)
    ensures var rows' := rows.(attachments := InsertAttachment(rows.attachments, profiles, id, owner, fileName, now).value);
            var gone := Closure(rows.posts, AuthoredBy(rows.posts, owner));
            && fileName in LostWithProfile(rows', profiles, emojis, gone, owner).files
            && fileName !in ProfileQueue(rows', profiles, emojis, gone, owner).files
            && !UploadFilesCovered(rows', profiles, emojis, gone, owner)
  {
    var rows' := rows.(attachments := rows.attachments[id := Attachment(owner, fileName, None, None, now)]);
    var gone := Closure(rows.posts, AuthoredBy(rows.posts, owner));
    var left := RowsWithoutProfile(rows', gone, owner);
    assert fileName in AttachedFiles(rows'.attachments) by {
      assert rows'.attachments[id].fileName == fileName;
    }
    forall a | a in rows'.attachments && a != id ensures rows'.attachments[a].fileName != fileName {
      assert rows'.attachments[a] == rows.attachments[a];
    }
    assert fileName !in ProfileFiles(profiles - {owner}) && fileName !in ImagesOf(profiles, owner);
    assert fileName !in AttachedFiles(left.attachments);
    assert id in UnattachedUploads(rows'.attachments, owner);
    ClosureIsLeast(rows.posts, AuthoredBy(rows.posts, owner));
  }
}
