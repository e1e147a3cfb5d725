/** Files and IPFS objects that no row refers to any more. */
module Cleanup {
  import opened Collections
  import opened PostGraph
  import opened Schema

  datatype DeletionQueue = DeletionQueue(files: set<string>, ipfsObjects: set<string>)

  /** `find_orphaned_files` */
  function OrphanedFiles(attachments: AttachmentTable, profiles: ProfileTable, emojis: EmojiTable, files: set<string>): set<string> {
    set f | f in files && f !in ReferencedFiles(attachments, profiles, emojis)
  }

  /** `find_orphaned_ipfs_objects` */
  function OrphanedObjects(attachments: AttachmentTable, t: PostTable, objects: set<string>): set<string> {
    set c | c in objects && c !in ReferencedObjects(attachments, t)
  }

  function FilesOfPosts(attachments: AttachmentTable, gone: set<PostId>): set<string> {
    set a | a in attachments && attachments[a].post.Some? && attachments[a].post.value in gone :: attachments[a].fileName
  }

  function ObjectsOfPosts(attachments: AttachmentTable, t: PostTable, gone: set<PostId>): set<string> {
    (set a | a in attachments && attachments[a].post.Some? && attachments[a].post.value in gone
             && attachments[a].ipfsCid.Some? :: attachments[a].ipfsCid.value)
    + (set p | p in t && p in gone && t[p].ipfsCid.Some? :: t[p].ipfsCid.value)
  }

  /** The clean-up queries of `delete_post`, run after the rows `gone` are deleted. */
  function DeletionQueueOf(rows: PostRows, profiles: ProfileTable, emojis: EmojiTable, gone: set<PostId>): DeletionQueue {
    var left := RowsWithout(rows, gone);
    DeletionQueue(OrphanedFiles(left.attachments, profiles, emojis, FilesOfPosts(rows.attachments, gone)),
                  OrphanedObjects(left.attachments, left.posts, ObjectsOfPosts(rows.attachments, rows.posts, gone)))
  }

  /** The files and objects returned for removal are exactly those that lost their last
      reference. */
  lemma QueueIsWhatWasLost(rows: PostRows, profiles: ProfileTable, emojis: EmojiTable, gone: set<PostId>)
    ensures var left := RowsWithout(rows, gone);
            DeletionQueueOf(rows, profiles, emojis, gone) == DeletionQueue(
              ReferencedFiles(rows.attachments, profiles, emojis) - ReferencedFiles(left.attachments, profiles, emojis),
              ReferencedObjects(rows.attachments, rows.posts) - ReferencedObjects(left.attachments, left.posts))
  {
    LostFiles(rows.attachments, profiles, emojis, gone);
    LostObjects(rows.attachments, rows.posts, gone);
  }

  /** The files collected from the deleted posts and filtered by the orphan query are exactly
      those that lost their last reference. */
  lemma LostFiles(attachments: AttachmentTable, profiles: ProfileTable, emojis: EmojiTable, gone: set<PostId>)
    ensures OrphanedFiles(AttachmentsWithout(attachments, gone), profiles, emojis, FilesOfPosts(attachments, gone))
         == ReferencedFiles(attachments, profiles, emojis)
            - ReferencedFiles(AttachmentsWithout(attachments, gone), profiles, emojis)
  {
    var attachments' := AttachmentsWithout(attachments, gone);
    forall f | f in AttachedFiles(attachments) && f !in AttachedFiles(attachments')
      ensures f in FilesOfPosts(attachments, gone)
    {
      var a :| a in attachments && attachments[a].fileName == f;
      assert a !in attachments' by {
        assert forall b :: b in attachments' ==> attachments'[b].fileName != f;
      }
    }
  }

  lemma LostObjects(attachments: AttachmentTable, t: PostTable, gone: set<PostId>)
    ensures OrphanedObjects(AttachmentsWithout(attachments, gone), t - gone, ObjectsOfPosts(attachments, t, gone))
         == ReferencedObjects(attachments, t) - ReferencedObjects(AttachmentsWithout(attachments, gone), t - gone)
  {
    var attachments' := AttachmentsWithout(attachments, gone);
    forall c | c in ReferencedObjects(attachments, t) && c !in ReferencedObjects(attachments', t - gone)
      ensures c in ObjectsOfPosts(attachments, t, gone)
    {
      if a :| a in attachments && attachments[a].ipfsCid == Some(c) {
        assert a !in attachments' || attachments'[a].ipfsCid == Some(c);
      } else {
        var p :| p in t && t[p].ipfsCid == Some(c);
        assert forall q :: q in t - gone ==> t[q].ipfsCid != Some(c);
      }
    }
  }
}
