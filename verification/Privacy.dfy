/** Who gets to read a post that has been created or edited. */
module Privacy {
  import opened Collections
  import opened PostGraph
  import opened Schema
  import opened Posting
  import opened Thread

  /** `get_thread` finds the post for this viewer. */
  predicate Finds(rows: PostRows, relationships: set<Relationship>, viewer: Option<ProfileId>, id: PostId) {
    Original(rows.posts, id) && MayRead(rows, relationships, viewer, id)
  }

  /** A Direct post, once created, is found by its author and those mentioned, and by nobody else. */
  lemma DirectPostIsPrivate(before: PostRows, after: PostRows, relationships: set<Relationship>, id: PostId, author: ProfileId,
                            data: PostCreateData, viewer: Option<ProfileId>)
    requires PostCreated(before, after, id, author, data) && data.visibility == Direct && data.repostOf == None
    ensures Finds(after, relationships, viewer, id) <==>
              viewer == Some(author) || (viewer != None && viewer.value in data.related.mentions)
  {
    if viewer.Some? {
      assert Mention(id, viewer.value) in after.mentions <==> viewer.value in data.related.mentions;
    }
  }

  /** A Followers post is also found by whoever follows its author. */
  lemma FollowersPostIsShared(before: PostRows, after: PostRows, relationships: set<Relationship>, id: PostId, author: ProfileId,
                              data: PostCreateData, viewer: Option<ProfileId>)
    requires PostCreated(before, after, id, author, data) && data.visibility == Visibility.Followers && data.repostOf == None
    ensures Finds(after, relationships, viewer, id) <==>
              || viewer == Some(author)
              || (viewer != None && (viewer.value in data.related.mentions
                                     || Relationship(viewer.value, author, RelationshipType.Follow) in relationships))
  {
    if viewer.Some? {
      assert Mention(id, viewer.value) in after.mentions <==> viewer.value in data.related.mentions;
    }
  }

  /** An edit of a Direct post takes it from those it no longer mentions. */
  lemma EditedPostIsPrivate(before: PostRows, after: PostRows, relationships: set<Relationship>, id: PostId,
                            content: string, isSensitive: bool, related: Related, viewer: Option<ProfileId>)
    requires PostEdited(before, after, id, content, isSensitive, related)
    requires before.posts[id].visibility == Direct && before.posts[id].repostOf == None
    ensures Finds(after, relationships, viewer, id) <==>
              viewer == Some(before.posts[id].author) || (viewer != None && viewer.value in related.mentions)
  {
    if viewer.Some? {
      assert Mention(id, viewer.value) in after.mentions <==> viewer.value in related.mentions;
    }
  }

  /** Neither creating nor editing a post changes who finds any other. */
  lemma OtherPostsKeepReaders(before: PostRows, after: PostRows, relationships: set<Relationship>, id: PostId, related: Related,
                              other: PostId, viewer: Option<ProfileId>)
    requires OthersStay(before, after, id, related) && other != id
    ensures Finds(after, relationships, viewer, other) <==> Finds(before, relationships, viewer, other)
  {
    assert other in after.posts <==> other in before.posts;
    if other in after.posts {
      assert after.posts[other] == before.posts[other];
    }
    if viewer.Some? {
      assert Mention(other, viewer.value) in after.mentions <==> Mention(other, viewer.value) in before.mentions;
    }
  }
}
