/** The second half of `import_post`: the collected objects are handled from the last to the
    first, each stored before the next is looked at. */
module Replay {
  import opened Collections
  import opened PostGraph
  import opened ImportPost

  datatype PostRef = LocalPost(id: PostId) | RemotePost(objectId: Url)

  /** `get_post_by_object_id`, once the posts `stored` exist. */
  function GetPostByObjectId(w: World, stored: set<Url>, u: Url): Option<PostRef> {
    if w.parseLocal(u).Some? then
      if w.LocalPostExists(u) then Some(LocalPost(w.parseLocal(u).value)) else None
    else if u in stored then Some(RemotePost(u))
    else None
  }

  /** The post to which `u` is redirected is there: local, or stored by now. */
  predicate Found(w: World, stored: set<Url>, redirects: map<Url, Url>, u: Url) {
    match w.parseLocal(Target(redirects, u))
    case Some(p) => p in w.localPosts
    case None => Target(redirects, u) in stored
  }

  /** The checks that have nothing to do with other posts: those before the tags are read, that
      of a tag which is no link, and those after, with `create_post`. */
  datatype Checks = Checks(before: Object -> bool, tag: string -> bool, after: Object -> bool) {
    predicate Accept(note: Object) {
      && before(note) && after(note)
      && forall i :: 0 <= i < |note.tags| && note.tags[i].OtherTag? ==> tag(note.tags[i].name)
    }
  }

  datatype Resolution<+T> = Passed(value: T) | Refused(error: ImportError)

  function AddLink(links: seq<PostRef>, r: PostRef): seq<PostRef> {
    if r in links then links else links + [r]
  }

  /** The loop of `get_object_tags` over the rest of the tags. */
  function ResolveTags(w: World, stored: set<Url>, redirects: map<Url, Url>, checks: Checks, tags: seq<Tag>,
                       links: seq<PostRef>): Resolution<seq<PostRef>>
    decreases |tags|
  {
    if tags == [] then Passed(links)
    else
      match tags[0]
      case OtherTag(name) =>
        if checks.tag(name) then ResolveTags(w, stored, redirects, checks, tags[1..], links) else Refused(Rejected)
      case LinkTag(href) =>
        if |links| >= LINK_LIMIT then ResolveTags(w, stored, redirects, checks, tags[1..], links)
        else
          var linked := GetPostByObjectId(w, stored, Target(redirects, href));
          if linked.None? then Refused(PostNotFound)
          else ResolveTags(w, stored, redirects, checks, tags[1..], AddLink(links, linked.value))
  }

  /** Link tags up to the limit, then the quoted object without a limit. */
  function ResolveLinks(w: World, stored: set<Url>, redirects: map<Url, Url>, checks: Checks, note: Object): Resolution<seq<PostRef>> {
    var links := ResolveTags(w, stored, redirects, checks, note.tags, []);
    if links.Refused? || note.quoteUrl.None? then links
    else
      var linked := GetPostByObjectId(w, stored, Target(redirects, note.quoteUrl.value));
      if linked.None? then Refused(PostNotFound) else Passed(AddLink(links.value, linked.value))
  }

  /** `get_object_tags`, as far as links go. */
  method GetObjectTags(w: World, stored: set<Url>, redirects: map<Url, Url>, checks: Checks, note: Object)
    returns (r: Resolution<seq<PostRef>>)
    ensures r == ResolveLinks(w, stored, redirects, checks, note)
  {
    var links: seq<PostRef> := [];
    for i := 0 to |note.tags|
      invariant ResolveTags(w, stored, redirects, checks, note.tags[i..], links)
             == ResolveTags(w, stored, redirects, checks, note.tags, [])
    {
      assert note.tags[i..][1..] == note.tags[i + 1..];
      match note.tags[i] {
        case OtherTag(name) =>
          if !checks.tag(name) {
            return Refused(Rejected);
          }
        case LinkTag(href) =>
          if |links| >= LINK_LIMIT {
            continue;
          }
          var linked := GetPostByObjectId(w, stored, Target(redirects, href));
          if linked.None? {
            return Refused(PostNotFound);
          }
          if linked.value !in links {
            links := links + [linked.value];
          }
      }
    }
    if note.quoteUrl.Some? {
      var linked := GetPostByObjectId(w, stored, Target(redirects, note.quoteUrl.value));
      if linked.None? {
        return Refused(PostNotFound);
      }
      if linked.value !in links {
        links := links + [linked.value];
      }
    }
    r := Passed(links);
  }

  /** Something that is looked up under `u` is among the links. */
  predicate Linked(w: World, stored: set<Url>, redirects: map<Url, Url>, links: seq<PostRef>, u: Url) {
    Found(w, stored, redirects, u) && GetPostByObjectId(w, stored, Target(redirects, u)).value in links
  }

  function Hrefs(tags: seq<Tag>): seq<Url> {
    if tags == [] then [] else (if tags[0].LinkTag? then [tags[0].href] else []) + Hrefs(tags[1..])
  }

  /** What the loop links, and why it may stop. */
  lemma {:induction false} TagsResolved(w: World, stored: set<Url>, redirects: map<Url, Url>, checks: Checks, tags: seq<Tag>,
                                        links: seq<PostRef>)
    requires NoDuplicates(links) && |links| <= LINK_LIMIT
    ensures var r := ResolveTags(w, stored, redirects, checks, tags, links);
            match r {
              case Passed(found) =>
                && NoDuplicates(found) && |found| <= LINK_LIMIT && links <= found
                && (forall i :: 0 <= i < |tags| && tags[i].OtherTag? ==> checks.tag(tags[i].name))
                && (forall i :: 0 <= i < |Hrefs(tags)| && |links| + i < LINK_LIMIT ==> Linked(w, stored, redirects, found, Hrefs(tags)[i]))
                && (forall x :: x in found && x !in links ==>
                      exists u :: LinkTag(u) in tags && GetPostByObjectId(w, stored, Target(redirects, u)) == Some(x))
              case Refused(error) =>
                || (error == PostNotFound && exists u :: LinkTag(u) in tags && !Found(w, stored, redirects, u))
                || (error == Rejected && exists i :: 0 <= i < |tags| && tags[i].OtherTag? && !checks.tag(tags[i].name))
            }
    decreases |tags|
  {
    if tags != [] {
      var rest := tags[1..];
      assert tags == [tags[0]] + rest;
      match tags[0] {
        case OtherTag(name) =>
          if checks.tag(name) {
            TagsResolved(w, stored, redirects, checks, rest, links);
          }
        case LinkTag(href) =>
          var linked := GetPostByObjectId(w, stored, Target(redirects, href));
          if |links| >= LINK_LIMIT {
            TagsResolved(w, stored, redirects, checks, rest, links);
          } else if linked.Some? {
            TagsResolved(w, stored, redirects, checks, rest, AddLink(links, linked.value));
            LinkedFirst(w, stored, redirects, checks, tags, links);
          } else {
            assert LinkTag(href) in tags && !Found(w, stored, redirects, href);
          }
      }
    }
  }

  lemma LinkedFirst(w: World, stored: set<Url>, redirects: map<Url, Url>, checks: Checks, tags: seq<Tag>, links: seq<PostRef>)
    requires tags != [] && tags[0].LinkTag? && Found(w, stored, redirects, tags[0].href)
    ensures var added := AddLink(links, GetPostByObjectId(w, stored, Target(redirects, tags[0].href)).value);
            var r := ResolveTags(w, stored, redirects, checks, tags[1..], added);
            && Hrefs(tags) == [tags[0].href] + Hrefs(tags[1..])
            && |added| <= |links| + 1
            && (r.Passed? && added <= r.value ==> Linked(w, stored, redirects, r.value, tags[0].href))
  {
    var linked := GetPostByObjectId(w, stored, Target(redirects, tags[0].href)).value;
    var added := AddLink(links, linked);
    var r := ResolveTags(w, stored, redirects, checks, tags[1..], added);
    if r.Passed? && added <= r.value {
      var k :| 0 <= k < |added| && added[k] == linked;
      assert r.value[k] == linked;
    }
  }

  /** What looking up every reference of a note amounts to. */
  predicate AllFound(w: World, stored: set<Url>, redirects: map<Url, Url>, note: Object) {
    (note.inReplyTo.Some? ==> Found(w, stored, redirects, note.inReplyTo.value))
    && forall u :: u in ObjectLinks(note) ==> Found(w, stored, redirects, u)
  }

  /** References that are looked up whatever else the note holds: the parent, the quoted object
      and the first ten links. */
  predicate Consults(note: Object, u: Url) {
    || note.inReplyTo == Some(u) || note.quoteUrl == Some(u)
    || exists i :: 0 <= i < |Hrefs(note.tags)| && i < 10 && Hrefs(note.tags)[i] == u
  }

  lemma {:induction false} HrefsElements(tags: seq<Tag>)
    ensures forall u :: u in Hrefs(tags) <==> LinkTag(u) in tags
  {
    if tags != [] {
      HrefsElements(tags[1..]);
      assert tags == [tags[0]] + tags[1..];
    }
  }

  lemma ConsultedIsReference(note: Object, u: Url)
    requires Consults(note, u)
    ensures DependsOn(note, u)
  {
    TagLinksElements(note.tags);
    HrefsElements(note.tags);
  }

  /** The references of a post made from a note. */
  datatype NewPost = NewPost(inReplyTo: Option<PostRef>, links: seq<PostRef>)

  /** `handle_note`, up to `create_post`. */
  function NoteHandled(w: World, stored: set<Url>, redirects: map<Url, Url>, note: Object, checks: Checks): Resolution<NewPost> {
    if !checks.before(note) then Refused(Rejected)
    else
      var links := ResolveLinks(w, stored, redirects, checks, note);
      if links.Refused? then Refused(links.error)
      else
        var parent := if note.inReplyTo.Some? then GetPostByObjectId(w, stored, Target(redirects, note.inReplyTo.value)) else None;
        if note.inReplyTo.Some? && parent.None? then Refused(PostNotFound)
        else if !checks.after(note) || note.id in stored then Refused(Rejected)
        else Passed(NewPost(parent, links.value))
  }

  method HandleNote(w: World, stored: set<Url>, redirects: map<Url, Url>, note: Object, checks: Checks)
    returns (r: Resolution<NewPost>, stored': set<Url>)
    ensures r == NoteHandled(w, stored, redirects, note, checks)
    ensures stored' == if r.Passed? then stored + {note.id} else stored
  {
    stored' := stored;
    if !checks.before(note) {
      return Refused(Rejected), stored;
    }
    var links := GetObjectTags(w, stored, redirects, checks, note);
    if links.Refused? {
      return Refused(links.error), stored;
    }
    var parent := None;
    if note.inReplyTo.Some? {
      parent := GetPostByObjectId(w, stored, Target(redirects, note.inReplyTo.value));
      if parent.None? {
        return Refused(PostNotFound), stored;
      }
    }
    if !checks.after(note) || note.id in stored {
      return Refused(Rejected), stored;
    }
    r, stored' := Passed(NewPost(parent, links.value)), stored + {note.id};
  }

  /** A note is stored only with every consulted reference resolved and linked, its links
      without repetitions and at most eleven; it is refused only for a missing reference, for
      its own sake, or because it is stored already. */
  lemma NoteOutcome(w: World, stored: set<Url>, redirects: map<Url, Url>, note: Object, checks: Checks)
    ensures match NoteHandled(w, stored, redirects, note, checks) {
              case Passed(post) =>
                && checks.Accept(note) && note.id !in stored
                && NoDuplicates(post.links) && |post.links| <= 11
                && (note.inReplyTo != None ==>
                      match w.parseLocal(Target(redirects, note.inReplyTo.value)) {
                        case Some(p) => p in w.localPosts && post.inReplyTo == Some(LocalPost(p))
                        case None =>
                          && Target(redirects, note.inReplyTo.value) in stored
                          && post.inReplyTo == Some(RemotePost(Target(redirects, note.inReplyTo.value)))
                      })
                && (forall u :: Consults(note, u) ==> Found(w, stored, redirects, u))
                && (forall u :: Consults(note, u) && note.inReplyTo != Some(u) ==> Linked(w, stored, redirects, post.links, u))
                && post.inReplyTo ==
                     (if note.inReplyTo.Some? then GetPostByObjectId(w, stored, Target(redirects, note.inReplyTo.value)) else None)
              case Refused(error) =>
                || (error == PostNotFound && !AllFound(w, stored, redirects, note))
                || (error == Rejected && (!checks.Accept(note) || note.id in stored))
            }
  {
    TagsResolved(w, stored, redirects, checks, note.tags, []);
    TagLinksElements(note.tags);
    var tags := ResolveTags(w, stored, redirects, checks, note.tags, []);
    if tags.Refused? && tags.error == PostNotFound {
      var u :| LinkTag(u) in note.tags && !Found(w, stored, redirects, u);
      assert u in ObjectLinks(note);
    }
    assert note.quoteUrl.Some? ==> note.quoteUrl.value in ObjectLinks(note);
  }

  datatype ImportResult = Imported(id: Url) | NotImported(error: ImportError) | Panicked

  function IdsFrom(objects: seq<Object>, i: nat): set<Url> {
    set j | i <= j < |objects| :: objects[j].id
  }

  /** What is resolved by the stored posts and the later objects is found once those are handled. */
  lemma ResolvedIsFound(w: World, s: State, i: nat)
    requires Replayable(w, s) && i < |s.objects|
    ensures AllFound(w, w.stored + IdsFrom(s.objects, i + 1), s.redirects, s.objects[i])
  {
    var note, stored := s.objects[i], w.stored + IdsFrom(s.objects, i + 1);
    forall u | DependsOn(note, u) ensures Found(w, stored, s.redirects, u) {
      assert DependsOn(s.objects[i], u) && Resolved(w, s.objects, s.redirects, i, u);
    }
    assert note.inReplyTo.Some? ==> DependsOn(note, note.inReplyTo.value);
    assert forall u :: u in ObjectLinks(note) ==> DependsOn(note, u);
  }

  /** A consulted reference of `objects[i]` leads to it or to an object collected before it. */
  ghost predicate ConsultsBack(s: State, i: nat) {
    i < |s.objects| && exists j, u :: 0 <= j <= i && Consults(s.objects[i], u) && s.objects[j].id == Target(s.redirects, u)
  }

  lemma BackIsNotFound(w: World, s: State, free: nat, i: nat)
    requires Sound(w, s, free) && ConsultsBack(s, i)
    ensures exists u :: Consults(s.objects[i], u) && !Found(w, w.stored + IdsFrom(s.objects, i + 1), s.redirects, u)
    ensures HasBackReference(s)
  {
    var j, u :| 0 <= j <= i && Consults(s.objects[i], u) && s.objects[j].id == Target(s.redirects, u);
    assert w.Unknown(s.objects[j].id);
    ConsultedIsReference(s.objects[i], u);
    assert !Found(w, w.stored + IdsFrom(s.objects, i + 1), s.redirects, u);
  }

  /** What handling `objects[i]` at its turn means. */
  lemma TurnOutcome(w: World, s: State, free: nat, i: nat, checks: Checks)
    requires Sound(w, s, free) && i < |s.objects|
    ensures match NoteHandled(w, w.stored + IdsFrom(s.objects, i + 1), s.redirects, s.objects[i], checks) {
              case Passed(_) => checks.Accept(s.objects[i]) && !ConsultsBack(s, i)
              case Refused(error) =>
                (error == PostNotFound && !Replayable(w, s)) || (error == Rejected && !checks.Accept(s.objects[i]))
            }
  {
    NoteOutcome(w, w.stored + IdsFrom(s.objects, i + 1), s.redirects, s.objects[i], checks);
    assert w.Unknown(s.objects[i].id);
    if Replayable(w, s) {
      ResolvedIsFound(w, s, i);
    }
    if ConsultsBack(s, i) {
      BackIsNotFound(w, s, free, i);
    }
  }

  /** `objects.reverse()` and the loop over `handle_note`. A lookup fails only for a reference
      that the posts stored before and the later objects do not resolve, and it does fail for
      a consulted reference back. */
  method ReplayObjects(w: World, s: State, ghost free: nat, checks: Checks)
    returns (error: Option<ImportError>, posts: seq<Url>, stored: set<Url>)
    requires Sound(w, s, free)
    ensures w.stored <= stored
    ensures error.None? ==> stored == w.stored + IdsFrom(s.objects, 0) && forall i :: 0 <= i < |s.objects| ==> s.objects[i].id in posts
    ensures error.None? ==> forall i :: 0 <= i < |s.objects| ==> checks.Accept(s.objects[i]) && !ConsultsBack(s, i)
    ensures error.Some? ==> error.value == PostNotFound || error.value == Rejected
    ensures error == Some(PostNotFound) ==> !Replayable(w, s)
    ensures error == Some(Rejected) ==> exists i :: 0 <= i < |s.objects| && !checks.Accept(s.objects[i])
  {
    posts, stored := [], w.stored;
    var i := |s.objects|;
    while i > 0
      invariant 0 <= i <= |s.objects|
      invariant stored == w.stored + IdsFrom(s.objects, i)
      invariant forall j :: i <= j < |s.objects| ==> s.objects[j].id in posts && checks.Accept(s.objects[j]) && !ConsultsBack(s, j)
    {
      i := i - 1;
      TurnOutcome(w, s, free, i, checks);
      var handled, next := HandleNote(w, stored, s.redirects, s.objects[i], checks);
      if handled.Refused? {
        error := Some(handled.error);
        return;
      }
      assert IdsFrom(s.objects, i) == IdsFrom(s.objects, i + 1) + {s.objects[i].id};
      posts, stored := posts + [s.objects[i].id], next;
    }
    error := None;
  }

  /** A chain of replies refers forward only. */
  lemma ChainRefersForward(w: World, id: Url, received: Option<Object>, chain: seq<Object>)
    requires IsChain(w, id, received, chain)
    ensures !HasBackReference(State([], |chain| - Given(received), None, chain, map[], false))
  {
    var s := State([], |chain| - Given(received), None, chain, map[], false);
    forall i, j, u | 0 <= j <= i < |chain| && DependsOn(chain[i], u) ensures chain[j].id != Target(s.redirects, u) {
      NoLinks(chain[i]);
      assert chain[i].inReplyTo == Some(u);
      assert w.parseLocal(chain[j].id) == None && chain[j].id !in w.stored;
      if i + 1 < |chain| {
        assert chain[i].inReplyTo == Some(chain[i + 1].id);
        assert chain[j].id != chain[i + 1].id;
      }
    }
  }

  /** What the outcome of the collection must be for a chain, and for an import that cannot start. */
  lemma SimpleImports(w: World, id: Url, received: Option<Object>)
    requires w.parseLocal(id).None?
    ensures id in w.stored ==> Run(w, Start(id, received)) == Existing(id)
    ensures id !in w.stored && received.None? && w.answers(0, id).None? ==> Run(w, Start(id, received)) == Failed(FetchFailed)
    ensures var first := FirstObject(w, id, received);
            id !in w.stored && first.Some? && first.value.id != id && w.parseLocal(first.value.id).None? && first.value.id in w.stored ==>
              Run(w, Start(id, received)) == Existing(first.value.id)
    ensures forall chain :: IsChain(w, id, received, chain) ==>
              && Run(w, Start(id, received)).Collected? && Run(w, Start(id, received)).final.objects == chain
              && !HasBackReference(Run(w, Start(id, received)).final)
  {
    var start := Start(id, received);
    assert start.queue[..0] == [];
    if Step(w, start).Continue? {
      assert Run(w, start) == Run(w, Step(w, start).next);
    }
    forall chain | IsChain(w, id, received, chain)
      ensures && Run(w, Start(id, received)).Collected? && Run(w, Start(id, received)).final.objects == chain
              && !HasBackReference(Run(w, Start(id, received)).final)
    {
      ChainIsCollected(w, id, received, chain, 0);
      assert chain[..0] == [];
      assert Climbing(received, chain, 0) == Start(id, received);
      ChainRefersForward(w, id, received, chain);
    }
  }

  /** The body of `import_post`. */
  method CollectAndReplay(w: World, id: Url, received: Option<Object>, checks: Checks)
    returns (r: ImportResult, stored: set<Url>)
    ensures w.parseLocal(id).Some? <==> r == NotImported(LocalObject)
    ensures w.stored <= stored
    ensures r.Imported? ==> r.id in stored
    ensures r.Panicked? <==>
              var first := FirstObject(w, id, received);
              && w.parseLocal(id).None? && id !in w.stored
              && first.Some? && first.value.id != id && w.LocalPostExists(first.value.id)
    ensures w.parseLocal(id).None? && Run(w, Start(id, received)).Collected? && !r.Panicked? ==>
              var s := Run(w, Start(id, received)).final;
              && (r.Imported? ==>
                    && r.id == FirstObject(w, id, received).value.id && stored == w.stored + IdsFrom(s.objects, 0)
                    && forall i :: 0 <= i < |s.objects| ==> checks.Accept(s.objects[i]) && !ConsultsBack(s, i))
              && (r == NotImported(PostNotFound) ==> HasBackReference(s))
              && (r == NotImported(Rejected) ==> exists i :: 0 <= i < |s.objects| && !checks.Accept(s.objects[i]))
              && (r.NotImported? ==> r.error == PostNotFound || r.error == Rejected)
    ensures LoopFree(w, id, received) ==> r != NotImported(PostNotFound)
    ensures w.parseLocal(id).None? ==>
              match Run(w, Start(id, received)) {
                case Existing(x) => r == Imported(x) && stored == w.stored
                case Failed(error) => r == NotImported(error) && stored == w.stored
                case Collected(_) => r.NotImported? ==> r.error == PostNotFound || r.error == Rejected
              }
  {
    stored := w.stored;
    if w.parseLocal(id).Some? {
      return NotImported(LocalObject), stored;
    }
    ghost var free := Held(Start(id, received));
    RunCollects(w, Start(id, received), free);
    FirstObjectMissing(w, id, received);
    var outcome := Collect(w, id, received);
    match outcome {
      case Existing(x) =>
        r := Imported(x);
      case Failed(error) =>
        r := NotImported(error);
      case Collected(s) =>
        if |s.objects| == 0 {
          return Panicked, stored;
        }
        ReplayOrder(w, id, received);
        if LoopFree(w, id, received) {
          LoopFreeReplay(w, id, received);
        }
        var error, posts;
        error, posts, stored := ReplayObjects(w, s, free, checks);
        if error.Some? {
          return NotImported(error.value), stored;
        }
        if s.objects[0].id !in posts {
          return Panicked, stored;
        }
        r := Imported(s.objects[0].id);
    }
  }

  /** `import_post` as a whole. Once objects have been collected, a post is missing only if one
      of them refers back, and if a consulted reference does and the notes are accepted, a post
      is missing. */
  method Import(w: World, id: Url, received: Option<Object>, checks: Checks)
    returns (r: ImportResult, stored: set<Url>)
    ensures w.parseLocal(id).Some? <==> r == NotImported(LocalObject)
    ensures w.stored <= stored
    ensures r.Imported? ==> r.id in stored
    ensures r.Panicked? <==>
              var first := FirstObject(w, id, received);
              && w.parseLocal(id).None? && id !in w.stored
              && first.Some? && first.value.id != id && w.LocalPostExists(first.value.id)
    ensures w.parseLocal(id).None? && Run(w, Start(id, received)).Collected? && !r.Panicked? ==>
              var s := Run(w, Start(id, received)).final;
              && (r.Imported? ==>
                    && r.id == FirstObject(w, id, received).value.id && stored == w.stored + IdsFrom(s.objects, 0)
                    && forall i :: 0 <= i < |s.objects| ==> checks.Accept(s.objects[i]) && !ConsultsBack(s, i))
              && (r == NotImported(PostNotFound) ==> HasBackReference(s))
              && (r == NotImported(Rejected) ==> exists i :: 0 <= i < |s.objects| && !checks.Accept(s.objects[i]))
              && (r.NotImported? ==> r.error == PostNotFound || r.error == Rejected)
    ensures LoopFree(w, id, received) ==> r != NotImported(PostNotFound)
    // a remote post that is stored already, under the id asked for
    ensures w.parseLocal(id).None? && id in w.stored ==> r == Imported(id) && stored == w.stored
    // an unknown one that cannot be fetched
    ensures w.parseLocal(id).None? && id !in w.stored && received.None? && w.answers(0, id).None? ==>
              r == NotImported(FetchFailed) && stored == w.stored
    // an unknown one that turns out to be stored under another id
    ensures var first := FirstObject(w, id, received);
            && w.parseLocal(id).None? && id !in w.stored && first.Some? && first.value.id != id
            && w.parseLocal(first.value.id).None? && first.value.id in w.stored ==>
              r == Imported(first.value.id) && stored == w.stored
    // fifty fetches before a recursion error
    ensures r == NotImported(RecursionError) ==> stored == w.stored && AllAnswered(w, 50)
    ensures r == NotImported(FetchFailed) ==> stored == w.stored && exists k, u :: 0 <= k < 50 && w.answers(k, u).None?
    // a chain of at most fifty unknown parents
    ensures forall chain :: IsChain(w, id, received, chain) && (forall k :: 0 <= k < |chain| ==> checks.Accept(chain[k])) ==>
              r == Imported(id) && stored == w.stored + IdsFrom(chain, 0)
  {
    r, stored := CollectAndReplay(w, id, received, checks);
    if w.parseLocal(id).None? {
      SimpleImports(w, id, received);
      WhyCollectingFails(w, Start(id, received));
    }
  }
}
