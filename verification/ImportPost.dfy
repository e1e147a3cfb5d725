/** `import_post`: collecting a remote thread from arbitrary servers, then replaying it. */
module ImportPost {
  import opened Collections
  import opened PostGraph

  datatype Url = Url(text: string)

  /** An entry of `tag`: a link with an accepted media type, or anything else, such as a mention. */
  datatype Tag = LinkTag(href: Url) | OtherTag(name: string)

  /** The parts of a remote object that refer to other objects, and its other tags. */
  datatype Object = Object(id: Url, inReplyTo: Option<Url>, tags: seq<Tag>, quoteUrl: Option<Url>)

  datatype ImportError =
    | LocalObject
    | PostNotFound    // a local or remote post that had to exist does not
    | RecursionError
    | FetchFailed
    | Rejected        // handle_note refuses the object for a reason unrelated to other posts

  /** What one import sees: how ids parse, the posts stored when it starts, and the answer of
      the network to the n-th fetch. */
  datatype World = World(
    parseLocal: Url -> Option<PostId>,
    localPosts: set<PostId>,
    stored: set<Url>,
    answers: (nat, Url) -> Option<Object>)
  {
    predicate LocalPostExists(u: Url) {
      parseLocal(u).Some? && parseLocal(u).value in localPosts
    }

    /** `get_post_by_object_id` finds a post now. */
    predicate Known(u: Url) {
      if parseLocal(u).Some? then parseLocal(u).value in localPosts else u in stored
    }

    predicate Unknown(u: Url) {
      parseLocal(u).None? && u !in stored
    }
  }

  const RECURSION_DEPTH_MAX := 50
  const LINK_LIMIT := 10

  // get_object_links

  function TagLinks(tags: seq<Tag>): seq<Url> {
    if tags == [] then []
    else
      var links, last := TagLinks(tags[..|tags| - 1]), tags[|tags| - 1];
      if last.LinkTag? && last.href !in links then links + [last.href] else links
  }

  function ObjectLinks(note: Object): seq<Url> {
    var links := TagLinks(note.tags);
    if note.quoteUrl.Some? && note.quoteUrl.value !in links then links + [note.quoteUrl.value] else links
  }

  lemma {:induction false} TagLinksElements(tags: seq<Tag>)
    ensures NoDuplicates(TagLinks(tags))
    ensures forall u :: u in TagLinks(tags) <==> LinkTag(u) in tags
  {
    if tags != [] {
      var n := |tags| - 1;
      TagLinksElements(tags[..n]);
      assert tags == tags[..n] + [tags[n]];
    }
  }

  method GetObjectLinks(note: Object) returns (links: seq<Url>)
    ensures links == ObjectLinks(note)
    ensures NoDuplicates(links)
    ensures forall u :: u in links <==> LinkTag(u) in note.tags || note.quoteUrl == Some(u)
  {
    links := [];
    for i := 0 to |note.tags|
      invariant links == TagLinks(note.tags[..i])
    {
      assert note.tags[..i + 1][..i] == note.tags[..i];
      if note.tags[i].LinkTag? {
        if note.tags[i].href !in links {
          links := links + [note.tags[i].href];
        }
      }
    }
    assert note.tags[..|note.tags|] == note.tags;
    TagLinksElements(note.tags);
    if note.quoteUrl.Some? {
      if note.quoteUrl.value !in links {
        links := links + [note.quoteUrl.value];
      }
    }
  }

  /** Everything `handle_note` looks up for an object. */
  predicate DependsOn(note: Object, u: Url) {
    note.inReplyTo == Some(u) || u in ObjectLinks(note)
  }

  // The worklist

  /** The variables of the loop; `looped` records that "loop detected" was logged. */
  datatype State = State(
    queue: seq<Url>,
    fetchCount: nat,
    held: Option<Object>,
    objects: seq<Object>,
    redirects: map<Url, Url>,
    looped: bool)

  datatype Outcome =
    | Existing(id: Url)
    | Collected(final: State)
    | Failed(error: ImportError)

  datatype StepResult = Continue(next: State) | Stop(outcome: Outcome)

  predicate Holds(objects: seq<Object>, u: Url) {
    exists i :: 0 <= i < |objects| && objects[i].id == u
  }

  /** `queue.insert(0, link)` for every link. */
  function Prepend(links: seq<Url>, queue: seq<Url>): seq<Url> {
    if links == [] then queue else Prepend(links[1..], [links[0]] + queue)
  }

  lemma {:induction false} PrependKeeps(links: seq<Url>, queue: seq<Url>)
    ensures forall u :: u in Prepend(links, queue) <==> u in links || u in queue
    ensures |Prepend(links, queue)| == |links| + |queue|
    ensures Prepend(links, queue)[|links|..] == queue
  {
    if links != [] {
      PrependKeeps(links[1..], [links[0]] + queue);
      assert links == [links[0]] + links[1..];
      var rest := Prepend(links[1..], [links[0]] + queue);
      assert rest[|links|..] == rest[|links[1..]|..][1..];
    }
  }

  /** The object is pushed, with its reply parent on top of the queue and its links below. */
  function Accept(s: State, queue: seq<Url>, count: nat, note: Object): State {
    State(
      Prepend(ObjectLinks(note), if note.inReplyTo.Some? then queue + [note.inReplyTo.value] else queue),
      count, None, s.objects + [note], s.redirects, s.looped)
  }

  /** One round of the loop. */
  function Step(w: World, s: State): StepResult
    requires s.queue != []
  {
    var id := s.queue[|s.queue| - 1];
    var queue := s.queue[..|s.queue| - 1];
    if Holds(s.objects, id) then Continue(s.(queue := queue, looped := true))
    else if w.parseLocal(id).Some? then
      if w.LocalPostExists(id) then Continue(s.(queue := queue)) else Stop(Failed(PostNotFound))
    else if id in w.stored then
      if s.objects == [] then Stop(Existing(id)) else Continue(s.(queue := queue))
    else if s.held.None? && s.fetchCount >= RECURSION_DEPTH_MAX then Stop(Failed(RecursionError))
    else if s.held.None? && w.answers(s.fetchCount, id).None? then Stop(Failed(FetchFailed))
    else
      var note := if s.held.Some? then s.held.value else w.answers(s.fetchCount, id).value;
      var count := if s.held.Some? then s.fetchCount else s.fetchCount + 1;
      if note.id != id then
        Continue(State(queue + [note.id], count, Some(note), s.objects, s.redirects[id := note.id], s.looped))
      else
        Continue(Accept(s, queue, count, note))
  }

  /** The object in hand is not the one on top of the queue. */
  function Mismatch(s: State): nat {
    if s.held.Some? && s.queue != [] && s.queue[|s.queue| - 1] != s.held.value.id then 1 else 0
  }

  /** The loop, run to its end: it ends whatever the servers answer. */
  function Run(w: World, s: State): Outcome
    requires s.fetchCount <= RECURSION_DEPTH_MAX
    decreases RECURSION_DEPTH_MAX - s.fetchCount, if s.held.Some? then 1 else 0, |s.queue|, Mismatch(s)
  {
    if s.queue == [] then Collected(s)
    else
      match Step(w, s)
      case Stop(outcome) => outcome
      case Continue(next) => Run(w, next)
  }

  function Start(id: Url, received: Option<Object>): State {
    State([id], 0, received, [], map[], false)
  }

  method InsertAll(links: seq<Url>, queue: seq<Url>) returns (q: seq<Url>)
    ensures q == Prepend(links, queue)
  {
    q := queue;
    for i := 0 to |links|
      invariant Prepend(links[i..], q) == Prepend(links, queue)
    {
      q := [links[i]] + q;
    }
  }

  /** The parent is fetched on the next iteration, linked objects after the current thread. */
  method QueueReferences(queue: seq<Url>, note: Object) returns (q: seq<Url>)
    ensures q == Prepend(ObjectLinks(note), if note.inReplyTo.Some? then queue + [note.inReplyTo.value] else queue)
  {
    q := queue;
    if note.inReplyTo.Some? {
      q := q + [note.inReplyTo.value];
    }
    var links := GetObjectLinks(note);
    q := InsertAll(links, q);
  }

  /** `s` is a state the loop passes through on its way to `outcome`. */
  predicate LeadsTo(w: World, s: State, outcome: Outcome) {
    s.fetchCount <= RECURSION_DEPTH_MAX && Run(w, s) == outcome
  }

  lemma LeadsOn(w: World, s: State, outcome: Outcome)
    requires LeadsTo(w, s, outcome) && s.queue != []
    ensures Step(w, s).Continue? ==> LeadsTo(w, Step(w, s).next, outcome)
    ensures Step(w, s).Stop? ==> Step(w, s).outcome == outcome
  {
  }

  /** The loop as written, one variable at a time. */
  method Collect(w: World, id: Url, received: Option<Object>) returns (outcome: Outcome)
    ensures outcome == Run(w, Start(id, received))
  {
    var queue, fetchCount, held := [id], 0, received;
    var objects: seq<Object>, redirects: map<Url, Url>, looped := [], map[], false;
    ghost var end := Run(w, Start(id, received));
    while queue != []
      invariant LeadsTo(w, State(queue, fetchCount, held, objects, redirects, looped), end)
      decreases RECURSION_DEPTH_MAX - fetchCount, if held.Some? then 1 else 0, |queue|,
                Mismatch(State(queue, fetchCount, held, objects, redirects, looped))
    {
      LeadsOn(w, State(queue, fetchCount, held, objects, redirects, looped), end);
      var objectId := queue[|queue| - 1];
      queue := queue[..|queue| - 1];
      if exists i :: 0 <= i < |objects| && objects[i].id == objectId {
        looped := true;
        continue;
      }
      if w.parseLocal(objectId).Some? {
        if w.parseLocal(objectId).value !in w.localPosts {
          return Failed(PostNotFound);
        }
        continue;
      }
      if objectId in w.stored {
        if |objects| == 0 {
          return Existing(objectId);
        }
        continue;
      }
      var note;
      if held.Some? {
        note := held.value;
      } else {
        if fetchCount >= RECURSION_DEPTH_MAX {
          return Failed(RecursionError);
        }
        var answer := w.answers(fetchCount, objectId);
        if answer.None? {
          return Failed(FetchFailed);
        }
        note := answer.value;
        fetchCount := fetchCount + 1;
      }
      if note.id != objectId {
        redirects := redirects[objectId := note.id];
        queue := queue + [note.id];
        held := Some(note);
        continue;
      }
      queue := QueueReferences(queue, note);
      held := None;
      objects := objects + [note];
    }
    outcome := Collected(State(queue, fetchCount, held, objects, redirects, looped));
  }

  // Whatever the servers answer

  predicate DistinctIds(objects: seq<Object>) {
    forall i, j :: 0 <= i < j < |objects| ==> objects[i].id != objects[j].id
  }

  function Held(s: State): nat {
    if s.held.Some? then 1 else 0
  }

  /** True in every round; `free` is 1 when the first object came with the activity. */
  predicate Sound(w: World, s: State, free: nat) {
    && s.fetchCount <= RECURSION_DEPTH_MAX
    && |s.objects| + Held(s) <= s.fetchCount + free
    && DistinctIds(s.objects)
    && (forall i :: 0 <= i < |s.objects| ==> w.Unknown(s.objects[i].id))
    && (forall u :: u in s.redirects ==> w.Unknown(u) && s.redirects[u] != u)
  }

  lemma StepKeepsSound(w: World, s: State, free: nat)
    requires Sound(w, s, free) && s.queue != []
    ensures Step(w, s).Continue? ==> Sound(w, Step(w, s).next, free)
    ensures Step(w, s).Stop? ==> !Step(w, s).outcome.Collected?
  {
    if Step(w, s).Continue? {
      var next := Step(w, s).next;
      assert DistinctIds(next.objects) by {
        assert next.objects == s.objects || !Holds(s.objects, s.queue[|s.queue| - 1]);
      }
    }
  }

  /** At most 50 fetches; the collected objects have different ids, none of them local or
      already stored; and only unknown ids were redirected. */
  lemma {:induction false} RunCollects(w: World, s: State, free: nat)
    requires Sound(w, s, free)
    ensures Run(w, s).Collected? ==> Run(w, s).final.queue == [] && Sound(w, Run(w, s).final, free)
    ensures Run(w, s).Existing? ==> Run(w, s).id in w.stored
    ensures Run(w, s).Failed? ==> Run(w, s).error in {PostNotFound, RecursionError, FetchFailed}
    decreases RECURSION_DEPTH_MAX - s.fetchCount, if s.held.Some? then 1 else 0, |s.queue|, Mismatch(s)
  {
    if s.queue != [] {
      StepKeepsSound(w, s, free);
      if Step(w, s).Continue? {
        RunCollects(w, Step(w, s).next, free);
      }
    }
  }

  // What the failures of a collection mean

  /** The k-th fetch has been answered, under some URL. */
  ghost predicate Answered(w: World, k: nat) {
    exists u :: w.answers(k, u).Some?
  }

  ghost predicate AllAnswered(w: World, n: nat) {
    forall k {:trigger Answered(w, k)} :: 0 <= k < n ==> Answered(w, k)
  }

  /** Too deep a recursion means fifty answered fetches, a failed fetch one without an answer,
      and a missing post a local id without a post. */
  lemma {:induction false} WhyCollectingFails(w: World, s: State)
    requires s.fetchCount <= RECURSION_DEPTH_MAX && AllAnswered(w, s.fetchCount)
    ensures Run(w, s) == Failed(RecursionError) ==> AllAnswered(w, 50)
    ensures Run(w, s) == Failed(FetchFailed) ==> exists k, u :: 0 <= k < 50 && w.answers(k, u).None?
    ensures Run(w, s) == Failed(PostNotFound) ==> exists u :: w.parseLocal(u).Some? && w.parseLocal(u).value !in w.localPosts
    decreases RECURSION_DEPTH_MAX - s.fetchCount, if s.held.Some? then 1 else 0, |s.queue|, Mismatch(s)
  {
    if s.queue != [] {
      var id := s.queue[|s.queue| - 1];
      if Step(w, s).Continue? {
        var next := Step(w, s).next;
        if next.fetchCount == s.fetchCount + 1 {
          assert Answered(w, s.fetchCount);
        }
        WhyCollectingFails(w, next);
      } else {
        assert w.answers(s.fetchCount, id).None? || w.answers(s.fetchCount, id).Some?;
      }
    }
  }

  // A chain of replies

  /** How many of the first objects came with the activity. */
  function Given(received: Option<Object>): nat {
    if received.Some? then 1 else 0
  }

  /** Each object is the reply parent of the one before; all are unknown, different, without
      links, and answered under their own ids in turn; the last replies to nothing or to a post
      that is there. At most fifty have to be fetched. */
  ghost predicate IsChain(w: World, id: Url, received: Option<Object>, chain: seq<Object>) {
    && chain != [] && chain[0].id == id && |chain| <= 50 + Given(received)
    && (received.Some? ==> chain[0] == received.value)
    && DistinctIds(chain)
    && (forall k {:trigger chain[k]} :: 0 <= k < |chain| ==>
          && w.parseLocal(chain[k].id) == None && chain[k].id !in w.stored
          && chain[k].quoteUrl == None && (forall t :: t in chain[k].tags ==> t.OtherTag?))
    && (forall k :: Given(received) <= k < |chain| ==> w.answers(k - Given(received), chain[k].id) == Some(chain[k]))
    && (forall k :: 0 <= k < |chain| - 1 ==> chain[k].inReplyTo == Some(chain[k + 1].id))
    && (chain[|chain| - 1].inReplyTo != None ==> w.Known(chain[|chain| - 1].inReplyTo.value))
  }

  /** The state in which the k-th object of the chain is next. */
  function Climbing(received: Option<Object>, chain: seq<Object>, k: nat): State
    requires k < |chain|
  {
    if k < Given(received) then Start(chain[0].id, received)
    else State([chain[k].id], k - Given(received), None, chain[..k], map[], false)
  }

  lemma NoLinks(note: Object)
    requires note.quoteUrl == None && forall t :: t in note.tags ==> t.OtherTag?
    ensures ObjectLinks(note) == []
  {
    TagLinksElements(note.tags);
    SomeElement(TagLinks(note.tags));
  }

  lemma SomeElement<T>(s: seq<T>)
    ensures s != [] ==> exists x :: x in s
  {
    if s != [] {
      assert s[0] in s;
    }
  }

  lemma ChainStep(w: World, id: Url, received: Option<Object>, chain: seq<Object>, k: nat)
    requires IsChain(w, id, received, chain) && k < |chain|
    ensures Climbing(received, chain, k).fetchCount <= RECURSION_DEPTH_MAX
    ensures Step(w, Climbing(received, chain, k)) == Continue(
              State(if chain[k].inReplyTo.Some? then [chain[k].inReplyTo.value] else [],
                    k + 1 - Given(received), None, chain[..k + 1], map[], false))
  {
    var s := Climbing(received, chain, k);
    assert w.parseLocal(chain[k].id) == None && chain[k].id !in w.stored;
    assert !Holds(s.objects, chain[k].id);
    assert chain[..k + 1] == chain[..k] + [chain[k]];
    NoLinks(chain[k]);
    assert s.queue[..|s.queue| - 1] == [];
  }

  lemma {:induction false} ChainIsCollected(w: World, id: Url, received: Option<Object>, chain: seq<Object>, k: nat)
    requires IsChain(w, id, received, chain) && k < |chain|
    ensures Climbing(received, chain, k).fetchCount <= RECURSION_DEPTH_MAX
    ensures Run(w, Climbing(received, chain, k)) ==
              Collected(State([], |chain| - Given(received), None, chain, map[], false))
    decreases |chain| - k
  {
    var s := Climbing(received, chain, k);
    ChainStep(w, id, received, chain, k);
    var next := Step(w, s).next;
    assert Run(w, s) == Run(w, next);
    if k + 1 < |chain| {
      assert chain[k].inReplyTo == Some(chain[k + 1].id);
      assert next == Climbing(received, chain, k + 1);
      ChainIsCollected(w, id, received, chain, k + 1);
    } else {
      assert chain[..|chain|] == chain;
      if chain[k].inReplyTo.Some? {
        ParentIsThere(w, chain, next);
      }
    }
  }

  /** The queue ends with a post that is there. */
  lemma ParentIsThere(w: World, chain: seq<Object>, s: State)
    requires s.fetchCount <= RECURSION_DEPTH_MAX && |s.queue| == 1 && w.Known(s.queue[0]) && s.objects == chain && chain != []
    requires forall k {:trigger chain[k]} :: 0 <= k < |chain| ==> w.parseLocal(chain[k].id) == None && chain[k].id !in w.stored
    ensures Run(w, s) == Collected(s.(queue := []))
  {
    assert !Holds(s.objects, s.queue[0]);
    assert s.queue[..0] == [];
    assert Step(w, s) == Continue(s.(queue := []));
    assert Run(w, s) == Run(w, s.(queue := []));
  }

  // When the first object is not what was asked for

  /** The first object, as received or as fetched. */
  function FirstObject(w: World, id: Url, received: Option<Object>): Option<Object> {
    if received.Some? then received else w.answers(0, id)
  }

  lemma {:induction false} ObjectsStay(w: World, s: State)
    requires s.fetchCount <= RECURSION_DEPTH_MAX && s.objects != []
    ensures Run(w, s).Collected? ==> Run(w, s).final.objects != [] && Run(w, s).final.objects[0] == s.objects[0]
    ensures !Run(w, s).Existing?
    decreases RECURSION_DEPTH_MAX - s.fetchCount, if s.held.Some? then 1 else 0, |s.queue|, Mismatch(s)
  {
    if s.queue != [] && Step(w, s).Continue? {
      ObjectsStay(w, Step(w, s).next);
    }
  }

  /** `objects[0]` is out of bounds exactly when the first object, asked for under an unknown
      remote id, turns out to carry the id of an existing local post; otherwise it is that
      first object. */
  lemma {:induction false} FirstObjectMissing(w: World, id: Url, received: Option<Object>)
    requires w.parseLocal(id).None?
    ensures var outcome := Run(w, Start(id, received));
            (outcome.Collected? && outcome.final.objects == []) <==>
              var first := FirstObject(w, id, received);
              id !in w.stored && first.Some? && first.value.id != id && w.LocalPostExists(first.value.id)
    ensures var outcome := Run(w, Start(id, received));
            outcome.Collected? && outcome.final.objects != [] ==>
              Some(outcome.final.objects[0]) == FirstObject(w, id, received)
  {
    var s0 := Start(id, received);
    if Step(w, s0).Continue? {
      var s1 := Step(w, s0).next;
      assert Run(w, s0) == Run(w, s1);
      if s1.objects != [] {
        ObjectsStay(w, s1);
      } else {
        FirstRedirect(w, s1);
      }
    }
  }

  /** Only the id of the object in hand is left to process. */
  lemma FirstRedirect(w: World, s: State)
    requires s.fetchCount <= RECURSION_DEPTH_MAX && s.objects == [] && s.held.Some? && s.queue == [s.held.value.id]
    ensures (Run(w, s).Collected? && Run(w, s).final.objects == []) <==> w.LocalPostExists(s.held.value.id)
    ensures Run(w, s).Collected? && Run(w, s).final.objects != [] ==> Run(w, s).final.objects[0] == s.held.value
  {
    if Step(w, s).Continue? {
      var next := Step(w, s).next;
      assert Run(w, s) == Run(w, next);
      if next.objects == [] {
        assert next.queue == [];
      } else {
        ObjectsStay(w, next);
      }
    }
  }

  // Where references lead, for every run

  function Target(redirects: map<Url, Url>, u: Url): Url {
    if u in redirects then redirects[u] else u
  }

  predicate InRest(objects: seq<Object>, i: int, u: Url) {
    exists j :: i < j < |objects| && 0 <= j && objects[j].id == u
  }

  /** After one redirect lookup, `u` is a post that is there before `objects[i]` is replayed:
      local, already stored, or one of the objects collected later. */
  predicate Resolved(w: World, objects: seq<Object>, redirects: map<Url, Url>, i: nat, u: Url) {
    || w.Known(Target(redirects, u))
    || (w.parseLocal(Target(redirects, u)).None? && InRest(objects, i, Target(redirects, u)))
  }

  /** Every reference of a collected object is resolved by the stored posts and the objects
      replayed before it. */
  ghost predicate Replayable(w: World, s: State) {
    forall i, u {:trigger DependsOn(s.objects[i], u)} :: 0 <= i < |s.objects| && DependsOn(s.objects[i], u) ==>
      Resolved(w, s.objects, s.redirects, i, u)
  }

  /** An activity is handed on with its object only when the object's own id was asked for. */
  predicate OwnObject(id: Url, received: Option<Object>) {
    received.Some? ==> received.value.id == id
  }

  /** The n-th answer depends on the URL only. */
  ghost predicate Deterministic(w: World) {
    forall k, u :: w.answers(k, u) == w.answers(0, u)
  }

  /** The object in hand will never be accepted: its id is stored, local, or collected. */
  predicate Stale(w: World, s: State) {
    s.held.Some? && (w.Known(s.held.value.id) || Holds(s.objects, s.held.value.id))
  }

  /** `u` is a post that exists, a collected object, still queued, or the object in hand. */
  predicate Accounted(w: World, s: State, u: Url) {
    w.Known(u) || Holds(s.objects, u) || u in s.queue || (s.held.Some? && s.held.value.id == u)
  }

  /** True in every round, whatever the servers answer: an object in hand is due next or stale,
      redirects lead to posts, collected objects or the object in hand, and no reference of a
      collected object is lost. */
  ghost predicate Traced(w: World, s: State) {
    && (s.held.Some? ==> (s.queue != [] && s.queue[|s.queue| - 1] == s.held.value.id) || Stale(w, s))
    && (forall u :: u in s.redirects ==>
          || w.Known(s.redirects[u]) || Holds(s.objects, s.redirects[u])
          || (s.held.Some? && s.held.value.id == s.redirects[u]))
    && (forall i, u {:trigger DependsOn(s.objects[i], u)} :: 0 <= i < |s.objects| && DependsOn(s.objects[i], u) ==>
          Accounted(w, s, Target(s.redirects, u)))
  }

  lemma StepKeepsTraced(w: World, s: State, free: nat)
    requires Sound(w, s, free) && Traced(w, s) && s.queue != []
    ensures Step(w, s).Continue? ==> Traced(w, Step(w, s).next)
  {
    var id := s.queue[|s.queue| - 1];
    if Step(w, s).Continue? {
      if w.Known(id) || Holds(s.objects, id) {
        PoppedIsTraced(w, s, free);
      } else if Step(w, s).next.held.Some? {
        RedirectIsTraced(w, s, free);
      } else {
        AcceptedIsTraced(w, s, free);
      }
    }
  }

  /** Taking a known or collected id off the queue loses nothing. */
  lemma AccountedAfterPop(w: World, s: State, s': State, u: Url)
    requires s.queue != [] && s' == s.(queue := s'.queue, looped := s'.looped) && s'.queue == s.queue[..|s.queue| - 1]
    requires w.Known(s.queue[|s.queue| - 1]) || Holds(s.objects, s.queue[|s.queue| - 1])
    requires Accounted(w, s, u)
    ensures Accounted(w, s', u)
  {
    assert s.queue == s'.queue + [s.queue[|s.queue| - 1]];
  }

  lemma PoppedIsTraced(w: World, s: State, free: nat)
    requires Sound(w, s, free) && Traced(w, s) && s.queue != [] && Step(w, s).Continue?
    requires w.Known(s.queue[|s.queue| - 1]) || Holds(s.objects, s.queue[|s.queue| - 1])
    ensures Traced(w, Step(w, s).next)
  {
    var s' := Step(w, s).next;
    assert s' == s.(queue := s.queue[..|s.queue| - 1], looped := s'.looped);
    forall i, u | 0 <= i < |s.objects| && DependsOn(s.objects[i], u) ensures Accounted(w, s', Target(s.redirects, u)) {
      AccountedAfterPop(w, s, s', Target(s.redirects, u));
    }
  }

  /** A new redirect only changes where its own key leads, and it leads to the object in hand. */
  lemma RedirectIsTraced(w: World, s: State, free: nat)
    requires Sound(w, s, free) && Traced(w, s) && s.queue != [] && Step(w, s).Continue?
    requires !w.Known(s.queue[|s.queue| - 1]) && !Holds(s.objects, s.queue[|s.queue| - 1])
    requires Step(w, s).next.held.Some?
    ensures Traced(w, Step(w, s).next)
  {
    var id, s' := s.queue[|s.queue| - 1], Step(w, s).next;
    assert s.queue == s.queue[..|s.queue| - 1] + [id];
    forall i, u | 0 <= i < |s.objects| && DependsOn(s.objects[i], u) ensures Accounted(w, s', Target(s'.redirects, u)) {
      assert Accounted(w, s, Target(s.redirects, u));
    }
  }

  lemma AcceptedIsTraced(w: World, s: State, free: nat)
    requires Sound(w, s, free) && Traced(w, s) && s.queue != [] && Step(w, s).Continue?
    requires !w.Known(s.queue[|s.queue| - 1]) && !Holds(s.objects, s.queue[|s.queue| - 1])
    requires Step(w, s).next.held.None?
    ensures Traced(w, Step(w, s).next)
  {
    var id, s', n := s.queue[|s.queue| - 1], Step(w, s).next, |s.objects|;
    var queue, note := s.queue[..|s.queue| - 1], s'.objects[n];
    assert s.queue == queue + [id] && note.id == id;
    PrependKeeps(ObjectLinks(note), if note.inReplyTo.Some? then queue + [note.inReplyTo.value] else queue);
    forall u | Holds(s.objects, u) || u == id ensures Holds(s'.objects, u) {
      if u == id {
        assert s'.objects[n].id == u;
      } else {
        var j :| 0 <= j < n && s.objects[j].id == u;
        assert s'.objects[j].id == u;
      }
    }
    forall i, u | 0 <= i < |s'.objects| && DependsOn(s'.objects[i], u) ensures Accounted(w, s', Target(s'.redirects, u)) {
      if i < n {
        assert s'.objects[i] == s.objects[i];
        assert Accounted(w, s, Target(s.redirects, u));
      } else {
        assert u in s'.queue;
      }
    }
  }

  lemma {:induction false} RunTraced(w: World, s: State, free: nat)
    requires Sound(w, s, free) && Traced(w, s)
    ensures Run(w, s).Collected? ==> Traced(w, Run(w, s).final)
    decreases RECURSION_DEPTH_MAX - s.fetchCount, if s.held.Some? then 1 else 0, |s.queue|, Mismatch(s)
  {
    if s.queue != [] {
      StepKeepsSound(w, s, free);
      StepKeepsTraced(w, s, free);
      if Step(w, s).Continue? {
        RunTraced(w, Step(w, s).next, free);
      }
    }
  }

  /** A collected object refers to itself or to one that was collected before it. */
  ghost predicate HasBackReference(s: State) {
    exists i, j, u :: 0 <= j <= i < |s.objects| && DependsOn(s.objects[i], u) && s.objects[j].id == Target(s.redirects, u)
  }

  lemma CollectedIsTraced(w: World, id: Url, received: Option<Object>)
    requires w.parseLocal(id).None? && Run(w, Start(id, received)).Collected?
    ensures Traced(w, Run(w, Start(id, received)).final)
  {
    var start := Start(id, received);
    var next := Step(w, start).next;
    StepKeepsSound(w, start, Held(start));
    if OwnObject(id, received) {
      RunTraced(w, start, Held(start));
    } else {
      assert next.queue == [received.value.id];
      RunTraced(w, next, Held(start));
    }
  }

  /** The replay finds every reference exactly when no collected object refers, after one
      redirect, to itself or to one collected before it; whatever the servers answered, and
      whether or not a loop was detected. */
  lemma ReplayOrder(w: World, id: Url, received: Option<Object>)
    requires w.parseLocal(id).None? && Run(w, Start(id, received)).Collected?
    ensures Replayable(w, Run(w, Start(id, received)).final) <==> !HasBackReference(Run(w, Start(id, received)).final)
  {
    var start, s := Start(id, received), Run(w, Start(id, received)).final;
    RunCollects(w, start, Held(start));
    CollectedIsTraced(w, id, received);
    if HasBackReference(s) {
      var i, j, u :| 0 <= j <= i < |s.objects| && DependsOn(s.objects[i], u) && s.objects[j].id == Target(s.redirects, u);
      assert w.Unknown(s.objects[j].id) && !Resolved(w, s.objects, s.redirects, i, u);
    } else {
      forall i, u | 0 <= i < |s.objects| && DependsOn(s.objects[i], u)
        ensures Resolved(w, s.objects, s.redirects, i, u)
      {
        ForwardIsResolved(w, s, Held(start), i, u);
      }
    }
  }

  lemma ForwardIsResolved(w: World, s: State, free: nat, i: nat, u: Url)
    requires Sound(w, s, free) && Traced(w, s) && s.queue == [] && !HasBackReference(s)
    requires i < |s.objects| && DependsOn(s.objects[i], u)
    ensures Resolved(w, s.objects, s.redirects, i, u)
  {
    var x := Target(s.redirects, u);
    assert Accounted(w, s, x);
    if !w.Known(x) {
      assert Holds(s.objects, x);
      var j :| 0 <= j < |s.objects| && s.objects[j].id == x;
      assert w.Unknown(s.objects[j].id);
      assert i < j;
    }
  }

  // Where redirects come from

  /** Fetching `u` returns an object with the id to which `u` is redirected. */
  predicate FromFetching(w: World, redirects: map<Url, Url>, u: Url)
    requires u in redirects
  {
    w.answers(0, u).Some? && w.answers(0, u).value.id == redirects[u]
  }

  /** Every redirect comes from fetching its key, or leads to a stale object still in hand. */
  ghost predicate RedirectsExplained(w: World, s: State) {
    forall u :: u in s.redirects ==>
      FromFetching(w, s.redirects, u) || (Stale(w, s) && s.redirects[u] == s.held.value.id)
  }

  lemma StepKeepsExplained(w: World, s: State, free: nat)
    requires Sound(w, s, free) && Traced(w, s) && Deterministic(w) && RedirectsExplained(w, s) && s.queue != []
    ensures Step(w, s).Continue? ==> RedirectsExplained(w, Step(w, s).next)
  {
    if Step(w, s).Continue? {
      var id, s' := s.queue[|s.queue| - 1], Step(w, s).next;
      assert w.answers(s.fetchCount, id) == w.answers(0, id);
      forall u | u in s'.redirects
        ensures FromFetching(w, s'.redirects, u) || (Stale(w, s') && s'.redirects[u] == s'.held.value.id)
      {
        if u in s.redirects {
          assert FromFetching(w, s.redirects, u) || Stale(w, s);
        }
      }
    }
  }

  lemma {:induction false} RunExplained(w: World, s: State, free: nat)
    requires Sound(w, s, free) && Traced(w, s) && Deterministic(w) && RedirectsExplained(w, s)
    ensures Run(w, s).Collected? ==> RedirectsExplained(w, Run(w, s).final)
    decreases RECURSION_DEPTH_MAX - s.fetchCount, if s.held.Some? then 1 else 0, |s.queue|, Mismatch(s)
  {
    if s.queue != [] {
      StepKeepsSound(w, s, free);
      StepKeepsTraced(w, s, free);
      StepKeepsExplained(w, s, free);
      if Step(w, s).Continue? {
        RunExplained(w, Step(w, s).next, free);
      }
    }
  }

  /** `u` is redirected to the object that was left in hand. */
  predicate LeadsToHeld(s: State, u: Url) {
    u in s.redirects && s.held.Some? && s.redirects[u] == s.held.value.id
  }

  /** Every redirect of every run comes from fetching its key, or leads to an object left in
      hand whose id is stored, local or collected. So all of them come from fetching exactly
      when those that lead to the object left in hand do. */
  lemma RedirectsAreGenuine(w: World, id: Url, received: Option<Object>)
    requires w.parseLocal(id).None? && Deterministic(w) && OwnObject(id, received)
    requires Run(w, Start(id, received)).Collected?
    ensures var s := Run(w, Start(id, received)).final;
            && RedirectsExplained(w, s)
            && ((forall u :: u in s.redirects ==> FromFetching(w, s.redirects, u)) <==>
                (forall u :: LeadsToHeld(s, u) ==> FromFetching(w, s.redirects, u)))
            && (s.held.None? ==> forall u :: u in s.redirects ==> FromFetching(w, s.redirects, u))
  {
    var start := Start(id, received);
    RunExplained(w, start, Held(start));
  }

  // Runs that never log "loop detected"

  /** The held object was fetched for the entry just popped, whose redirect is on top. */
  predicate InFlight(w: World, s: State) {
    s.held.Some? && !w.Known(s.held.value.id)
  }

  /** The entries that are yet to be popped on behalf of a collected object. */
  function Waiting(w: World, s: State): seq<Url>
    requires InFlight(w, s) ==> s.queue != []
  {
    if InFlight(w, s) then s.queue[..|s.queue| - 1] else s.queue
  }

  predicate Settled(w: World, s: State, i: nat, u: Url)
    requires InFlight(w, s) ==> s.queue != []
  {
    || Resolved(w, s.objects, s.redirects, i, u)
    || u in Waiting(w, s)
    || (InFlight(w, s) && Target(s.redirects, u) == s.held.value.id)
  }

  /** While the servers have been taken at their word, a redirect is what its key returns. */
  predicate Genuine(w: World, s: State) {
    (s.held.Some? ==> InFlight(w, s)) ==>
      forall u :: u in s.redirects ==> w.answers(0, u).Some? && w.answers(0, u).value.id == s.redirects[u]
  }

  ghost predicate Ordered(w: World, s: State) {
    && (InFlight(w, s) ==> s.queue != [] && s.queue[|s.queue| - 1] == s.held.value.id)
    && Genuine(w, s)
    && (forall i, u {:trigger DependsOn(s.objects[i], u)} :: 0 <= i < |s.objects| && DependsOn(s.objects[i], u) ==>
          Settled(w, s, i, u))
  }

  lemma StepKeepsOrdered(w: World, s: State, free: nat)
    requires Sound(w, s, free) && Deterministic(w) && s.queue != []
    requires Ordered(w, s)
    requires Step(w, s).Continue? && !Step(w, s).next.looped
    ensures Ordered(w, Step(w, s).next)
  {
    var id, s' := s.queue[|s.queue| - 1], Step(w, s).next;
    if w.Known(id) {
      KnownPopped(w, s, free);
    } else if s'.held.Some? {
      RedirectFollowed(w, s, free);
    } else {
      ObjectAccepted(w, s, free);
    }
  }

  /** A local or stored post is taken off the queue. */
  lemma KnownPopped(w: World, s: State, free: nat)
    requires Sound(w, s, free) && s.queue != [] && Ordered(w, s)
    requires w.Known(s.queue[|s.queue| - 1])
    requires Step(w, s).Continue? && !Step(w, s).next.looped
    ensures Ordered(w, Step(w, s).next)
  {
  }

  /** The object in hand carries another id, which goes on top of the queue. */
  lemma RedirectFollowed(w: World, s: State, free: nat)
    requires Sound(w, s, free) && Deterministic(w) && s.queue != [] && Ordered(w, s)
    requires !w.Known(s.queue[|s.queue| - 1])
    requires Step(w, s).Continue? && !Step(w, s).next.looped && Step(w, s).next.held.Some?
    ensures Ordered(w, Step(w, s).next)
  {
    var id, s' := s.queue[|s.queue| - 1], Step(w, s).next;
    assert s.queue == s.queue[..|s.queue| - 1] + [id];
    assert !InFlight(w, s);
    forall i, u | 0 <= i < |s.objects| && DependsOn(s.objects[i], u) ensures Settled(w, s', i, u) {
      assert Settled(w, s, i, u);
    }
  }

  /** The object in hand is the one on top of the queue. */
  lemma ObjectAccepted(w: World, s: State, free: nat)
    requires Sound(w, s, free) && Deterministic(w) && s.queue != [] && Ordered(w, s)
    requires !w.Known(s.queue[|s.queue| - 1])
    requires Step(w, s).Continue? && !Step(w, s).next.looped && Step(w, s).next.held.None?
    ensures Ordered(w, Step(w, s).next)
  {
    var id, s' := s.queue[|s.queue| - 1], Step(w, s).next;
    var queue, n := s.queue[..|s.queue| - 1], |s.objects|;
    assert s.queue == queue + [id];
    var note := s'.objects[n];
    assert note.id == id && s' == Accept(s, queue, s'.fetchCount, note);
    PrependKeeps(ObjectLinks(note), if note.inReplyTo.Some? then queue + [note.inReplyTo.value] else queue);
    assert Genuine(w, s');
    forall i, u | 0 <= i < |s'.objects| && DependsOn(s'.objects[i], u) ensures Settled(w, s', i, u) {
      if i < n {
        assert s'.objects[i] == s.objects[i];
        assert Settled(w, s, i, u);
        SettledAfterAccept(w, s, s', note, i, u);
      }
    }
  }

  lemma SettledAfterAccept(w: World, s: State, s': State, note: Object, i: nat, u: Url)
    requires s.queue != [] && i < |s.objects| && note.id == s.queue[|s.queue| - 1] && w.Unknown(note.id)
    requires s'.held.None? && s'.objects == s.objects + [note] && s'.redirects == s.redirects
    requires forall e :: e in s.queue[..|s.queue| - 1] ==> e in s'.queue
    requires InFlight(w, s) || note.id !in s.redirects
    requires InFlight(w, s) ==> s.held.value == note
    requires Settled(w, s, i, u)
    ensures Settled(w, s', i, u)
  {
    var n, e := |s.objects|, Target(s.redirects, u);
    assert s.queue == s.queue[..|s.queue| - 1] + [note.id];
    if InRest(s.objects, i, e) {
      var j :| i < j < n && s.objects[j].id == e;
      assert s'.objects[j].id == e;
    }
    assert s'.objects[n].id == note.id;
  }

  lemma {:induction false} LoopIsLogged(w: World, s: State)
    requires s.fetchCount <= RECURSION_DEPTH_MAX && s.looped
    ensures Run(w, s).Collected? ==> Run(w, s).final.looped
    decreases RECURSION_DEPTH_MAX - s.fetchCount, if s.held.Some? then 1 else 0, |s.queue|, Mismatch(s)
  {
    if s.queue != [] && Step(w, s).Continue? {
      LoopIsLogged(w, Step(w, s).next);
    }
  }

  lemma {:induction false} RunOrdered(w: World, s: State, free: nat)
    requires Sound(w, s, free) && Deterministic(w) && Ordered(w, s)
    ensures Run(w, s).Collected? && !Run(w, s).final.looped ==>
              Replayable(w, Run(w, s).final) && Ordered(w, Run(w, s).final)
    decreases RECURSION_DEPTH_MAX - s.fetchCount, if s.held.Some? then 1 else 0, |s.queue|, Mismatch(s)
  {
    if s.queue != [] {
      StepKeepsSound(w, s, free);
      if Step(w, s).Continue? {
        var next := Step(w, s).next;
        if next.looped {
          LoopIsLogged(w, next);
        } else {
          StepKeepsOrdered(w, s, free);
          RunOrdered(w, next, free);
        }
      }
    } else {
      forall i, u | 0 <= i < |s.objects| && DependsOn(s.objects[i], u)
        ensures Resolved(w, s.objects, s.redirects, i, u)
      {
        assert Settled(w, s, i, u);
      }
    }
  }

  /** The loop reaches its end without logging "loop detected". */
  ghost predicate LoopFree(w: World, id: Url, received: Option<Object>) {
    && w.parseLocal(id).None? && Deterministic(w) && OwnObject(id, received)
    && Run(w, Start(id, received)).Collected?
    && !Run(w, Start(id, received)).final.looped
  }

  /** A run that never logs "loop detected" has no back reference. */
  lemma LoopFreeReplay(w: World, id: Url, received: Option<Object>)
    requires LoopFree(w, id, received)
    ensures !HasBackReference(Run(w, Start(id, received)).final)
  {
    var s := Start(id, received);
    assert id in w.stored ==> Step(w, s).Stop?;
    RunOrdered(w, s, Held(s));
    ReplayOrder(w, id, received);
  }
}
