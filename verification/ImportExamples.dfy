/** Runs of `import_post` for which natural expectations are false. */
module ImportExamples {
  import opened Collections
  import opened ImportPost

  function Example(stored: set<Url>, answers: map<Url, Object>): World {
    World(u => None, {}, stored, (k, u) => if u in answers then Some(answers[u]) else None)
  }

  const A := Url("https://a/")
  const B := Url("https://b/1")
  const C := Url("https://c/22")
  const D := Url("https://d/333")

  /** One round leads to the same outcome. */
  lemma OneRound(w: World, s: State, next: State)
    requires s.fetchCount <= RECURSION_DEPTH_MAX && s.queue != [] && Step(w, s) == Continue(next)
    ensures next.fetchCount <= RECURSION_DEPTH_MAX && Run(w, s) == Run(w, next)
  {
  }

  lemma AcceptReplyWithQuote(w: World, a: Object)
    requires a == Object(A, Some(B), [], Some(C)) && w.Unknown(A)
    ensures Step(w, Start(A, Some(a))) == Continue(State([C, B], 0, None, [a], map[], false))
  {
    assert [] + [C] == [C] && [C][1..] == [];
    assert ObjectLinks(a) == [C];
    assert [A][..0] + [B] == [B];
    assert [C] + [B] == [C, B];
    assert Prepend([C], [B]) == Prepend([], [C, B]);
  }

  /** A note without links is fetched and accepted. */
  lemma AcceptFetched(w: World, s: State, rest: seq<Url>, note: Object)
    requires s.queue == rest + [note.id] && s.held.None? && s.fetchCount < RECURSION_DEPTH_MAX
    requires w.Unknown(note.id) && !Holds(s.objects, note.id) && w.answers(s.fetchCount, note.id) == Some(note)
    requires note.tags == [] && note.quoteUrl.None?
    ensures Step(w, s) == Continue(State(if note.inReplyTo.Some? then rest + [note.inReplyTo.value] else rest,
                                         s.fetchCount + 1, None, s.objects + [note], s.redirects, s.looped))
  {
  }

  /** An object that is there already, collected or stored, is skipped. */
  lemma SkipKnown(w: World, s: State, rest: seq<Url>, id: Url)
    requires s.queue == rest + [id] && s.objects != [] && (Holds(s.objects, id) || w.Known(id))
    ensures Step(w, s) == Continue(s.(queue := rest, looped := s.looped || Holds(s.objects, id)))
  {
  }

  /** The object in hand, or the one fetched, has another id. */
  lemma FollowRedirect(w: World, s: State, rest: seq<Url>, id: Url, note: Object)
    requires s.queue == rest + [id] && w.Unknown(id) && !Holds(s.objects, id) && note.id != id
    requires s.held == Some(note) || (s.held.None? && s.fetchCount < RECURSION_DEPTH_MAX && w.answers(s.fetchCount, id) == Some(note))
    ensures Step(w, s) == Continue(State(rest + [note.id], if s.held.Some? then s.fetchCount else s.fetchCount + 1,
                                         Some(note), s.objects, s.redirects[id := note.id], s.looped))
  {
  }

  lemma DifferentUrls()
    ensures A != B && A != C && A != D && B != C && B != D && C != D
  {
    assert |A.text| < |B.text| < |C.text| < |D.text|;
  }

  const NoteA := Object(A, Some(B), [], Some(C))
  const NoteB := Object(B, None, [], None)
  const NoteC := Object(C, Some(B), [], None)
  const NoteD := Object(D, None, [], None)

  const Q1 := State([C, B], 0, None, [NoteA], map[], false)
  const Q2 := State([C], 1, None, [NoteA, NoteB], map[], false)
  const Q3 := State([B], 2, None, [NoteA, NoteB, NoteC], map[], false)
  const Q4 := State([], 2, None, [NoteA, NoteB, NoteC], map[], true)

  lemma QuoteEnds(w: World)
    requires w.Unknown(C) && w.answers(1, C) == Some(NoteC)
    ensures Run(w, Q2) == Collected(Q4)
  {
    DifferentUrls();
    assert Q3.objects[1].id == B;
    SkipKnown(w, Q3, [], B);
    OneRound(w, Q3, Q4);
    AcceptFetched(w, Q2, [], NoteC);
    assert [] + [B] == [B] && [NoteA, NoteB] + [NoteC] == [NoteA, NoteB, NoteC];
    OneRound(w, Q2, Q3);
  }

  lemma QuoteGoesOn(w: World)
    requires w.Unknown(B) && w.Unknown(C) && w.answers(0, B) == Some(NoteB) && w.answers(1, C) == Some(NoteC)
    ensures Run(w, Q1) == Collected(Q4)
  {
    DifferentUrls();
    assert Step(w, Q1) == Continue(Q2) by {
      assert Q1.queue == [C] + [B] && !Holds(Q1.objects, B);
      AcceptFetched(w, Q1, [C], NoteB);
      assert [NoteA] + [NoteB] == [NoteA, NoteB];
    }
    OneRound(w, Q1, Q2);
    QuoteEnds(w);
  }

  lemma FirstRound(w: World)
    requires w.Unknown(A)
    ensures Run(w, Start(A, Some(NoteA))) == Run(w, Q1)
  {
    AcceptReplyWithQuote(w, NoteA);
    OneRound(w, Start(A, Some(NoteA)), Q1);
  }

  lemma QuoteSteps(w: World)
    requires w.Unknown(A) && w.Unknown(B) && w.Unknown(C)
    requires w.answers(0, B) == Some(NoteB) && w.answers(1, C) == Some(NoteC)
    ensures Run(w, Start(A, Some(NoteA))) == Collected(Q4)
  {
    QuoteGoesOn(w);
    FirstRound(w);
  }

  /** A note replies to B and quotes another reply to B. The references are acyclic, but the
      quoted note is replayed before B. */
  lemma QuoteInSameThread()
    ensures var outcome := Run(Example({}, map[B := NoteB, C := NoteC]), Start(A, Some(NoteA)));
            && Deterministic(Example({}, map[B := NoteB, C := NoteC]))
            && outcome.Collected? && HasBackReference(outcome.final)
            && !Replayable(Example({}, map[B := NoteB, C := NoteC]), outcome.final)
  {
    DifferentUrls();
    var w := Example({}, map[B := NoteB, C := NoteC]);
    QuoteSteps(w);
    assert DependsOn(Q4.objects[2], B) && Q4.objects[1].id == Target(Q4.redirects, B);
    ReplayOrder(w, A, Some(NoteA));
  }

  const S2 := State([C, D], 1, Some(NoteD), [NoteA], map[B := D], false)
  const S3 := State([C], 1, Some(NoteD), [NoteA], map[B := D], false)
  const S4 := State([D], 1, Some(NoteD), [NoteA], map[B := D, C := D], false)
  const S5 := State([], 1, Some(NoteD), [NoteA], map[B := D, C := D], false)

  lemma StaleEnds(w: World)
    requires w.Unknown(C) && w.Known(D)
    ensures Run(w, S3) == Collected(S5)
  {
    DifferentUrls();
    SkipKnown(w, S4, [], D);
    OneRound(w, S4, S5);
    FollowRedirect(w, S3, [], C, NoteD);
    assert [] + [D] == [D] && map[B := D][C := D] == map[B := D, C := D];
    OneRound(w, S3, S4);
  }

  lemma StaleGoesOn(w: World)
    requires w.Unknown(C) && w.Known(D)
    ensures Run(w, S2) == Collected(S5)
  {
    DifferentUrls();
    StaleEnds(w);
    SkipKnown(w, S2, [C], D);
    OneRound(w, S2, S3);
  }

  lemma StaleSteps(w: World)
    requires w.Unknown(A) && w.Unknown(B) && w.Unknown(C) && w.Known(D) && w.answers(0, B) == Some(NoteD)
    ensures Run(w, Start(A, Some(NoteA))) == Collected(S5)
  {
    DifferentUrls();
    StaleGoesOn(w);
    FollowRedirect(w, Q1, [C], B, NoteD);
    assert map[][B := D] == map[B := D];
    OneRound(w, Q1, S2);
    FirstRound(w);
  }

  /** The reply parent turns out to be a stored post under another id. Its object stays in
      hand, so the quoted note is never fetched and its id is redirected to that post. */
  lemma StaleObjectMisdirects()
    ensures var w := Example({D}, map[B := NoteD, C := Object(C, None, [], None)]);
            var outcome := Run(w, Start(A, Some(NoteA)));
            && LoopFree(w, A, Some(NoteA)) && outcome.final.held.Some?
            && outcome.final.fetchCount == 1
            && Target(outcome.final.redirects, C) == D && w.answers(0, C).value.id == C
  {
    DifferentUrls();
    StaleSteps(Example({D}, map[B := NoteD, C := Object(C, None, [], None)]));
  }
}
