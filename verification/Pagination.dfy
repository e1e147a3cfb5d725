/** Paginated lists of followers and followed profiles, and the walk along the next-page links. */
module Pagination {
  import opened Collections
  import opened PostGraph
  import opened Schema

  /** The `id` column of `relationship`. */
  datatype RowId = RowId(n: nat)

  type RelationshipTable = map<RowId, Relationship>

  datatype Direction = OfFollowers | OfFollowing

  datatype RelatedProfile = RelatedProfile(id: RowId, profile: ProfileId)

  const PAGE_MAX_SIZE := 200

  /** `PageSize::try_from` */
  function PageSize(value: nat): (size: Option<nat>)
    ensures size == Some(value) <==> 1 <= value <= PAGE_MAX_SIZE
    ensures size.Some? ==> size.value == value
  {
    if value > 0 && value <= PAGE_MAX_SIZE then Some(value) else None
  }

  /** The row is listed for `p`. */
  predicate Lists(row: Relationship, p: ProfileId, direction: Direction) {
    row.kind.Follow? && (if direction.OfFollowers? then row.target == p else row.source == p)
  }

  function Other(row: Relationship, direction: Direction): ProfileId {
    if direction.OfFollowers? then row.source else row.target
  }

  predicate BelowCursor(id: RowId, maxId: Option<RowId>) {
    maxId.Some? ==> id.n < maxId.value.n
  }

  predicate Descending(page: seq<RelatedProfile>) {
    forall i, j :: 0 <= i < j < |page| ==> page[i].id.n > page[j].id.n
  }

  predicate Matches(table: RelationshipTable, p: ProfileId, direction: Direction, id: RowId) {
    id in table && Lists(table[id], p, direction)
  }

  function MatchingIds(table: RelationshipTable, p: ProfileId, direction: Direction, maxId: Option<RowId>): set<RowId> {
    set id | id in table && Lists(table[id], p, direction) && BelowCursor(id, maxId)
  }

  predicate Contains(page: seq<RelatedProfile>, id: RowId) {
    exists i :: 0 <= i < |page| && page[i].id == id
  }

  /** A page holds the rows with the greatest ids below the cursor, in descending order, and is
      short only when there are no more. */
  ghost predicate IsPage(table: RelationshipTable, p: ProfileId, direction: Direction, maxId: Option<RowId>, limit: nat,
                   page: seq<RelatedProfile>)
  {
    && |page| <= limit
    && Descending(page)
    && (forall i :: 0 <= i < |page| ==>
          && Matches(table, p, direction, page[i].id) && BelowCursor(page[i].id, maxId)
          && page[i].profile == Other(table[page[i].id], direction))
    && (forall id :: Matches(table, p, direction, id) && BelowCursor(id, maxId) && !Contains(page, id) ==>
          |page| == limit && forall i :: 0 <= i < |page| ==> id.n < page[i].id.n)
  }

  method Greatest(ids: set<RowId>) returns (x: RowId)
    requires ids != {}
    ensures x in ids && forall y :: y in ids ==> y.n <= x.n
  {
    x :| x in ids;
    var rest := ids - {x};
    while rest != {}
      invariant x in ids && rest <= ids
      invariant forall y :: y in ids - rest ==> y.n <= x.n
      decreases rest
    {
      var y :| y in rest;
      rest := rest - {y};
      if y.n > x.n {
        x := y;
      }
    }
  }

  /** `ORDER BY id DESC LIMIT limit` */
  method TakeGreatest(ids: set<RowId>, limit: nat) returns (top: seq<RowId>)
    ensures |top| <= limit && Elements(top) <= ids
    ensures forall i, j :: 0 <= i < j < |top| ==> top[i].n > top[j].n
    ensures forall y :: y in ids && y !in top ==> |top| == limit && forall i :: 0 <= i < |top| ==> y.n < top[i].n
  {
    var rest := ids;
    top := [];
    while rest != {} && |top| < limit
      invariant |top| <= limit && Elements(top) <= ids && rest == ids - Elements(top)
      invariant forall i, j :: 0 <= i < j < |top| ==> top[i].n > top[j].n
      invariant forall i, y :: 0 <= i < |top| && y in rest ==> y.n < top[i].n
      decreases rest
    {
      var x := Greatest(rest);
      ElementsAppend(top, x);
      top, rest := top + [x], rest - {x};
    }
    assert forall y :: y in ids && y !in top ==> y in rest;
  }

  /** `get_followers_paginated` and `get_following_paginated` */
  method GetPaginated(table: RelationshipTable, p: ProfileId, direction: Direction, maxId: Option<RowId>, limit: nat)
    returns (page: seq<RelatedProfile>)
    ensures IsPage(table, p, direction, maxId, limit, page)
    ensures forall i :: 0 <= i < |page| ==>
              && page[i].id in table && table[page[i].id].kind == Follow
              && (direction == OfFollowers ==> table[page[i].id].target == p && table[page[i].id].source == page[i].profile)
              && (direction == OfFollowing ==> table[page[i].id].source == p && table[page[i].id].target == page[i].profile)
              && (maxId != None ==> page[i].id.n < maxId.value.n)
    ensures |page| < limit ==>
              forall id :: id in table && table[id].kind == Follow && (maxId == None || id.n < maxId.value.n)
                           && p == (if direction == OfFollowers then table[id].target else table[id].source) ==>
                Contains(page, id)
  {
    var matching := MatchingIds(table, p, direction, maxId);
    var top := TakeGreatest(matching, limit);
    assert forall i :: 0 <= i < |top| ==> top[i] in Elements(top);
    page := seq(|top|, i requires 0 <= i < |top| => RelatedProfile(top[i], Other(table[top[i]], direction)));
    forall id | id in top ensures Contains(page, id) {
      var i :| 0 <= i < |top| && top[i] == id;
      assert page[i].id == id;
    }
    assert forall id :: Matches(table, p, direction, id) && BelowCursor(id, maxId) ==> id in matching;
  }

  /** `get_account_followers`: a next-page link after a full page only. */
  function NextCursor(page: seq<RelatedProfile>, limit: nat): Option<RowId> {
    var maxIndex := if limit == 0 then 0 else limit - 1;
    if maxIndex < |page| then Some(page[maxIndex].id) else None
  }

  /** The row was listed by one of the first `requests` requests. */
  ghost predicate SeenIn(tables: nat -> RelationshipTable, p: ProfileId, direction: Direction, requests: nat, r: RelatedProfile) {
    exists k :: 0 <= k < requests && Matches(tables(k), p, direction, r.id) && r.profile == Other(tables(k)[r.id], direction)
  }

  /** The row is there during each of the first `requests` requests. */
  ghost predicate Stays(tables: nat -> RelationshipTable, p: ProfileId, direction: Direction, requests: nat, id: RowId) {
    forall k :: 0 <= k < requests ==> Matches(tables(k), p, direction, id)
  }

  /** What has been listed after some requests, up to the cursor of the next one. */
  ghost predicate WalkedTo(tables: nat -> RelationshipTable, p: ProfileId, direction: Direction, requests: nat,
                           listed: seq<RelatedProfile>, cursor: Option<RowId>)
  {
    && Descending(listed)
    && (cursor.Some? ==> listed != [] && cursor.value == listed[|listed| - 1].id)
    && (forall i :: 0 <= i < |listed| ==> SeenIn(tables, p, direction, requests, listed[i]))
    && (forall id :: Stays(tables, p, direction, requests, id) && !Contains(listed, id) ==>
          cursor.Some? && id.n < cursor.value.n)
  }

  lemma ContainsAppend(a: seq<RelatedProfile>, b: seq<RelatedProfile>, id: RowId)
    ensures Contains(a + b, id) <==> Contains(a, id) || Contains(b, id)
  {
    if i :| 0 <= i < |a| && a[i].id == id {
      assert (a + b)[i].id == id;
    }
    if i :| 0 <= i < |b| && b[i].id == id {
      assert (a + b)[|a| + i].id == id;
    }
  }

  lemma NextPage(tables: nat -> RelationshipTable, p: ProfileId, direction: Direction, requests: nat,
                 listed: seq<RelatedProfile>, cursor: Option<RowId>, limit: nat, page: seq<RelatedProfile>)
    requires 1 <= limit && WalkedTo(tables, p, direction, requests, listed, cursor) && cursor.Some?
    requires IsPage(tables(requests), p, direction, cursor, limit, page)
    ensures WalkedTo(tables, p, direction, requests + 1, listed + page, NextCursor(page, limit))
  {
    var longer, next := listed + page, NextCursor(page, limit);
    forall i | 0 <= i < |longer| ensures SeenIn(tables, p, direction, requests + 1, longer[i]) {
      if i < |listed| {
        assert SeenIn(tables, p, direction, requests, listed[i]);
      } else {
        assert Matches(tables(requests), p, direction, page[i - |listed|].id);
      }
    }
    forall id | Stays(tables, p, direction, requests + 1, id) && !Contains(longer, id)
      ensures next.Some? && id.n < next.value.n
    {
      assert Stays(tables, p, direction, requests, id);
      ContainsAppend(listed, page, id);
      assert Matches(tables(requests), p, direction, id);
    }
  }

  /** Every page but the last is full, and the last is not. */
  predicate FullPages(listed: nat, requests: nat, limit: nat, more: bool) {
    if more then listed == requests * limit
    else requests > 0 && (requests - 1) * limit <= listed < requests * limit
  }

  lemma OnePageMore(listed: nat, requests: nat, limit: nat, page: seq<RelatedProfile>)
    requires listed == requests * limit && 1 <= limit && |page| <= limit
    ensures FullPages(listed + |page|, requests + 1, limit, NextCursor(page, limit).Some?)
  {
    assert (requests + 1) * limit == requests * limit + limit;
  }

  /** Following next-page links, where the table may change from request to request: the walk
      ends, lists no row twice, misses no row that is there during the whole walk, and makes
      one request per full page and one more. */
  method WalkPages(tables: nat -> RelationshipTable, p: ProfileId, direction: Direction, limit: nat)
    returns (listed: seq<RelatedProfile>, requests: nat)
    requires PageSize(limit).Some?
    ensures Descending(listed)
    ensures forall i :: 0 <= i < |listed| ==> SeenIn(tables, p, direction, requests, listed[i])
    ensures forall id :: Stays(tables, p, direction, requests, id) ==> Contains(listed, id)
    ensures requests > 0 && (requests - 1) * limit <= |listed| < requests * limit
  {
    listed := GetPaginated(tables(0), p, direction, None, limit);
    requests := 1;
    var cursor := NextCursor(listed, limit);
    assert WalkedTo(tables, p, direction, 1, listed, cursor) by {
      FirstPage(tables, p, direction, limit, listed);
    }
    OnePageMore(0, 0, limit, listed);
    while cursor.Some?
      invariant WalkedTo(tables, p, direction, requests, listed, cursor)
      invariant FullPages(|listed|, requests, limit, cursor.Some?)
      decreases if cursor.Some? then cursor.value.n + 1 else 0
    {
      var page := GetPaginated(tables(requests), p, direction, cursor, limit);
      NextPage(tables, p, direction, requests, listed, cursor, limit, page);
      OnePageMore(|listed|, requests, limit, page);
      listed, requests, cursor := listed + page, requests + 1, NextCursor(page, limit);
    }
  }

  lemma FirstPage(tables: nat -> RelationshipTable, p: ProfileId, direction: Direction, limit: nat, page: seq<RelatedProfile>)
    requires 1 <= limit && IsPage(tables(0), p, direction, None, limit, page)
    ensures WalkedTo(tables, p, direction, 1, page, NextCursor(page, limit))
  {
  }

  /** When nothing changes, the walk lists every follower exactly once: all rows, and only those. */
  lemma UnchangedTableIsListed(tables: nat -> RelationshipTable, p: ProfileId, direction: Direction, requests: nat,
                               listed: seq<RelatedProfile>)
    requires forall k :: tables(k) == tables(0)
    requires forall i :: 0 <= i < |listed| ==> SeenIn(tables, p, direction, requests, listed[i])
    requires forall id :: Stays(tables, p, direction, requests, id) ==> Contains(listed, id)
    ensures forall id :: Contains(listed, id) <==> Matches(tables(0), p, direction, id)
  {
  }
}
