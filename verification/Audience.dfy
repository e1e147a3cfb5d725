/** The audience of a note: how it follows from the visibility of a post, and how the receiving
    server tells the visibility from it. */
module Audience {
  import opened Collections
  import opened PostGraph

  const AP_PUBLIC := "https://www.w3.org/ns/activitystreams#Public"
  const PUBLIC_VARIANTS := {AP_PUBLIC, "as:Public", "Public"}

  function LocalActorFollowers(actorId: string): string {
    actorId + "/followers"
  }

  function LocalActorSubscribers(actorId: string): string {
    actorId + "/subscribers"
  }

  // build_note

  datatype Note = Note(to: seq<string>, cc: seq<string>)

  function CollectionAudience(visibility: Visibility, actorId: string): Note {
    match visibility
    case Public => Note([AP_PUBLIC], [LocalActorFollowers(actorId)])
    case Followers => Note([LocalActorFollowers(actorId)], [])
    case Subscribers => Note([LocalActorSubscribers(actorId)], [])
    case Direct => Note([], [])
  }

  /** `x` is one of the actors the note is addressed to. */
  predicate Addressed(mentioned: seq<string>, replyTo: Option<string>, x: string) {
    x in mentioned || replyTo == Some(x)
  }

  /** The collection of the post's visibility, everyone addressed, and nothing else. */
  predicate IsNoteOf(note: Note, actorId: string, visibility: Visibility, mentioned: seq<string>, replyTo: Option<string>) {
    && note.cc == CollectionAudience(visibility, actorId).cc
    && (forall x :: x in note.to ==> x in CollectionAudience(visibility, actorId).to || Addressed(mentioned, replyTo, x))
    && (forall x :: x in CollectionAudience(visibility, actorId).to ==> x in note.to)
    && (forall x :: x in mentioned ==> x in note.to)
    && (replyTo.Some? ==> replyTo.value in note.to)
  }

  /** The mentioned actors and the author of the parent are added to `to`, each once. */
  method BuildNote(actorId: string, visibility: Visibility, mentioned: seq<string>, replyTo: Option<string>) returns (note: Note)
    ensures IsNoteOf(note, actorId, visibility, mentioned, replyTo)
    ensures CollectionAudience(visibility, actorId).to <= note.to && NoDuplicates(note.to)
    ensures match visibility {
              case Public => note.to != [] && note.to[0] == "https://www.w3.org/ns/activitystreams#Public" && note.cc == [actorId + "/followers"]
              case Followers => note.to != [] && note.to[0] == actorId + "/followers" && note.cc == []
              case Subscribers => note.to != [] && note.to[0] == actorId + "/subscribers" && note.cc == []
              case Direct => note.cc == [] && forall x :: x in note.to ==> x in mentioned || replyTo == Some(x)
            }
    ensures forall x :: x in note.to && x != AP_PUBLIC && x != actorId + "/followers" && x != actorId + "/subscribers" ==>
              x in mentioned || replyTo == Some(x)
    ensures forall x :: x in mentioned || replyTo == Some(x) ==> x in note.to
  {
    var primary, secondary := [], [];
    match visibility {
      case Public =>
        primary := primary + [AP_PUBLIC];
        secondary := secondary + [LocalActorFollowers(actorId)];
      case Followers => primary := primary + [LocalActorFollowers(actorId)];
      case Subscribers => primary := primary + [LocalActorSubscribers(actorId)];
      case Direct =>
    }
    ghost var collections := CollectionAudience(visibility, actorId);
    assert primary == collections.to && secondary == collections.cc;
    for i := 0 to |mentioned|
      invariant collections.to <= primary && NoDuplicates(primary)
      invariant forall x :: x in primary <==> x in collections.to || x in mentioned[..i]
    {
      assert mentioned[..i + 1] == mentioned[..i] + [mentioned[i]];
      if mentioned[i] !in primary {
        primary := primary + [mentioned[i]];
      }
    }
    assert mentioned[..|mentioned|] == mentioned;
    if replyTo.Some? && replyTo.value !in primary {
      primary := primary + [replyTo.value];
    }
    note := Note(primary, secondary);
  }

  // get_audience

  datatype Item = Text(text: string) | WithId(id: Option<string>) | OtherItem
  datatype Property = Absent | Single(text: string) | Many(items: seq<Item>) | OtherValue

  function ItemId(item: Item): Option<string> {
    match item
    case Text(text) => Some(text)
    case WithId(id) => id
    case OtherItem => None
  }

  function ItemIds(items: seq<Item>): Option<seq<string>> {
    if items == [] then Some([])
    else
      var rest := ItemIds(items[..|items| - 1]);
      var last := ItemId(items[|items| - 1]);
      if rest.None? || last.None? then None else Some(rest.value + [last.value])
  }

  /** The strings of a property; an absent one has none. */
  function Members(value: Property): Option<seq<string>> {
    match value
    case Absent => Some([])
    case Single(text) => Some([text])
    case Many(items) => ItemIds(items)
    case OtherValue => None
  }

  lemma {:induction false} OneBadItem(items: seq<Item>, n: nat)
    requires n <= |items| && ItemIds(items[..n]).None?
    ensures ItemIds(items).None?
    decreases |items| - n
  {
    if n == |items| {
      assert items[..n] == items;
    } else {
      assert items[..n + 1][..n] == items[..n];
      OneBadItem(items, n + 1);
    }
  }

  /** `parse_array`: strings, and the ids of objects; anything else is an error. */
  method ParseArray(value: Property) returns (r: Option<seq<string>>)
    requires !value.Absent?
    ensures r == Members(value)
    ensures value.Single? ==> r == Some([value.text])
    ensures value.Many? ==>
              && (r == None <==> exists i :: 0 <= i < |value.items| && (value.items[i] == OtherItem || value.items[i] == WithId(None)))
              && (r != None ==> |r.value| == |value.items| && forall i :: 0 <= i < |value.items| ==>
                    value.items[i] == Text(r.value[i]) || value.items[i] == WithId(Some(r.value[i])))
    ensures value == OtherValue ==> r == None
  {
    match value {
      case Single(text) => r := Some([text]);
      case OtherValue => r := None;
      case Many(items) =>
        var results := [];
        for i := 0 to |items|
          invariant ItemIds(items[..i]) == Some(results)
          invariant |results| == i
          invariant forall j :: 0 <= j < i ==> items[j] == Text(results[j]) || items[j] == WithId(Some(results[j]))
        {
          assert items[..i + 1][..i] == items[..i];
          if ItemId(items[i]).None? {
            OneBadItem(items, i + 1);
            return None;
          }
          results := results + [ItemId(items[i]).value];
        }
        assert items[..|items|] == items;
        r := Some(results);
    }
  }

  function AudienceOf(to: Property, cc: Property): Option<seq<string>> {
    if Members(to).None? || Members(cc).None? then None else Some(Members(to).value + Members(cc).value)
  }

  /** `get_audience` */
  method GetAudience(to: Property, cc: Property) returns (audience: Option<seq<string>>)
    ensures audience == AudienceOf(to, cc)
  {
    var primary := Some([]);
    if !to.Absent? {
      primary := ParseArray(to);
    }
    if primary.None? {
      return None;
    }
    var secondary := Some([]);
    if !cc.Absent? {
      secondary := ParseArray(cc);
    }
    if secondary.None? {
      return None;
    }
    audience := Some(primary.value + secondary.value);
  }

  // get_object_visibility

  /** The collections of an actor, as the receiving server stores them. */
  datatype Actor = Actor(followers: Option<string>, subscribers: Option<string>)

  predicate IsPublicObject(audience: seq<string>) {
    exists i :: 0 <= i < |audience| && audience[i] in PUBLIC_VARIANTS
  }

  function GetObjectVisibility(author: Actor, audience: seq<string>): Visibility {
    if IsPublicObject(audience) then Public
    else if author.followers.Some? && author.followers.value in audience then Followers
    else if author.subscribers.Some? && author.subscribers.value in audience then Subscribers
    else Direct
  }

  /** Any of the three public markers makes an object public. */
  lemma PublicMarkers(author: Actor, audience: seq<string>)
    ensures "https://www.w3.org/ns/activitystreams#Public" in audience || "as:Public" in audience || "Public" in audience ==>
              GetObjectVisibility(author, audience) == Public
  {
    if x :| x in audience && x in {"https://www.w3.org/ns/activitystreams#Public", "as:Public", "Public"} {
      var i :| 0 <= i < |audience| && audience[i] == x;
    }
  }

  // What is written is read back

  /** A note on the wire: `to` and `cc` are arrays of strings. */
  function Array(members: seq<string>): Property {
    Many(seq(|members|, i requires 0 <= i < |members| => Text(members[i])))
  }

  lemma {:induction false} ArrayMembers(members: seq<string>)
    ensures Members(Array(members)) == Some(members)
  {
    var items := Array(members).items;
    if members != [] {
      var n := |members| - 1;
      ArrayMembers(members[..n]);
      assert items[..n] == Array(members[..n]).items;
      assert members[..n] + [members[n]] == members;
    }
  }

  /** The collections of an actor are no public markers, and differ from each other. */
  lemma CollectionsDiffer(actorId: string)
    ensures LocalActorFollowers(actorId) != LocalActorSubscribers(actorId)
    ensures LocalActorFollowers(actorId) !in PUBLIC_VARIANTS && LocalActorSubscribers(actorId) !in PUBLIC_VARIANTS
  {
    var f, s := LocalActorFollowers(actorId), LocalActorSubscribers(actorId);
    assert |s| == |f| + 2;
    assert f[|f| - 1] == 's' && s[|s| - 1] == 's';
    assert AP_PUBLIC[|AP_PUBLIC| - 1] == 'c' && "as:Public"[8] == 'c' && "Public"[5] == 'c';
  }

  /** No addressed actor is mistaken for an audience wider than that of the post. */
  predicate NotMistaken(actorId: string, visibility: Visibility, mentioned: seq<string>, replyTo: Option<string>) {
    && (!visibility.Public? ==> forall x :: x in PUBLIC_VARIANTS ==> !Addressed(mentioned, replyTo, x))
    && (visibility.Subscribers? || visibility.Direct? ==> !Addressed(mentioned, replyTo, LocalActorFollowers(actorId)))
    && (visibility.Direct? ==> !Addressed(mentioned, replyTo, LocalActorSubscribers(actorId)))
  }

  /** The visibility read back is that of the post exactly when no addressed actor id is a
      public marker or, as far as it would widen the audience, a collection of the author. */
  lemma VisibilityReadBack(note: Note, actorId: string, visibility: Visibility, mentioned: seq<string>, replyTo: Option<string>)
    requires IsNoteOf(note, actorId, visibility, mentioned, replyTo)
    ensures var author := Actor(Some(LocalActorFollowers(actorId)), Some(LocalActorSubscribers(actorId)));
            var audience := AudienceOf(Array(note.to), Array(note.cc));
            && audience.Some?
            && (GetObjectVisibility(author, audience.value) == visibility <==> NotMistaken(actorId, visibility, mentioned, replyTo))
  {
    ArrayMembers(note.to);
    ArrayMembers(note.cc);
    CollectionsDiffer(actorId);
    var audience := note.to + note.cc;
    var collections := CollectionAudience(visibility, actorId);
    assert forall x :: x in audience <==> x in collections.to || x in collections.cc || Addressed(mentioned, replyTo, x);
    assert IsPublicObject(audience) <==> exists x :: x in PUBLIC_VARIANTS && x in audience by {
      if x :| x in PUBLIC_VARIANTS && x in audience {
        var i :| 0 <= i < |audience| && audience[i] == x;
      }
    }
    if visibility.Public? {
      assert AP_PUBLIC in audience;
    }
  }
}
