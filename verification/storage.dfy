/**
 * The relational store the handler writes into, as tables in memory.
 *
 * Each table with a UNIQUE natural key is a map from that key to the row
 * (users by line_id, places by url, tags by name), so the uniqueness of
 * the natural key holds by construction and Consistent says that every row
 * sits under its own key and that primary keys are unique and never nil.
 * The SQL statements become functions from tables to tables (None is a
 * database error); the class Store changes its tables in place as the Go
 * code's statements do, and each of its methods is specified by those
 * functions.
 */
module Storage {
  import opened Wrappers
  import opened Model
  import Text

  datatype Tables = Tables(
    users: map<string, User>,
    places: map<string, Place>,
    votes: map<Uuid, Vote>,
    tags: map<string, Tag>,
    placeTags: set<PlaceTag>)

  const EmptyTables: Tables := Tables(map[], map[], map[], map[], {})

  function UserIds(t: Tables): set<Uuid>
  {
    set k | k in t.users :: t.users[k].id
  }

  function PlaceIds(t: Tables): set<Uuid>
  {
    set k | k in t.places :: t.places[k].id
  }

  function TagIds(t: Tables): set<Uuid>
  {
    set k | k in t.tags :: t.tags[k].id
  }

  /** users: line_id is the key of its row; ids are unique and never nil. */
  ghost predicate UsersKeyed(users: map<string, User>)
  {
    && (forall k :: k in users ==> users[k].lineId == k && users[k].id != NilUuid)
    && (forall a, b :: a in users && b in users && a != b ==> users[a].id != users[b].id)
  }

  /** places: url is the key of its row; ids are unique and never nil. */
  ghost predicate PlacesKeyed(places: map<string, Place>)
  {
    && (forall k :: k in places ==> places[k].url == k && places[k].id != NilUuid)
    && (forall a, b :: a in places && b in places && a != b ==> places[a].id != places[b].id)
  }

  /** tags: name is the key of its row; ids are unique and never nil. */
  ghost predicate TagsKeyed(tags: map<string, Tag>)
  {
    && (forall k :: k in tags ==> tags[k].name == k && tags[k].id != NilUuid)
    && (forall a, b :: a in tags && b in tags && a != b ==> tags[a].id != tags[b].id)
  }

  /** The schema's key constraints (internal/model/db.go). */
  ghost predicate Consistent(t: Tables)
  {
    && UsersKeyed(t.users)
    && PlacesKeyed(t.places)
    && TagsKeyed(t.tags)
    && (forall k :: k in t.votes ==> t.votes[k].id == k && k != NilUuid)
  }

  /** Inserting a tag row under a new name with an unused id keeps the tags keyed. */
  lemma InsertTagKeyed(t: Tables, name: string, id: GeneratedId)
    requires TagsKeyed(t.tags) && name !in t.tags && id !in TagIds(t)
    ensures TagsKeyed(t.tags[name := Tag(id, name)])
  {
    var tags := t.tags[name := Tag(id, name)];
    forall a, b | a in tags && b in tags && a != b ensures tags[a].id != tags[b].id {
      if a == name { assert tags[b] == t.tags[b]; }
      else if b == name { assert tags[a] == t.tags[a]; }
    }
  }

  /** No two users share a line_id, no two places a url, no two tags a name. */
  lemma NaturalKeysUnique(t: Tables)
    requires Consistent(t)
    ensures forall a, b :: a in t.users && b in t.users && t.users[a].lineId == t.users[b].lineId ==> a == b
    ensures forall a, b :: a in t.places && b in t.places && t.places[a].url == t.places[b].url ==> a == b
    ensures forall a, b :: a in t.tags && b in t.tags && t.tags[a].name == t.tags[b].name ==> a == b
  {
  }

  /** The id a row gets on insert: the one given, or the database default when it is nil. */
  function RowId(given: Uuid, newId: GeneratedId): (id: Uuid)
    ensures id != NilUuid
    ensures given != NilUuid ==> id == given
  {
    if given == NilUuid then newId else given
  }

  /**
   * INSERT ... ON CONFLICT (line_id) DO UPDATE SET display_name = EXCLUDED.display_name.
   * An existing line_id keeps its row and id and takes the new display name;
   * a new one is inserted, failing only when its primary key is taken.
   */
  function UpsertUser(t: Tables, d: User, newId: GeneratedId): (r: Option<Tables>)
    requires Consistent(t)
    ensures r.None? <==> d.lineId !in t.users && RowId(d.id, newId) in UserIds(t)
    ensures r.Some? ==> Consistent(r.value)
    ensures r.Some? ==> r.value.users.Keys == t.users.Keys + {d.lineId}
    ensures r.Some? ==> r.value.users[d.lineId].displayName == d.displayName
    ensures r.Some? && d.lineId in t.users ==> r.value.users[d.lineId].id == t.users[d.lineId].id
    ensures r.Some? && d.lineId !in t.users ==> r.value.users[d.lineId].id == RowId(d.id, newId)
    ensures r.Some? ==> forall k :: k in t.users && k != d.lineId ==> r.value.users[k] == t.users[k]
    ensures r.Some? ==> r.value.(users := t.users) == t
  {
    if d.lineId in t.users then
      Some(t.(users := t.users[d.lineId := t.users[d.lineId].(displayName := d.displayName)]))
    else
      var id := RowId(d.id, newId);
      if id in UserIds(t) then None
      else Some(t.(users := t.users[d.lineId := User(id, d.lineId, d.displayName)]))
  }

  /** Upserting the same user twice is the same as upserting it once. */
  lemma UpsertUserIdempotent(t: Tables, d: User, fresh1: GeneratedId, newId2: GeneratedId)
    requires Consistent(t) && UpsertUser(t, d, fresh1).Some?
    ensures UpsertUser(UpsertUser(t, d, fresh1).value, d, newId2) == UpsertUser(t, d, fresh1)
  {
    var t1 := UpsertUser(t, d, fresh1).value;
    var t2 := UpsertUser(t1, d, newId2).value;
    assert t2.users == t1.users;
  }

  /** A plain INSERT into places: a taken url or a taken id is an error. */
  function InsertPlace(t: Tables, d: Place, newId: GeneratedId): (r: Option<Tables>)
    requires Consistent(t)
    ensures r.None? <==> d.url in t.places || RowId(d.id, newId) in PlaceIds(t)
    ensures r.Some? ==> Consistent(r.value)
    ensures r.Some? ==> r.value.places.Keys == t.places.Keys + {d.url}
    ensures r.Some? ==> r.value.places[d.url] == d.(id := RowId(d.id, newId))
    ensures r.Some? ==> forall k :: k in t.places ==> r.value.places[k] == t.places[k]
    ensures r.Some? ==> r.value.(places := t.places) == t
  {
    var id := RowId(d.id, newId);
    if d.url in t.places || id in PlaceIds(t) then None
    else Some(t.(places := t.places[d.url := d.(id := id)]))
  }

  /**
   * The tag names as AddTagsToPlace keeps them: each one trimmed, the empty
   * ones dropped, the rest in their order (duplicates are kept).
   */
  function Normalize(names: seq<string>): (r: seq<string>)
    ensures |r| <= |names|
    ensures forall k :: 0 <= k < |r| ==> r[k] != ""
  {
    if names == [] then []
    else
      var last := Text.TrimSpace(names[|names| - 1]);
      Normalize(names[..|names| - 1]) + (if last == "" then [] else [last])
  }

  /** The names kept are exactly the trimmed input names that are not empty. */
  lemma {:induction false} NormalizeMembers(names: seq<string>)
    ensures forall k :: 0 <= k < |names| && Text.TrimSpace(names[k]) != "" ==> Text.TrimSpace(names[k]) in Normalize(names)
    ensures forall n :: n in Normalize(names) ==> exists j :: 0 <= j < |names| && n == Text.TrimSpace(names[j])
  {
    if names != [] {
      var init := names[..|names| - 1];
      var last := Text.TrimSpace(names[|names| - 1]);
      NormalizeMembers(init);
      assert Normalize(names) == Normalize(init) + (if last == "" then [] else [last]);
      forall k | 0 <= k < |names| && Text.TrimSpace(names[k]) != ""
        ensures Text.TrimSpace(names[k]) in Normalize(names)
      {
        if k < |init| {
          assert init[k] == names[k];
        }
      }
      forall n | n in Normalize(names)
        ensures exists j :: 0 <= j < |names| && n == Text.TrimSpace(names[j])
      {
        if n in Normalize(init) {
          var j :| 0 <= j < |init| && n == Text.TrimSpace(init[j]);
          assert init[j] == names[j];
        } else {
          assert n == Text.TrimSpace(names[|names| - 1]);
        }
      }
    }
  }

  /** Normalising keeps the order: it distributes over concatenation. */
  lemma {:induction false} NormalizeAppend(a: seq<string>, b: seq<string>)
    ensures Normalize(a + b) == Normalize(a) + Normalize(b)
    decreases |b|
  {
    if b == [] {
      assert a + b == a;
    } else {
      var b' := b[..|b| - 1];
      assert (a + b)[..|a + b| - 1] == a + b';
      NormalizeAppend(a, b');
    }
  }

  /** A blank or all-space name is dropped; any other name is kept trimmed. */
  lemma NormalizeOne(n: string)
    ensures Normalize([n]) == if Text.AllSpace(n) then [] else [Text.TrimSpace(n)]
  {
    Text.TrimSpaceEmptyIff(n);
    assert [n][..0] == [];
  }

  /**
   * The tag INSERTs ... ON CONFLICT (name) DO UPDATE ... RETURNING *, one per
   * name from position i on: an existing name gives back its row's id, a new
   * name is inserted with the generated id newId(i). Statement i fails when
   * fault(i) holds or the generated id is taken. ids holds the ids returned
   * so far.
   */
  function InsertTags(t: Tables, names: seq<string>, i: nat, ids: seq<Uuid>,
                      newId: nat -> GeneratedId, fault: nat -> bool): (r: Option<(Tables, seq<Uuid>)>)
    requires i <= |names|
    decreases |names| - i
  {
    if i == |names| then Some((t, ids))
    else if fault(i) then None
    else if names[i] in t.tags then
      InsertTags(t, names, i + 1, ids + [t.tags[names[i]].id], newId, fault)
    else if newId(i) in TagIds(t) then None
    else
      var t' := t.(tags := t.tags[names[i] := Tag(newId(i), names[i])]);
      InsertTags(t', names, i + 1, ids + [newId(i)], newId, fault)
  }

  /**
   * After successful tag upserts every name has exactly one row, whose id
   * is the one returned for it; rows that existed are reused unchanged and
   * only the new names get rows.
   */
  lemma InsertTagsSpec(t: Tables, names: seq<string>, i: nat, ids: seq<Uuid>,
                       newId: nat -> GeneratedId, fault: nat -> bool)
    requires Consistent(t) && i <= |names| && |ids| == i
    requires forall k :: 0 <= k < i ==> names[k] in t.tags && t.tags[names[k]].id == ids[k]
    requires InsertTags(t, names, i, ids, newId, fault).Some?
    ensures var (t', ids') := InsertTags(t, names, i, ids, newId, fault).value;
      && Consistent(t') && |ids'| == |names|
      && (forall k :: 0 <= k < |names| ==> names[k] in t'.tags && t'.tags[names[k]].id == ids'[k])
      && t'.tags.Keys == t.tags.Keys + (set n | n in names[i..])
      && (forall n :: n in t.tags ==> t'.tags[n] == t.tags[n])
      && t'.(tags := t.tags) == t
  {
    InsertTagsRows(t, names, i, ids, newId, fault);
    InsertTagsIds(t, names, i, ids, newId, fault);
  }

  /** The tables after the tag upserts: consistent, one row added per new name, nothing else changed. */
  lemma InsertTagsRows(t: Tables, names: seq<string>, i: nat, ids: seq<Uuid>,
                       newId: nat -> GeneratedId, fault: nat -> bool)
    requires Consistent(t) && i <= |names|
    requires InsertTags(t, names, i, ids, newId, fault).Some?
    ensures var t' := InsertTags(t, names, i, ids, newId, fault).value.0;
      && Consistent(t')
      && t'.tags.Keys == t.tags.Keys + (set n | n in names[i..])
      && (forall n :: n in t.tags ==> t'.tags[n] == t.tags[n])
      && t'.(tags := t.tags) == t
  {
    InsertTagsFrame(t, names, i, ids, newId, fault);
    InsertTagsKeyed(t, names, i, ids, newId, fault);
    InsertTagsKeys(t, names, i, ids, newId, fault);
  }

  /** The tag upserts touch only the tags table. */
  lemma {:induction false} InsertTagsFrame(t: Tables, names: seq<string>, i: nat, ids: seq<Uuid>,
                                           newId: nat -> GeneratedId, fault: nat -> bool)
    requires i <= |names|
    requires InsertTags(t, names, i, ids, newId, fault).Some?
    decreases |names| - i
    ensures InsertTags(t, names, i, ids, newId, fault).value.0.(tags := t.tags) == t
  {
    if i < |names| {
      var name := names[i];
      if name in t.tags {
        InsertTagsFrame(t, names, i + 1, ids + [t.tags[name].id], newId, fault);
      } else {
        var t1 := t.(tags := t.tags[name := Tag(newId(i), name)]);
        InsertTagsFrame(t1, names, i + 1, ids + [newId(i)], newId, fault);
      }
    }
  }

  /** The tag upserts keep every tag under its own name with a unique id. */
  lemma {:induction false} InsertTagsKeyed(t: Tables, names: seq<string>, i: nat, ids: seq<Uuid>,
                                           newId: nat -> GeneratedId, fault: nat -> bool)
    requires TagsKeyed(t.tags) && i <= |names|
    requires InsertTags(t, names, i, ids, newId, fault).Some?
    decreases |names| - i
    ensures TagsKeyed(InsertTags(t, names, i, ids, newId, fault).value.0.tags)
  {
    if i < |names| {
      var name := names[i];
      if name in t.tags {
        InsertTagsKeyed(t, names, i + 1, ids + [t.tags[name].id], newId, fault);
      } else {
        var t1 := t.(tags := t.tags[name := Tag(newId(i), name)]);
        InsertTagKeyed(t, name, newId(i));
        InsertTagsKeyed(t1, names, i + 1, ids + [newId(i)], newId, fault);
      }
    }
  }

  /** The tag upserts add a row for exactly the names that had none, and leave the other rows as they were. */
  lemma {:induction false} InsertTagsKeys(t: Tables, names: seq<string>, i: nat, ids: seq<Uuid>,
                                          newId: nat -> GeneratedId, fault: nat -> bool)
    requires i <= |names|
    requires InsertTags(t, names, i, ids, newId, fault).Some?
    decreases |names| - i
    ensures var t' := InsertTags(t, names, i, ids, newId, fault).value.0;
      && t'.tags.Keys == t.tags.Keys + (set n | n in names[i..])
      && (forall n :: n in t.tags ==> t'.tags[n] == t.tags[n])
  {
    if i < |names| {
      var name := names[i];
      assert names[i..] == [name] + names[i + 1..];
      if name in t.tags {
        InsertTagsKeys(t, names, i + 1, ids + [t.tags[name].id], newId, fault);
      } else {
        var t1 := t.(tags := t.tags[name := Tag(newId(i), name)]);
        InsertTagsKeys(t1, names, i + 1, ids + [newId(i)], newId, fault);
        var t' := InsertTags(t1, names, i + 1, ids + [newId(i)], newId, fault).value.0;
        forall n | n in t.tags ensures t'.tags[n] == t.tags[n] {
          assert t1.tags[n] == t.tags[n];
        }
        assert t1.tags.Keys == t.tags.Keys + {name};
      }
    }
  }

  /** The ids after the tag upserts: one per name, the id of that name's row. */
  lemma {:induction false} InsertTagsIds(t: Tables, names: seq<string>, i: nat, ids: seq<Uuid>,
                                         newId: nat -> GeneratedId, fault: nat -> bool)
    requires i <= |names| && |ids| == i
    requires forall k :: 0 <= k < i ==> names[k] in t.tags && t.tags[names[k]].id == ids[k]
    requires InsertTags(t, names, i, ids, newId, fault).Some?
    decreases |names| - i
    ensures var (t', ids') := InsertTags(t, names, i, ids, newId, fault).value;
      && |ids'| == |names|
      && (forall k :: 0 <= k < |names| ==> names[k] in t'.tags && t'.tags[names[k]].id == ids'[k])
  {
    if i < |names| {
      var name := names[i];
      if name in t.tags {
        InsertTagsIds(t, names, i + 1, ids + [t.tags[name].id], newId, fault);
      } else {
        var t1 := t.(tags := t.tags[name := Tag(newId(i), name)]);
        var ids1 := ids + [newId(i)];
        forall k | 0 <= k < i + 1 ensures names[k] in t1.tags && t1.tags[names[k]].id == ids1[k] {
          if k < i { assert names[k] in t.tags && names[k] != name; }
        }
        InsertTagsIds(t1, names, i + 1, ids1, newId, fault);
      }
    }
  }

  /**
   * The place_tags INSERTs ... ON CONFLICT (place_id, tag_id) DO NOTHING, one
   * per id from position j on; statement number base + j fails when fault
   * says so.
   */
  function InsertPlaceTags(t: Tables, placeId: Uuid, ids: seq<Uuid>, j: nat, base: nat,
                           fault: nat -> bool): (r: Option<Tables>)
    requires j <= |ids|
    decreases |ids| - j
    ensures r.Some? ==> r.value.(placeTags := t.placeTags) == t
    ensures r.Some? ==> r.value.placeTags == t.placeTags + set k | j <= k < |ids| :: PlaceTag(placeId, ids[k])
  {
    if j == |ids| then Some(t)
    else if fault(base + j) then None
    else
      var t' := t.(placeTags := t.placeTags + {PlaceTag(placeId, ids[j])});
      var r := InsertPlaceTags(t', placeId, ids, j + 1, base, fault);
      assert r.Some? ==> r.value.placeTags == t.placeTags + set k | j <= k < |ids| :: PlaceTag(placeId, ids[k]) by {
        if r.Some? {
          var s := set k | j + 1 <= k < |ids| :: PlaceTag(placeId, ids[k]);
          var s' := set k | j <= k < |ids| :: PlaceTag(placeId, ids[k]);
          assert s' == {PlaceTag(placeId, ids[j])} + s;
        }
      }
      r
  }

  /**
   * AddTagsToPlace on tables: None is an error, after which the transaction
   * leaves the tables as they were. With no name left after normalising,
   * nothing is written.
   */
  function AddTags(t: Tables, placeId: Uuid, tagNames: seq<string>,
                   newId: nat -> GeneratedId, fault: nat -> bool): (r: Option<Tables>)
    requires Consistent(t)
  {
    var norm := Normalize(tagNames);
    if |tagNames| == 0 || |norm| == 0 then Some(t)
    else match InsertTags(t, norm, 0, [], newId, fault) {
      case None => None
      case Some((t1, ids)) => InsertPlaceTags(t1, placeId, ids, 0, |norm|, fault)
    }
  }

  /** The tables after a successful AddTags. */
  ghost predicate TagsAdded(t: Tables, placeId: Uuid, norm: seq<string>, t': Tables)
  {
    // one row per distinct name: the existing rows are kept, the others added
    && t'.tags.Keys == t.tags.Keys + (set n | n in norm)
    && (forall n :: n in t.tags ==> t'.tags[n] == t.tags[n])
    // every name is associated with the place; nothing else is associated
    && t'.placeTags == t.placeTags + (set n | n in norm && n in t'.tags :: PlaceTag(placeId, t'.tags[n].id))
    // the other tables are untouched
    && t'.(tags := t.tags, placeTags := t.placeTags) == t
  }

  /** What a successful AddTagsToPlace leaves in the tables, and that a blank list writes nothing. */
  lemma AddTagsEffect(t: Tables, placeId: Uuid, tagNames: seq<string>,
                      newId: nat -> GeneratedId, fault: nat -> bool)
    requires Consistent(t)
    ensures Normalize(tagNames) == [] ==> AddTags(t, placeId, tagNames, newId, fault) == Some(t)
    ensures AddTags(t, placeId, tagNames, newId, fault).Some? ==>
      var t' := AddTags(t, placeId, tagNames, newId, fault).value;
      Consistent(t') && TagsAdded(t, placeId, Normalize(tagNames), t')
  {
    var norm := Normalize(tagNames);
    if |tagNames| != 0 && |norm| != 0 && AddTags(t, placeId, tagNames, newId, fault).Some? {
      AddTagsCommitted(t, placeId, norm, newId, fault);
    }
  }

  /** The tag upserts followed by the associations, when both succeed. */
  lemma AddTagsCommitted(t: Tables, placeId: Uuid, norm: seq<string>,
                         newId: nat -> GeneratedId, fault: nat -> bool)
    requires Consistent(t) && InsertTags(t, norm, 0, [], newId, fault).Some?
    requires var (t1, ids) := InsertTags(t, norm, 0, [], newId, fault).value;
      InsertPlaceTags(t1, placeId, ids, 0, |norm|, fault).Some?
    ensures var (t1, ids) := InsertTags(t, norm, 0, [], newId, fault).value;
      var t' := InsertPlaceTags(t1, placeId, ids, 0, |norm|, fault).value;
      Consistent(t') && TagsAdded(t, placeId, norm, t')
  {
    InsertTagsSpec(t, norm, 0, [], newId, fault);
    var (t1, ids) := InsertTags(t, norm, 0, [], newId, fault).value;
    var t' := InsertPlaceTags(t1, placeId, ids, 0, |norm|, fault).value;
    assert norm[0..] == norm;
    assert t'.tags == t1.tags;
    PairsByName(placeId, norm, ids, t1.tags);
  }

  /** The pairs inserted by position are the pairs of each name with its row's id. */
  lemma PairsByName(placeId: Uuid, norm: seq<string>, ids: seq<Uuid>, tags: map<string, Tag>)
    requires |ids| == |norm|
    requires forall k :: 0 <= k < |norm| ==> norm[k] in tags && tags[norm[k]].id == ids[k]
    ensures (set k | 0 <= k < |ids| :: PlaceTag(placeId, ids[k])) ==
            (set n | n in norm && n in tags :: PlaceTag(placeId, tags[n].id))
  {
    var byIndex := set k | 0 <= k < |ids| :: PlaceTag(placeId, ids[k]);
    var byName := set n | n in norm && n in tags :: PlaceTag(placeId, tags[n].id);
    forall x | x in byIndex ensures x in byName {
      var k :| 0 <= k < |ids| && x == PlaceTag(placeId, ids[k]);
      assert norm[k] in norm;
    }
    forall x | x in byName ensures x in byIndex {
      var n :| n in norm && n in tags && x == PlaceTag(placeId, tags[n].id);
      var k :| 0 <= k < |norm| && norm[k] == n;
    }
  }

  /** When every name already has a row, the tag upserts insert nothing and return those rows' ids. */
  lemma {:induction false} InsertTagsExisting(t: Tables, names: seq<string>, i: nat, ids: seq<Uuid>,
                                              newId: nat -> GeneratedId, fault: nat -> bool)
    requires Consistent(t) && i <= |names| && |ids| == i
    requires forall k :: 0 <= k < i ==> names[k] in t.tags && t.tags[names[k]].id == ids[k]
    requires forall k :: i <= k < |names| ==> names[k] in t.tags && !fault(k)
    ensures InsertTags(t, names, i, ids, newId, fault).Some?
    ensures InsertTags(t, names, i, ids, newId, fault).value.0 == t
    decreases |names| - i
  {
    if i < |names| {
      InsertTagsExisting(t, names, i + 1, ids + [t.tags[names[i]].id], newId, fault);
    }
  }

  /** The place_tags inserts cannot fail when no statement faults. */
  lemma {:induction false} InsertPlaceTagsNoFault(t: Tables, placeId: Uuid, ids: seq<Uuid>, j: nat, base: nat,
                                                  fault: nat -> bool)
    requires j <= |ids|
    requires forall k :: base + j <= k < base + |ids| ==> !fault(k)
    ensures InsertPlaceTags(t, placeId, ids, j, base, fault).Some?
    decreases |ids| - j
  {
    if j < |ids| {
      var t' := t.(placeTags := t.placeTags + {PlaceTag(placeId, ids[j])});
      InsertPlaceTagsNoFault(t', placeId, ids, j + 1, base, fault);
    }
  }

  /**
   * Repeating a successful AddTagsToPlace with the same place and names
   * changes nothing: it either fails on a fault (and is rolled back) or
   * succeeds with the tables unchanged, and without faults it succeeds.
   */
  lemma AddTagsIdempotent(t: Tables, placeId: Uuid, tagNames: seq<string>,
                          newId: nat -> GeneratedId, fault: nat -> bool,
                          newId2: nat -> GeneratedId, fault2: nat -> bool)
    requires Consistent(t) && AddTags(t, placeId, tagNames, newId, fault).Some?
    ensures var t1 := AddTags(t, placeId, tagNames, newId, fault).value;
      Consistent(t1) &&
      AddTags(t1, placeId, tagNames, newId2, fault2) in {None, Some(t1)} &&
      ((forall k :: !fault2(k)) ==> AddTags(t1, placeId, tagNames, newId2, fault2) == Some(t1))
  {
    AddTagsEffect(t, placeId, tagNames, newId, fault);
    var t1 := AddTags(t, placeId, tagNames, newId, fault).value;
    AddTagsRepeatUnchanged(t, t1, placeId, tagNames, newId2, fault2);
    if forall k :: !fault2(k) {
      AddTagsRepeatSucceeds(t, t1, placeId, tagNames, newId2, fault2);
    }
  }

  /** A repeated AddTags that succeeds leaves the tables as they were. */
  lemma AddTagsRepeatUnchanged(t: Tables, t1: Tables, placeId: Uuid, tagNames: seq<string>,
                               newId2: nat -> GeneratedId, fault2: nat -> bool)
    requires Consistent(t) && Consistent(t1) && TagsAdded(t, placeId, Normalize(tagNames), t1)
    ensures AddTags(t1, placeId, tagNames, newId2, fault2) in {None, Some(t1)}
  {
    AddTagsEffect(t1, placeId, tagNames, newId2, fault2);
    var r := AddTags(t1, placeId, tagNames, newId2, fault2);
    if r.Some? {
      var t2 := r.value;
      assert t2.tags == t1.tags;
      assert t2.placeTags == t1.placeTags;
    }
  }

  /** Without faults, a repeated AddTags finds every row in place and succeeds. */
  lemma AddTagsRepeatSucceeds(t: Tables, t1: Tables, placeId: Uuid, tagNames: seq<string>,
                              newId2: nat -> GeneratedId, fault2: nat -> bool)
    requires Consistent(t) && Consistent(t1) && TagsAdded(t, placeId, Normalize(tagNames), t1)
    requires forall k :: !fault2(k)
    ensures AddTags(t1, placeId, tagNames, newId2, fault2).Some?
  {
    var norm := Normalize(tagNames);
    if |tagNames| != 0 && |norm| != 0 {
      assert forall k :: 0 <= k < |norm| ==> norm[k] in t1.tags;
      InsertTagsExisting(t1, norm, 0, [], newId2, fault2);
      var (t2, ids) := InsertTags(t1, norm, 0, [], newId2, fault2).value;
      InsertPlaceTagsNoFault(t2, placeId, ids, 0, |norm|, fault2);
    }
  }

  /**
   * AddTagsToPlace with its transaction: a blank list returns before WithTx.
   * Otherwise a failing BEGIN returns its error before fn runs, fn's error
   * rolls back, and after fn succeeds the COMMIT's error is the result; a
   * failed commit keeps none of fn's writes.
   */
  function AddTagsInTx(t: Tables, placeId: Uuid, tagNames: seq<string>,
                       newId: nat -> GeneratedId, fault: nat -> bool,
                       beginFails: bool, commitFails: bool): Option<Tables>
    requires Consistent(t)
  {
    var r := AddTags(t, placeId, tagNames, newId, fault);
    if Normalize(tagNames) == [] then r
    else if beginFails || (r.Some? && commitFails) then None
    else r
  }

  /**
   * The transaction is all or nothing: the result is AddTags' tables or an
   * error, a blank list never opens it, and with BEGIN and COMMIT succeeding
   * it is exactly AddTags. A failing BEGIN or COMMIT is always an error.
   */
  lemma AddTagsInTxAllOrNothing(t: Tables, placeId: Uuid, tagNames: seq<string>,
                                newId: nat -> GeneratedId, fault: nat -> bool,
                                beginFails: bool, commitFails: bool)
    requires Consistent(t)
    ensures var r := AddTagsInTx(t, placeId, tagNames, newId, fault, beginFails, commitFails);
      r.None? || r == AddTags(t, placeId, tagNames, newId, fault)
    ensures Normalize(tagNames) == [] ==>
      AddTagsInTx(t, placeId, tagNames, newId, fault, beginFails, commitFails) == Some(t)
    ensures !beginFails && !commitFails ==>
      AddTagsInTx(t, placeId, tagNames, newId, fault, beginFails, commitFails) == AddTags(t, placeId, tagNames, newId, fault)
    ensures Normalize(tagNames) != [] && (beginFails || commitFails) ==>
      AddTagsInTx(t, placeId, tagNames, newId, fault, beginFails, commitFails).None?
  {
    AddTagsEffect(t, placeId, tagNames, newId, fault);
  }

  /** The database connection: the five tables, changed in place, with the snapshot an open transaction rolls back to. */
  class Store {
    var users: map<string, User>
    var places: map<string, Place>
    var votes: map<Uuid, Vote>
    var tags: map<string, Tag>
    var placeTags: set<PlaceTag>
    var txSnapshot: Option<Tables>

    function State(): Tables
      reads this
    {
      Tables(users, places, votes, tags, placeTags)
    }

    ghost predicate Valid()
      reads this
    {
      Consistent(State()) && (txSnapshot.Some? ==> Consistent(txSnapshot.value))
    }

    constructor ()
      ensures Valid() && State() == EmptyTables && txSnapshot == None
    {
      users, places, votes, tags, placeTags := map[], map[], map[], map[], {};
      txSnapshot := None;
    }

    /**
     * Begins the transaction of WithTx (db.BeginTx inside RunInTx): on
     * success remembers the tables as they are; a failing BEGIN opens
     * nothing, and its error is the result.
     */
    method BeginTx(beginFails: bool) returns (failed: bool)
      requires Valid() && txSnapshot.None?
      modifies this
      ensures Valid() && State() == old(State()) && failed == beginFails
      ensures txSnapshot == if failed then None else Some(State())
    {
      failed := beginFails;
      if !failed {
        txSnapshot := Some(State());
      }
    }

    /**
     * Ends the transaction of WithTx once fn has run. When fn returned an
     * error, rolls the tables back to the snapshot and that error is the
     * result. Otherwise commits, and the commit's error is the result: a
     * failed commit keeps nothing, so the tables go back to the snapshot.
     */
    method FinishTx(fnFailed: bool, commitFails: bool) returns (failed: bool)
      requires Valid() && txSnapshot.Some?
      modifies this
      ensures Valid() && txSnapshot == None && failed == (fnFailed || commitFails)
      ensures State() == if failed then old(txSnapshot).value else old(State())
    {
      failed := fnFailed || commitFails;
      if failed {
        var s := txSnapshot.value;
        users, places, votes, tags, placeTags := s.users, s.places, s.votes, s.tags, s.placeTags;
      }
      txSnapshot := None;
    }

    /** UpsertUserByLineID: the upsert on line_id; ok is false on a database error. */
    method UpsertUserByLineID(d: User, newId: GeneratedId) returns (ok: bool)
      requires Valid()
      modifies this
      ensures Valid() && txSnapshot == old(txSnapshot)
      ensures ok == UpsertUser(old(State()), d, newId).Some?
      ensures State() == if ok then UpsertUser(old(State()), d, newId).value else old(State())
    {
      if d.lineId in users {
        users := users[d.lineId := users[d.lineId].(displayName := d.displayName)];
        return true;
      }
      var id := RowId(d.id, newId);
      if id in UserIds(State()) {
        return false;
      }
      users := users[d.lineId := User(id, d.lineId, d.displayName)];
      ok := true;
    }

    /** CreatePlace: a plain insert; ok is false when the url or the id is taken. */
    method CreatePlace(d: Place, newId: GeneratedId) returns (ok: bool)
      requires Valid()
      modifies this
      ensures Valid() && txSnapshot == old(txSnapshot)
      ensures ok == InsertPlace(old(State()), d, newId).Some?
      ensures State() == if ok then InsertPlace(old(State()), d, newId).value else old(State())
    {
      var id := RowId(d.id, newId);
      if d.url in places || id in PlaceIds(State()) {
        return false;
      }
      places := places[d.url := d.(id := id)];
      ok := true;
    }

    /**
     * The first loop of the transaction in AddTagsToPlace: one tag upsert per
     * name, collecting the ids the statements return.
     */
    method UpsertTagRows(norm: seq<string>, newId: nat -> GeneratedId, fault: nat -> bool)
      returns (failed: bool, ids: seq<Uuid>)
      requires Valid()
      modifies this
      ensures Valid() && txSnapshot == old(txSnapshot)
      ensures failed == InsertTags(old(State()), norm, 0, [], newId, fault).None?
      ensures !failed ==> (State(), ids) == InsertTags(old(State()), norm, 0, [], newId, fault).value
    {
      ghost var t0 := State();
      failed := false;
      ids := [];
      var i := 0;
      while i < |norm|
        invariant Valid() && txSnapshot == old(txSnapshot) && i <= |norm|
        invariant InsertTags(t0, norm, 0, [], newId, fault) == InsertTags(State(), norm, i, ids, newId, fault)
      {
        if fault(i) {
          return true, ids;
        }
        if norm[i] in tags {
          ids := ids + [tags[norm[i]].id];
        } else if newId(i) in TagIds(State()) {
          return true, ids;
        } else {
          InsertTagKeyed(State(), norm[i], newId(i));
          tags := tags[norm[i] := Tag(newId(i), norm[i])];
          ids := ids + [newId(i)];
        }
        i := i + 1;
      }
    }

    /**
     * The second loop of the transaction in AddTagsToPlace: one place_tags
     * insert per id, numbered from base, ignoring pairs already present.
     */
    method InsertPlaceTagRows(placeId: Uuid, ids: seq<Uuid>, base: nat, fault: nat -> bool)
      returns (failed: bool)
      requires Valid()
      modifies this
      ensures Valid() && txSnapshot == old(txSnapshot)
      ensures failed == InsertPlaceTags(old(State()), placeId, ids, 0, base, fault).None?
      ensures !failed ==> State() == InsertPlaceTags(old(State()), placeId, ids, 0, base, fault).value
    {
      ghost var t0 := State();
      var j := 0;
      while j < |ids|
        invariant Valid() && txSnapshot == old(txSnapshot) && j <= |ids|
        invariant InsertPlaceTags(t0, placeId, ids, 0, base, fault) == InsertPlaceTags(State(), placeId, ids, j, base, fault)
      {
        if fault(base + j) {
          return true;
        }
        placeTags := placeTags + {PlaceTag(placeId, ids[j])};
        j := j + 1;
      }
      failed := false;
    }

    /**
     * AddTagsToPlace: normalise the names, then inside one transaction upsert
     * a tag per name and associate each with the place. Statement k (the tag
     * inserts first, then the associations) fails when fault(k) holds; the
     * k-th new tag gets the generated id newId(k). BEGIN fails when
     * beginFails holds and COMMIT when commitFails holds.
     */
    method AddTagsToPlace(placeId: Uuid, tagNames: seq<string>,
                          newId: nat -> GeneratedId, fault: nat -> bool,
                          beginFails: bool, commitFails: bool) returns (ok: bool)
      requires Valid() && txSnapshot.None?
      modifies this
      ensures Valid() && txSnapshot == None
      ensures ok == AddTagsInTx(old(State()), placeId, tagNames, newId, fault, beginFails, commitFails).Some?
      ensures State() == if ok then AddTagsInTx(old(State()), placeId, tagNames, newId, fault, beginFails, commitFails).value
                         else old(State())
    {
      if |tagNames| == 0 {
        return true;
      }
      var norm := NormalizeNames(tagNames);
      if |norm| == 0 {
        return true;
      }
      var failed := BeginTx(beginFails);
      if failed {
        return false;
      }
      var ids;
      failed, ids := UpsertTagRows(norm, newId, fault);
      if !failed {
        failed := InsertPlaceTagRows(placeId, ids, |norm|, fault);
      }
      failed := FinishTx(failed, commitFails);
      ok := !failed;
    }
  }

  /** The normalising loop of AddTagsToPlace. */
  method NormalizeNames(tagNames: seq<string>) returns (norm: seq<string>)
    ensures norm == Normalize(tagNames)
  {
    norm := [];
    for i := 0 to |tagNames|
      invariant norm == Normalize(tagNames[..i])
    {
      assert tagNames[..i + 1][..i] == tagNames[..i];
      var name := Text.TrimSpace(tagNames[i]);
      if name == "" {
        continue;
      }
      norm := norm + [name];
    }
    assert tagNames[..|tagNames|] == tagNames;
  }
}
