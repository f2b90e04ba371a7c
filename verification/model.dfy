/**
 * The rows of the relational schema: users, places, votes, tags and the
 * place/tag association. Timestamps and the ORM's relation fields are not
 * modelled; the key and uniqueness constraints are invariants of the store.
 */
module Model {
  import opened Wrappers

  /** A UUID. 0 stands for the nil UUID, Go's zero value. */
  type Uuid = nat

  const NilUuid: Uuid := 0

  /** An id produced by the database default uuid_generate_v4(), never the nil UUID. */
  type GeneratedId = id: Uuid | id != NilUuid witness 1

  /** A 16-bit signed integer, the width of the votes.value column. */
  type Int16 = x: int | -0x8000 <= x < 0x8000

  /** users: line_id is NOT NULL and UNIQUE; display_name may be empty. */
  datatype User = User(id: Uuid, lineId: string, displayName: string)

  /** places: url is NOT NULL and UNIQUE; name is NOT NULL but may be ""; added_by is nullable. */
  datatype Place = Place(id: Uuid, name: string, url: string, addedBy: Option<Uuid>)

  /** votes: one user's opinion of one place; value is meant to be -1, 0 or 1. */
  datatype Vote = Vote(id: Uuid, placeId: Uuid, userId: Uuid, value: Int16)

  /** tags: name is NOT NULL and UNIQUE. */
  datatype Tag = Tag(id: Uuid, name: string)

  /** place_tags: the primary key is the pair itself. */
  datatype PlaceTag = PlaceTag(placeId: Uuid, tagId: Uuid)

  /** The zero value of Place: nil id, empty name and URL, no author. */
  const ZeroPlace: Place := Place(NilUuid, "", "", None)

  /** The values the schema's comment allows for a vote. */
  predicate IntendedVoteValue(v: Int16)
  {
    v == -1 || v == 0 || v == 1
  }
}
