/**
 * The backing store the service reads: the `nodes`, `ways`, `relations` and
 * `relation_members` tables of an OpenStreetMap snapshot database, keyed by id.
 * Formatted values (coordinates, ISO timestamps) are kept as the text the
 * serializer prints. The hstore column arrives as a Python dict, so `Tags`
 * stands for the dict's iteration order, and the model does not fix that order.
 */
module Osm {

  type Tags = seq<(string, string)>

  datatype Node = Node(
    version: int, changeset: int, uid: int, timestamp: string,
    lat: string, lon: string, tags: Tags)

  /** `nds` is the ordered `nodes` array of the way: references, repeats allowed. */
  datatype Way = Way(
    version: int, changeset: int, uid: int, timestamp: string,
    tags: Tags, nds: seq<int>)

  /**
   * One row of `relation_members`: `memberType` is the one-letter code
   * 'N', 'W' or 'R' the schema stores.
   */
  datatype Member = Member(memberType: char, ref: int, role: string)

  /** `members` is in `sequence_id` order. */
  datatype Relation = Relation(
    version: int, changeset: int, uid: int, timestamp: string,
    tags: Tags, members: seq<Member>)

  datatype Store = Store(
    nodes: map<int, Node>,
    ways: map<int, Way>,
    relations: map<int, Relation>)
}
