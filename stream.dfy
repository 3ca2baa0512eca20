/**
 * The document serializer: the XML declaration and the `<osm>` header, then
 * every node, every way and every relation of the temporary tables in
 * ascending id order, then `</osm>`. The document is the sequence of the
 * fragments the generator yields, one string per `yield`. Tag keys, tag
 * values and roles are printed as they are, without XML escaping.
 */
module Stream {
  import opened Osm
  import opened Decimal
  import opened Closure

  // ---------------------------------------------------------------- ids in order

  lemma {:induction false} MinExists(s: set<int>)
    requires s != {}
    ensures exists m :: m in s && forall y :: y in s ==> m <= y
    decreases |s|
  {
    var x := SomeMember(s);
    var rest := s - {x};
    if rest != {} {
      MinExists(rest);
      var m :| m in rest && forall y :: y in rest ==> m <= y;
      var least := if x < m then x else m;
      forall y | y in s
        ensures least <= y
      {
        if y != x {
          assert y in rest;
        }
      }
    } else {
      assert s == rest + {x};
      assert s == {x};
    }
  }

  /** The smallest id of a non-empty table. */
  function Least(s: set<int>): (m: int)
    requires s != {}
    ensures m in s && forall y :: y in s ==> m <= y
  {
    MinExists(s);
    var m :| m in s && forall y :: y in s ==> m <= y;
    m
  }

  /** `ORDER BY id`: the ids of a table, ascending, each once. */
  function SortedIds(s: set<int>): (r: seq<int>)
    ensures |r| == |s|
    ensures forall x :: x in s <==> x in r
    ensures forall i, j :: 0 <= i < j < |r| ==> r[i] < r[j]
    decreases |s|
  {
    if s == {} then []
    else
      var m := Least(s);
      var rest := SortedIds(s - {m});
      assert forall k :: 0 <= k < |rest| ==> m < rest[k] by {
        forall k | 0 <= k < |rest| ensures m < rest[k] {
          assert rest[k] in s - {m};
        }
      }
      assert |s - {m}| == |s| - 1;
      assert forall x :: x in s <==> x == m || x in rest;
      [m] + rest
  }

  // ---------------------------------------------------------------- fragments

  /** The pieces the generator yields, one per `yield`; `Text` gives their characters. */
  datatype Fragment =
    | Declaration | OsmStart | OsmEnd
    | NodeStart(id: int, node: Node)
    | WayStart(id: int, way: Way)
    | RelationStart(id: int, relation: Relation)
    | OpenEnd | SelfClose
    | TagLine(key: string, value: string)
    | NdLine(ref: int)
    | MemberLine(member: Member)
    | NodeEnd | WayEnd | RelationEnd

  /** ` name="value"`. */
  function Attr(name: string, value: string): string {
    " " + name + "=\"" + value + "\""
  }

  /** The member type as printed: the three codes spelled out, any other code unchanged. */
  function MemberTypeName(code: char): string {
    if code == 'N' then "node"
    else if code == 'W' then "way"
    else if code == 'R' then "relation"
    else [code]
  }

  function Text(f: Fragment): string {
    match f
    case Declaration => "<?xml version=\"1.0\" encoding=\"UTF-8\"?>\n"
    case OsmStart =>
      "<osm version=\"0.6\" generator=\"pyxapi\" copyright=\"OpenStreetMap and contributors\""
      + " attribution=\"http://www.openstreetmap.org/copyright\""
      + " license=\"http://opendatacommons.org/licenses/odbl/1-0/\">\n"
    case OsmEnd => "</osm>\n"
    case NodeStart(id, n) =>
      "<node" + Attr("id", ShowInt(id)) + Attr("version", ShowInt(n.version))
      + Attr("changeset", ShowInt(n.changeset)) + Attr("lat", n.lat) + Attr("lon", n.lon)
      + Attr("uid", ShowInt(n.uid)) + Attr("visible", "true") + Attr("timestamp", n.timestamp)
    case WayStart(id, w) =>
      "<way" + Attr("id", ShowInt(id)) + Attr("version", ShowInt(w.version))
      + Attr("changeset", ShowInt(w.changeset)) + Attr("uid", ShowInt(w.uid))
      + Attr("visible", "true") + Attr("timestamp", w.timestamp)
    case RelationStart(id, r) =>
      "<relation" + Attr("id", ShowInt(id)) + Attr("version", ShowInt(r.version))
      + Attr("changeset", ShowInt(r.changeset)) + Attr("uid", ShowInt(r.uid))
      + Attr("visible", "true") + Attr("timestamp", r.timestamp)
    case OpenEnd => ">\n"
    case SelfClose => "/>\n"
    case TagLine(k, v) => "<tag k=\"" + k + "\" v=\"" + v + "\" />\n"
    case NdLine(ref) => "<nd ref=\"" + ShowInt(ref) + "\" />\n"
    case MemberLine(m) =>
      "<member role=\"" + m.role + "\" type=\"" + MemberTypeName(m.memberType)
      + "\" id=\"" + ShowInt(m.ref) + "\" />\n"
    case NodeEnd => "</node>\n"
    case WayEnd => "</way>\n"
    case RelationEnd => "</relation>\n"
  }

  /** The strings yielded for a sequence of fragments, one per fragment, in order. */
  function Yielded<T>(fs: seq<T>, text: T -> string): (r: seq<string>)
    ensures |r| == |fs|
    decreases |fs|
  {
    if fs == [] then [] else Yielded(fs[..|fs| - 1], text) + [text(fs[|fs| - 1])]
  }

  /** The strings the generator yields for a sequence of fragments. */
  function Texts(fs: seq<Fragment>): seq<string> {
    Yielded(fs, Text)
  }

  /** One `<tag>` line per tag, in the order the tags are given. */
  function TagLines(tags: Tags): seq<Fragment>
    decreases |tags|
  {
    if tags == [] then []
    else TagLines(tags[..|tags| - 1]) + [TagLine(tags[|tags| - 1].0, tags[|tags| - 1].1)]
  }

  function NdLines(nds: seq<int>): seq<Fragment>
    decreases |nds|
  {
    if nds == [] then [] else NdLines(nds[..|nds| - 1]) + [NdLine(nds[|nds| - 1])]
  }

  function MemberLines(ms: seq<Member>): seq<Fragment>
    decreases |ms|
  {
    if ms == [] then [] else MemberLines(ms[..|ms| - 1]) + [MemberLine(ms[|ms| - 1])]
  }

  // ---------------------------------------------------------------- elements

  /** A node: self-closed without tags, otherwise opened, its tags, and closed. */
  function NodeElement(id: int, n: Node): seq<Fragment> {
    if n.tags != [] then [NodeStart(id, n), OpenEnd] + TagLines(n.tags) + [NodeEnd]
    else [NodeStart(id, n), SelfClose]
  }

  /** A way: self-closed without tags and `nd`s, otherwise opened, tags, `nd`s, closed. */
  function WayElement(id: int, w: Way): seq<Fragment> {
    if w.tags != [] || w.nds != [] then
      [WayStart(id, w), OpenEnd] + (TagLines(w.tags) + NdLines(w.nds)) + [WayEnd]
    else [WayStart(id, w), SelfClose]
  }

  /** A relation: self-closed without tags and members, otherwise opened, tags, members, closed. */
  function RelationElement(id: int, r: Relation): seq<Fragment> {
    if r.tags != [] || r.members != [] then
      [RelationStart(id, r), OpenEnd] + (TagLines(r.tags) + MemberLines(r.members)) + [RelationEnd]
    else [RelationStart(id, r), SelfClose]
  }

  /** The element printed for a node id of the store. */
  function NodeOf(st: Store): int -> seq<Fragment> {
    id => if id in st.nodes then NodeElement(id, st.nodes[id]) else []
  }

  function WayOf(st: Store): int -> seq<Fragment> {
    id => if id in st.ways then WayElement(id, st.ways[id]) else []
  }

  function RelationOf(st: Store): int -> seq<Fragment> {
    id => if id in st.relations then RelationElement(id, st.relations[id]) else []
  }

  /** The elements of the given ids, one after the other in the order of `ids`. */
  function Parts(ids: seq<int>, element: int -> seq<Fragment>): seq<Fragment>
    decreases |ids|
  {
    if ids == [] then [] else Parts(ids[..|ids| - 1], element) + element(ids[|ids| - 1])
  }

  /** The whole document for the given temporary tables. */
  function Document(st: Store, nodes: set<int>, ways: set<int>, rels: set<int>): seq<Fragment> {
    [Declaration, OsmStart] + Body(st, nodes, ways, rels) + [OsmEnd]
  }

  /** All nodes by ascending id, then all ways, then all relations. */
  function Body(st: Store, nodes: set<int>, ways: set<int>, rels: set<int>): seq<Fragment> {
    Parts(SortedIds(nodes), NodeOf(st)) + Parts(SortedIds(ways), WayOf(st)) + Parts(SortedIds(rels), RelationOf(st))
  }

  // ---------------------------------------------------------------- properties

  lemma {:induction false} YieldedAppend<T>(a: seq<T>, b: seq<T>, text: T -> string)
    ensures Yielded(a + b, text) == Yielded(a, text) + Yielded(b, text)
    decreases |b|
  {
    if b == [] {
      assert a + b == a;
    } else {
      var b' := b[..|b| - 1];
      assert (a + b)[..|a + b| - 1] == a + b';
      YieldedAppend(a, b', text);
    }
  }

  /** The string yielded at position i is the text of fragment i. */
  lemma {:induction false} YieldedAt<T>(fs: seq<T>, text: T -> string, i: nat)
    requires i < |fs|
    ensures Yielded(fs, text)[i] == text(fs[i])
    decreases |fs|
  {
    if i < |fs| - 1 {
      YieldedAt(fs[..|fs| - 1], text, i);
    }
  }

  /** Line i of the tag lines is the line of tag i. */
  lemma {:induction false} TagLinesAt(tags: Tags)
    ensures |TagLines(tags)| == |tags|
    ensures forall i :: 0 <= i < |tags| ==> TagLines(tags)[i] == TagLine(tags[i].0, tags[i].1)
    decreases |tags|
  {
    if tags != [] {
      var init := tags[..|tags| - 1];
      TagLinesAt(init);
      assert forall i :: 0 <= i < |init| ==> init[i] == tags[i];
    }
  }

  /** Line i of the `nd` lines refers to entry i of the way's `nodes` array. */
  lemma {:induction false} NdLinesAt(nds: seq<int>)
    ensures |NdLines(nds)| == |nds|
    ensures forall i :: 0 <= i < |nds| ==> NdLines(nds)[i] == NdLine(nds[i])
    decreases |nds|
  {
    if nds != [] {
      var init := nds[..|nds| - 1];
      NdLinesAt(init);
      assert forall i :: 0 <= i < |init| ==> init[i] == nds[i];
    }
  }

  /** Line i of the member lines is that of member i, in `sequence_id` order. */
  lemma {:induction false} MemberLinesAt(ms: seq<Member>)
    ensures |MemberLines(ms)| == |ms|
    ensures forall i :: 0 <= i < |ms| ==> MemberLines(ms)[i] == MemberLine(ms[i])
    decreases |ms|
  {
    if ms != [] {
      var init := ms[..|ms| - 1];
      MemberLinesAt(init);
      assert forall i :: 0 <= i < |init| ==> init[i] == ms[i];
    }
  }

  /** N, W and R are spelled out; any other code passes through; distinct codes print distinctly. */
  lemma MemberTypeNames(a: char, b: char)
    ensures MemberTypeName('N') == "node" && MemberTypeName('W') == "way" && MemberTypeName('R') == "relation"
    ensures a != 'N' && a != 'W' && a != 'R' ==> MemberTypeName(a) == [a]
    ensures MemberTypeName(a) == MemberTypeName(b) ==> a == b
  {
    if MemberTypeName(a) == MemberTypeName(b) {
      assert |MemberTypeName(a)| == |MemberTypeName(b)|;
      if |MemberTypeName(a)| == 1 {
        assert MemberTypeName(a)[0] == a && MemberTypeName(b)[0] == b;
      }
    }
  }

  /**
   * A node is self-closed exactly when it has no tags; otherwise it opens,
   * has one line per tag and closes with `</node>`.
   */
  lemma NodeClosing(id: int, n: Node)
    ensures var e := NodeElement(id, n);
      |e| >= 2 && e[0] == NodeStart(id, n) &&
      (e[|e| - 1] == SelfClose <==> n.tags == []) &&
      (n.tags != [] ==> e[1] == OpenEnd && e[|e| - 1] == NodeEnd && e[2..|e| - 1] == TagLines(n.tags)) &&
      |e| == (if n.tags == [] then 2 else |n.tags| + 3)
  {
    TagLinesAt(n.tags);
    if n.tags != [] {
      var e := NodeElement(id, n);
      assert e[2..|e| - 1] == TagLines(n.tags);
    }
  }

  /** A way is self-closed exactly when it has neither tags nor `nd`s. */
  lemma WayClosing(id: int, w: Way)
    ensures var e := WayElement(id, w);
      |e| >= 2 && e[0] == WayStart(id, w) &&
      (e[|e| - 1] == SelfClose <==> w.tags == [] && w.nds == []) &&
      (w.tags != [] || w.nds != [] ==>
        e[1] == OpenEnd && e[|e| - 1] == WayEnd && e[2..|e| - 1] == TagLines(w.tags) + NdLines(w.nds)) &&
      |e| == (if w.tags == [] && w.nds == [] then 2 else |w.tags| + |w.nds| + 3)
  {
    TagLinesAt(w.tags);
    NdLinesAt(w.nds);
  }

  /** A relation is self-closed exactly when it has neither tags nor members. */
  lemma RelationClosing(id: int, r: Relation)
    ensures var e := RelationElement(id, r);
      |e| >= 2 && e[0] == RelationStart(id, r) &&
      (e[|e| - 1] == SelfClose <==> r.tags == [] && r.members == []) &&
      (r.tags != [] || r.members != [] ==>
        e[1] == OpenEnd && e[|e| - 1] == RelationEnd && e[2..|e| - 1] == TagLines(r.tags) + MemberLines(r.members)) &&
      |e| == (if r.tags == [] && r.members == [] then 2 else |r.tags| + |r.members| + 3)
  {
    TagLinesAt(r.tags);
    MemberLinesAt(r.members);
  }

  lemma {:induction false} PartsAppend(a: seq<int>, b: seq<int>, element: int -> seq<Fragment>)
    ensures Parts(a + b, element) == Parts(a, element) + Parts(b, element)
    decreases |b|
  {
    if b == [] {
      assert a + b == a;
    } else {
      var b' := b[..|b| - 1];
      assert (a + b)[..|a + b| - 1] == a + b';
      PartsAppend(a, b', element);
    }
  }

  /** The element of x comes after those of the ids before it and before those after it. */
  lemma PartsMiddle(pre: seq<int>, x: int, post: seq<int>, element: int -> seq<Fragment>)
    ensures Parts(pre + [x] + post, element) == Parts(pre, element) + element(x) + Parts(post, element)
  {
    PartsAppend(pre, [x], element);
    PartsAppend(pre + [x], post, element);
    assert [x][..0] == [];
  }

  /**
   * The element of the k-th smallest id of a table comes after the elements
   * of all smaller ids and before those of all larger ones.
   */
  lemma InIdOrder(ids: set<int>, element: int -> seq<Fragment>, k: nat)
    requires k < |ids|
    ensures var sorted := SortedIds(ids);
      (forall j :: 0 <= j < k ==> sorted[j] < sorted[k]) &&
      (forall j :: k < j < |sorted| ==> sorted[k] < sorted[j]) &&
      Parts(sorted, element) ==
        Parts(sorted[..k], element) + element(sorted[k]) + Parts(sorted[k + 1..], element)
  {
    var sorted := SortedIds(ids);
    assert sorted == sorted[..k] + [sorted[k]] + sorted[k + 1..];
    PartsMiddle(sorted[..k], sorted[k], sorted[k + 1..], element);
  }

  /** The document opens with the declaration and `<osm>`, and its last fragment is `</osm>`. */
  lemma DocumentFrame(st: Store, nodes: set<int>, ways: set<int>, rels: set<int>)
    ensures var d := Document(st, nodes, ways, rels);
      |d| >= 3 && d[0] == Declaration && d[1] == OsmStart && d[|d| - 1] == OsmEnd &&
      d[2..|d| - 1] == Body(st, nodes, ways, rels)
  {
    Framed(Declaration, OsmStart, Body(st, nodes, ways, rels), OsmEnd);
  }

  lemma Framed<T>(a: T, b: T, body: seq<T>, c: T)
    ensures var d := [a, b] + body + [c];
      |d| >= 3 && d[0] == a && d[1] == b && d[|d| - 1] == c && d[2..|d| - 1] == body
  {
    var d := [a, b] + body + [c];
    assert d[2..|d| - 1] == body;
  }

  // ---------------------------------------------------------------- the generator

  /** The loop over a row's tags. */
  method EmitTags(tags: Tags) returns (out: seq<string>)
    ensures out == Texts(TagLines(tags))
  {
    out := [];
    var j := 0;
    while j < |tags|
      invariant 0 <= j <= |tags|
      invariant out == Texts(TagLines(tags[..j]))
    {
      assert tags[..j + 1][..j] == tags[..j];
      YieldedAppend(TagLines(tags[..j]), [TagLine(tags[j].0, tags[j].1)], Text);
      out := out + ["<tag k=\"" + tags[j].0 + "\" v=\"" + tags[j].1 + "\" />\n"];
      j := j + 1;
    }
    assert tags[..j] == tags;
  }

  /** The loop over a way's `nodes` array. */
  method EmitNds(nds: seq<int>) returns (out: seq<string>)
    ensures out == Texts(NdLines(nds))
  {
    out := [];
    var j := 0;
    while j < |nds|
      invariant 0 <= j <= |nds|
      invariant out == Texts(NdLines(nds[..j]))
    {
      assert nds[..j + 1][..j] == nds[..j];
      YieldedAppend(NdLines(nds[..j]), [NdLine(nds[j])], Text);
      out := out + ["<nd ref=\"" + ShowInt(nds[j]) + "\" />\n"];
      j := j + 1;
    }
    assert nds[..j] == nds;
  }

  /** The loop over a relation's member rows, mapping each member type code. */
  method EmitMembers(ms: seq<Member>) returns (out: seq<string>)
    ensures out == Texts(MemberLines(ms))
  {
    out := [];
    var j := 0;
    while j < |ms|
      invariant 0 <= j <= |ms|
      invariant out == Texts(MemberLines(ms[..j]))
    {
      assert ms[..j + 1][..j] == ms[..j];
      YieldedAppend(MemberLines(ms[..j]), [MemberLine(ms[j])], Text);
      var m := ms[j];
      var memberType: string;
      if m.memberType == 'N' {
        memberType := "node";
      } else if m.memberType == 'W' {
        memberType := "way";
      } else if m.memberType == 'R' {
        memberType := "relation";
      } else {
        memberType := [m.memberType];
      }
      out := out + ["<member role=\"" + m.role + "\" type=\"" + memberType + "\" id=\"" + ShowInt(m.ref) + "\" />\n"];
      j := j + 1;
    }
    assert ms[..j] == ms;
  }

  /** One node row: its start tag, then `>`, its tags and `</node>`, or `/>`. */
  method EmitNode(id: int, n: Node) returns (out: seq<string>)
    ensures out == Texts(NodeElement(id, n))
  {
    out := [Text(NodeStart(id, n))];
    if n.tags != [] {
      var tagLines := EmitTags(n.tags);
      out := out + [Text(OpenEnd)] + tagLines + [Text(NodeEnd)];
      ElementYielded(NodeStart(id, n), OpenEnd, TagLines(n.tags), NodeEnd, Text);
    } else {
      out := out + [Text(SelfClose)];
      PairYielded(NodeStart(id, n), SelfClose, Text);
    }
  }

  method EmitWay(id: int, w: Way) returns (out: seq<string>)
    ensures out == Texts(WayElement(id, w))
  {
    out := [Text(WayStart(id, w))];
    if w.tags != [] || w.nds != [] {
      var tagLines := EmitTags(w.tags);
      var ndLines := EmitNds(w.nds);
      var children := tagLines + ndLines;
      YieldedAppend(TagLines(w.tags), NdLines(w.nds), Text);
      ElementYielded(WayStart(id, w), OpenEnd, TagLines(w.tags) + NdLines(w.nds), WayEnd, Text);
      out := out + [Text(OpenEnd)] + children + [Text(WayEnd)];
    } else {
      out := out + [Text(SelfClose)];
      PairYielded(WayStart(id, w), SelfClose, Text);
    }
  }

  method EmitRelation(id: int, r: Relation) returns (out: seq<string>)
    ensures out == Texts(RelationElement(id, r))
  {
    out := [Text(RelationStart(id, r))];
    if r.tags != [] || r.members != [] {
      var tagLines := EmitTags(r.tags);
      var memberLines := EmitMembers(r.members);
      var children := tagLines + memberLines;
      YieldedAppend(TagLines(r.tags), MemberLines(r.members), Text);
      ElementYielded(RelationStart(id, r), OpenEnd, TagLines(r.tags) + MemberLines(r.members), RelationEnd, Text);
      out := out + [Text(OpenEnd)] + children + [Text(RelationEnd)];
    } else {
      out := out + [Text(SelfClose)];
      PairYielded(RelationStart(id, r), SelfClose, Text);
    }
  }

  /** The strings of a self-closed element: start, `/>`. */
  lemma PairYielded<T>(start: T, close: T, text: T -> string)
    ensures Yielded([start, close], text) == [text(start), text(close)]
  {
    assert [start, close][..1] == [start];
  }

  /** The strings of an opened element: start, `>`, children, end tag. */
  lemma ElementYielded<T>(start: T, open: T, children: seq<T>, end: T, text: T -> string)
    ensures Yielded([start, open] + children + [end], text) ==
      [text(start)] + [text(open)] + Yielded(children, text) + [text(end)]
  {
    YieldedAppend([start, open] + children, [end], text);
    YieldedAppend([start, open], children, text);
    assert [start, open][..1] == [start];
    assert [end][..0] == [];
  }

  /** The loop over the rows of one temporary table, read in the order of `ids`. */
  method EmitNodes(st: Store, ids: seq<int>) returns (out: seq<string>)
    requires forall i :: 0 <= i < |ids| ==> ids[i] in st.nodes
    ensures out == Texts(Parts(ids, NodeOf(st)))
  {
    out := [];
    var i := 0;
    while i < |ids|
      invariant 0 <= i <= |ids|
      invariant out == Texts(Parts(ids[..i], NodeOf(st)))
    {
      assert ids[..i + 1][..i] == ids[..i];
      var element := EmitNode(ids[i], st.nodes[ids[i]]);
      YieldedAppend(Parts(ids[..i], NodeOf(st)), NodeOf(st)(ids[i]), Text);
      out := out + element;
      i := i + 1;
    }
    assert ids[..i] == ids;
  }

  method EmitWays(st: Store, ids: seq<int>) returns (out: seq<string>)
    requires forall i :: 0 <= i < |ids| ==> ids[i] in st.ways
    ensures out == Texts(Parts(ids, WayOf(st)))
  {
    out := [];
    var i := 0;
    while i < |ids|
      invariant 0 <= i <= |ids|
      invariant out == Texts(Parts(ids[..i], WayOf(st)))
    {
      assert ids[..i + 1][..i] == ids[..i];
      var element := EmitWay(ids[i], st.ways[ids[i]]);
      YieldedAppend(Parts(ids[..i], WayOf(st)), WayOf(st)(ids[i]), Text);
      out := out + element;
      i := i + 1;
    }
    assert ids[..i] == ids;
  }

  method EmitRelations(st: Store, ids: seq<int>) returns (out: seq<string>)
    requires forall i :: 0 <= i < |ids| ==> ids[i] in st.relations
    ensures out == Texts(Parts(ids, RelationOf(st)))
  {
    out := [];
    var i := 0;
    while i < |ids|
      invariant 0 <= i <= |ids|
      invariant out == Texts(Parts(ids[..i], RelationOf(st)))
    {
      assert ids[..i + 1][..i] == ids[..i];
      var element := EmitRelation(ids[i], st.relations[ids[i]]);
      YieldedAppend(Parts(ids[..i], RelationOf(st)), RelationOf(st)(ids[i]), Text);
      out := out + element;
      i := i + 1;
    }
    assert ids[..i] == ids;
  }

  /**
   * `stream_osm_data`: the strings in the order the generator yields them,
   * the three tables each read in ascending id order.
   */
  method StreamOsmData(t: TempTables) returns (out: seq<string>)
    requires t.Valid()
    ensures out == Texts(Document(t.store, t.bboxNodes, t.bboxWays, t.bboxRelations))
  {
    var st := t.store;
    var nodeIds := SortedIds(t.bboxNodes);
    var nodes := EmitNodes(st, nodeIds);
    var wayIds := SortedIds(t.bboxWays);
    var ways := EmitWays(st, wayIds);
    var relationIds := SortedIds(t.bboxRelations);
    var relations := EmitRelations(st, relationIds);
    var body := nodes + ways + relations;
    out := [Text(Declaration), Text(OsmStart)] + body + [Text(OsmEnd)];
    BodyYielded(Parts(nodeIds, NodeOf(st)), Parts(wayIds, WayOf(st)), Parts(relationIds, RelationOf(st)), Text);
    DocumentYielded(Declaration, OsmStart, Body(st, t.bboxNodes, t.bboxWays, t.bboxRelations), OsmEnd, Text);
  }

  /** The strings of the document: declaration, header, body, footer. */
  lemma DocumentYielded<T>(decl: T, header: T, body: seq<T>, footer: T, text: T -> string)
    ensures Yielded([decl, header] + body + [footer], text) ==
      [text(decl), text(header)] + Yielded(body, text) + [text(footer)]
  {
    var head := [decl, header];
    YieldedAppend(head + body, [footer], text);
    YieldedAppend(head, body, text);
    assert head[..1] == [decl];
    assert [footer][..0] == [];
  }

  /** The strings of the three tables, one after the other. */
  lemma BodyYielded<T>(nodes: seq<T>, ways: seq<T>, relations: seq<T>, text: T -> string)
    ensures Yielded(nodes + ways + relations, text) ==
      Yielded(nodes, text) + Yielded(ways, text) + Yielded(relations, text)
  {
    YieldedAppend(nodes + ways, relations, text);
    YieldedAppend(nodes, ways, text);
  }
}
