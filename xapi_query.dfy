/**
 * The XAPI predicate compiler: `[key=value][key2=value2]...` becomes a SQL
 * WHERE text with `%s` placeholders and the positional parameter list bound
 * to them. The text is kept as a sequence of pieces, literal SQL and
 * placeholders, so that placeholders can be counted; `Render` gives the
 * string the database receives.
 */
module XapiQuery {
  import opened Wrappers
  import opened Decimal
  import opened Text
  import opened Bbox

  /** Literal SQL never contains a `%`, so every `%s` of the text is a placeholder. */
  type SqlText = s: string | '%' !in s witness ""

  datatype Piece = Lit(text: SqlText) | Hole

  type Sql = seq<Piece>

  /** The SQL text: each placeholder is written `%s`. */
  function Render(q: Sql): string
    decreases |q|
  {
    if q == [] then "" else (if q[0].Hole? then "%s" else q[0].text) + Render(q[1..])
  }

  function Holes(q: Sql): nat {
    multiset(q)[Hole]
  }

  /** The number of occurrences of `%s` in a string. */
  function PlaceholderCount(s: string): nat
    decreases |s|
  {
    if |s| < 2 then 0
    else (if s[0] == '%' && s[1] == 's' then 1 else 0) + PlaceholderCount(s[1..])
  }

  /** A bound parameter: `int(...)` of an id, a bbox coordinate, or a tag key or value. */
  datatype Param = IntParam(i: int) | RealParam(x: real) | TextParam(s: string)

  /**
   * What compiling can raise. `UnpackFailed` and `NotAnInteger` are Python
   * `ValueError`s, not `QueryError`s; `FloatHasNoSplit` is the `AttributeError`
   * of the bbox defect, raised only by `BboxGroupAsWritten`.
   */
  datatype Error =
    | UnpackFailed(group: string)
    | NotAnInteger(text: string)
    | QueryError(message: string)
    | FloatHasNoSplit

  /** One bracket group compiled: its clause and the parameters of its placeholders. */
  datatype Clause = Clause(sql: Sql, params: seq<Param>)

  datatype Query = Query(sql: Sql, params: seq<Param>)

  const AndSep: Sql := [Lit(" AND ")]
  const OrSep: Sql := [Lit(" OR ")]
  const UidSql: Sql := [Lit("uid = "), Hole]
  const ChangesetSql: Sql := [Lit("changeset_id = "), Hole]
  const Corner: Sql := [Hole, Lit(" "), Hole]
  const Comma: Sql := [Lit(", ")]
  /** The five corners of the polygon ring, `%s %s` each, comma-separated. */
  const Ring: Sql := Corner + Comma + Corner + Comma + Corner + Comma + Corner + Comma + Corner
  const PolygonOpen: Sql := [Lit("ST_Intersects(geom, " + "ST_GeometryFromText(" + "'POLYGON((")]
  const PolygonClose: Sql := [Lit("))', 4326))")]
  const BboxSql: Sql := PolygonOpen + Ring + PolygonClose

  /** `sep.join(cs)`, whose text is `Render(sep)` between the rendered clauses. */
  function JoinSql(cs: seq<Sql>, sep: Sql): Sql
    decreases |cs|
  {
    if cs == [] then []
    else if |cs| == 1 then cs[0]
    else JoinSql(cs[..|cs| - 1], sep) + sep + cs[|cs| - 1]
  }

  // ---------------------------------------------------------------- placeholders

  lemma {:induction false} RenderAppend(a: Sql, b: Sql)
    ensures Render(a + b) == Render(a) + Render(b)
    decreases |a|
  {
    if a != [] {
      assert (a + b)[1..] == a[1..] + b;
      RenderAppend(a[1..], b);
      assert (a + b)[0] == a[0];
    } else {
      assert a + b == b;
    }
  }

  lemma {:induction false} PlaceholderCountAppend(x: string, y: string)
    requires x == [] || x[|x| - 1] != '%'
    ensures PlaceholderCount(x + y) == PlaceholderCount(x) + PlaceholderCount(y)
    decreases |x|
  {
    if x == [] {
      assert x + y == y;
    } else if |x| == 1 {
      if |y| >= 1 {
        assert (x + y)[1..] == y;
      }
    } else if |x| >= 2 {
      assert (x + y)[1..] == x[1..] + y;
      PlaceholderCountAppend(x[1..], y);
    }
  }

  lemma {:induction false} NoPercentNoPlaceholder(s: string)
    requires '%' !in s
    ensures PlaceholderCount(s) == 0
    decreases |s|
  {
    if |s| >= 2 {
      assert s[0] in s;
      assert forall c :: c in s[1..] ==> c in s;
      NoPercentNoPlaceholder(s[1..]);
    }
  }

  /** The `%s` occurrences of the rendered text are exactly the placeholders. */
  lemma {:induction false} RenderPlaceholders(q: Sql)
    ensures PlaceholderCount(Render(q)) == Holes(q)
    decreases |q|
  {
    if q != [] {
      assert q == [q[0]] + q[1..];
      assert multiset(q) == multiset([q[0]]) + multiset(q[1..]);
      RenderPlaceholders(q[1..]);
      var head := if q[0].Hole? then "%s" else q[0].text;
      if q[0].Hole? {
        assert PlaceholderCount("%s") == 1 by {
          assert "%s"[1..] == "s";
        }
      } else {
        NoPercentNoPlaceholder(head);
        assert head == [] || head[|head| - 1] in head;
      }
      PlaceholderCountAppend(head, Render(q[1..]));
    }
  }

  /** Joining with a separator that has no placeholder adds none. */
  lemma {:induction false} JoinSqlShape(cs: seq<Sql>, sep: Sql, c: Sql)
    requires Holes(sep) == 0
    ensures cs != [] ==> JoinSql(cs + [c], sep) == JoinSql(cs, sep) + sep + c
    ensures cs != [] ==> Holes(JoinSql(cs + [c], sep)) == Holes(JoinSql(cs, sep)) + Holes(c)
    ensures cs == [] ==> JoinSql(cs + [c], sep) == c
    decreases |cs|
  {
    var cs' := cs + [c];
    assert cs'[..|cs'| - 1] == cs;
    if |cs| > 1 {
      JoinSqlShape(cs[..|cs| - 1], sep, cs[|cs| - 1]);
      assert cs[..|cs| - 1] + [cs[|cs| - 1]] == cs;
    }
  }

  // ---------------------------------------------------------------- tag clauses

  /** `itertools.product(ks, vs)`: every pair, keys outer, values inner. */
  function Product<K, V>(ks: seq<K>, vs: seq<V>): (r: seq<(K, V)>)
    ensures |r| == |ks| * |vs|
    decreases |ks|
  {
    if ks == [] then []
    else
      var r := Row(ks[0], vs) + Product(ks[1..], vs);
      assert |ks| * |vs| == |vs| + (|ks| - 1) * |vs|;
      r
  }

  /** The pairs of one key with every value, in order. */
  function Row<K, V>(k: K, vs: seq<V>): (r: seq<(K, V)>)
    ensures |r| == |vs|
    ensures forall j :: 0 <= j < |vs| ==> r[j] == (k, vs[j])
  {
    seq(|vs|, j requires 0 <= j < |vs| => (k, vs[j]))
  }

  /** Every pair of the product takes its value from the values. */
  lemma {:induction false} ProductValues<K, V>(ks: seq<K>, vs: seq<V>)
    ensures forall i :: 0 <= i < |Product(ks, vs)| ==> Product(ks, vs)[i].1 in vs
    decreases |ks|
  {
    if ks != [] {
      ProductValues(ks[1..], vs);
      var row := Row(ks[0], vs);
      assert Product(ks, vs) == row + Product(ks[1..], vs);
      assert forall i :: 0 <= i < |row| ==> row[i].1 in vs;
    }
  }

  /** The pair (ks[i], vs[j]) sits at position i * |vs| + j of the product. */
  lemma {:induction false} ProductAt<K, V>(ks: seq<K>, vs: seq<V>, i: nat, j: nat)
    requires i < |ks| && j < |vs|
    ensures i * |vs| + j < |Product(ks, vs)|
    ensures Product(ks, vs)[i * |vs| + j] == (ks[i], vs[j])
    decreases i
  {
    if i > 0 {
      ProductAt(ks[1..], vs, i - 1, j);
      assert i * |vs| + j == |vs| + ((i - 1) * |vs| + j);
      assert ks[1..][i - 1] == ks[i];
    }
  }

  /** One disjunct: the value `*` asks for the key, any other value for the pair. */
  function TagTest(v: string): Sql {
    if v == "*" then [Lit("(tags ? "), Hole, Lit(")")]
    else [Lit("(tags @> hstore("), Hole, Lit(", "), Hole, Lit("))")]
  }

  function TagParams(k: string, v: string): seq<Param> {
    if v == "*" then [TextParam(k)] else [TextParam(k), TextParam(v)]
  }

  lemma TagTestAligned(k: string, v: string)
    ensures Holes(TagTest(v)) == |TagParams(k, v)|
    ensures |TagParams(k, v)| == (if v == "*" then 1 else 2)
  {
  }

  /** The disjuncts of a tag clause, one per (key, value) pair, in order. */
  function Disjuncts(ps: seq<(string, string)>): (r: seq<Sql>)
    ensures |r| == |ps|
    decreases |ps|
  {
    if ps == [] then [] else Disjuncts(ps[..|ps| - 1]) + [TagTest(ps[|ps| - 1].1)]
  }

  /** The parameters of the disjuncts, concatenated in the same order. */
  function DisjunctParams(ps: seq<(string, string)>): seq<Param>
    decreases |ps|
  {
    if ps == [] then []
    else DisjunctParams(ps[..|ps| - 1]) + TagParams(ps[|ps| - 1].0, ps[|ps| - 1].1)
  }

  /**
   * Each disjunct binds one parameter for `*` and two otherwise, so a clause
   * over n pairs binds between n and 2n: n when every value is `*`, 2n when none is.
   */
  lemma {:induction false} DisjunctParamsCount(ps: seq<(string, string)>)
    ensures |ps| <= |DisjunctParams(ps)| <= 2 * |ps|
    ensures (forall i :: 0 <= i < |ps| ==> ps[i].1 == "*") ==> |DisjunctParams(ps)| == |ps|
    ensures (forall i :: 0 <= i < |ps| ==> ps[i].1 != "*") ==> |DisjunctParams(ps)| == 2 * |ps|
    decreases |ps|
  {
    if ps != [] {
      var init := ps[..|ps| - 1];
      DisjunctParamsCount(init);
      TagTestAligned(ps[|ps| - 1].0, ps[|ps| - 1].1);
      assert forall i :: 0 <= i < |init| ==> init[i] == ps[i];
    }
  }

  /** `'(' + ' OR '.join(ors) + ')'` over the product of the keys and the values. */
  function TagClause(keys: seq<string>, vals: seq<string>): Clause {
    var ps := Product(keys, vals);
    Clause([Lit("(")] + JoinSql(Disjuncts(ps), OrSep) + [Lit(")")], DisjunctParams(ps))
  }

  lemma {:induction false} DisjunctsAligned(ps: seq<(string, string)>)
    ensures Holes(JoinSql(Disjuncts(ps), OrSep)) == |DisjunctParams(ps)|
    decreases |ps|
  {
    if ps != [] {
      var init := ps[..|ps| - 1];
      var last := ps[|ps| - 1];
      DisjunctsAligned(init);
      TagTestAligned(last.0, last.1);
      JoinSqlShape(Disjuncts(init), OrSep, TagTest(last.1));
    }
  }

  lemma {:induction false} DisjunctsAppend(a: seq<(string, string)>, b: seq<(string, string)>)
    ensures Disjuncts(a + b) == Disjuncts(a) + Disjuncts(b)
    ensures DisjunctParams(a + b) == DisjunctParams(a) + DisjunctParams(b)
    decreases |b|
  {
    if b == [] {
      assert a + b == a;
    } else {
      var b' := b[..|b| - 1];
      assert (a + b)[..|a + b| - 1] == a + b';
      DisjunctsAppend(a, b');
    }
  }

  /** The disjuncts that test each value in turn. */
  function ValueTests(vs: seq<string>): (r: seq<Sql>)
    decreases |vs|
  {
    if vs == [] then [] else [TagTest(vs[0])] + ValueTests(vs[1..])
  }

  function KeyParams(k: string, vs: seq<string>): seq<Param>
    decreases |vs|
  {
    if vs == [] then [] else TagParams(k, vs[0]) + KeyParams(k, vs[1..])
  }

  lemma {:induction false} RowDisjuncts(k: string, vs: seq<string>)
    ensures Disjuncts(Row(k, vs)) == ValueTests(vs)
    ensures DisjunctParams(Row(k, vs)) == KeyParams(k, vs)
    decreases |vs|
  {
    if vs != [] {
      RowDisjuncts(k, vs[1..]);
      var one := [(k, vs[0])];
      assert Row(k, vs) == one + Row(k, vs[1..]);
      DisjunctsAppend(one, Row(k, vs[1..]));
      assert one[..0] == [];
      assert Disjuncts(one) == [TagTest(vs[0])];
      assert DisjunctParams(one) == TagParams(k, vs[0]);
    }
  }

  function Repeat<T>(xs: seq<T>, m: nat): (r: seq<T>)
    ensures |r| == m * |xs|
  {
    if m == 0 then [] else xs + Repeat(xs, m - 1)
  }

  function AllKeyParams(ks: seq<string>, vs: seq<string>): seq<Param>
    decreases |ks|
  {
    if ks == [] then [] else KeyParams(ks[0], vs) + AllKeyParams(ks[1..], vs)
  }

  /**
   * A tag group with keys k1..km and values v1..vn has m*n disjuncts in
   * product order: the value tests v1..vn once for each key, and the
   * parameters key by key, each key with every value in turn.
   */
  lemma TagProductOrder(ks: seq<string>, vs: seq<string>)
    ensures Disjuncts(Product(ks, vs)) == Repeat(ValueTests(vs), |ks|)
    ensures DisjunctParams(Product(ks, vs)) == AllKeyParams(ks, vs)
  {
    ProductTests(ks, vs);
    ProductParams(ks, vs);
  }

  lemma {:induction false} ProductTests(ks: seq<string>, vs: seq<string>)
    ensures Disjuncts(Product(ks, vs)) == Repeat(ValueTests(vs), |ks|)
    decreases |ks|
  {
    if ks != [] {
      var row := Row(ks[0], vs);
      var rest := Product(ks[1..], vs);
      ProductTests(ks[1..], vs);
      RowDisjuncts(ks[0], vs);
      assert Product(ks, vs) == row + rest;
      DisjunctsAppend(row, rest);
      assert |ks[1..]| == |ks| - 1;
      assert Repeat(ValueTests(vs), |ks|) == ValueTests(vs) + Repeat(ValueTests(vs), |ks| - 1);
    }
  }

  lemma {:induction false} ProductParams(ks: seq<string>, vs: seq<string>)
    ensures DisjunctParams(Product(ks, vs)) == AllKeyParams(ks, vs)
    decreases |ks|
  {
    if ks != [] {
      ProductParams(ks[1..], vs);
      RowDisjuncts(ks[0], vs);
      assert Product(ks, vs) == Row(ks[0], vs) + Product(ks[1..], vs);
      DisjunctsAppend(Row(ks[0], vs), Product(ks[1..], vs));
    }
  }

  // ---------------------------------------------------------------- one group

  /** `@uid=` and `@changeset=`: one placeholder bound to `int(right)`. */
  function IdGroup(sql: Sql, right: string): Result<Clause, Error> {
    match ParseInt(right)
    case None => Err(NotAnInteger(right))
    case Some(n) => Ok(Clause(sql, [IntParam(n)]))
  }

  /** The ring's coordinates, in order, as the bbox clause's ten parameters. */
  function RingParams(b: Box): (r: seq<Param>)
    ensures |r| == 10
    ensures forall i :: 0 <= i < 10 ==> r[i] == RealParam(RingCoordinates(b)[i])
  {
    var xs := RingCoordinates(b);
    seq(10, i requires 0 <= i < 10 => RealParam(xs[i]))
  }

  /**
   * `bbox=`: parse, check, then the polygon clause with the ring bound to
   * its ten placeholders, reusing the four numbers already parsed.
   */
  function BboxGroup(right: string, floatOf: string -> Option<real>): Result<Clause, Error> {
    match ParseBbox(right, floatOf)
    case Err(m) => Err(QueryError(m))
    case Ok(b) =>
      match ValidateBbox(b)
      case Err(m) => Err(QueryError(m))
      case Ok(_) => Ok(Clause(BboxSql, RingParams(b)))
  }

  /** `bbox=` as the source writes it: after the checks pass, `right.split` on a float raises. */
  function BboxGroupAsWritten(right: string, floatOf: string -> Option<real>): Result<Clause, Error> {
    match ParseBbox(right, floatOf)
    case Err(m) => Err(QueryError(m))
    case Ok(b) =>
      match ValidateBbox(b)
      case Err(m) => Err(QueryError(m))
      case Ok(_) => Err(FloatHasNoSplit)
  }

  /** One bracket group: unpack `left=right`, then compile the two sides. */
  function CompileGroup(g: string, floatOf: string -> Option<real>): Result<Clause, Error> {
    var parts := Split(g, '=');
    if |parts| != 2 then Err(UnpackFailed(g)) else CompileSides(parts[0], parts[1], floatOf)
  }

  /** The dispatch on the left-hand side. */
  function CompileSides(left: string, right: string, floatOf: string -> Option<real>): Result<Clause, Error> {
    if left == "@uid" then IdGroup(UidSql, right)
    else if left == "@changeset" then IdGroup(ChangesetSql, right)
    else if left == "bbox" then BboxGroup(right, floatOf)
    else Ok(TagClause(Split(left, '|'), Split(right, '|')))
  }

  lemma BboxSqlHoles()
    ensures Holes(BboxSql) == 10
  {
    assert Holes(Corner) == 2 && Holes(Comma) == 0;
    RingHoles(Corner, Comma);
    assert Holes(PolygonOpen) == 0 && Holes(PolygonClose) == 0;
    HolesAppend(PolygonOpen, Ring);
    HolesAppend(PolygonOpen + Ring, PolygonClose);
  }

  lemma RingHoles(corner: Sql, sep: Sql)
    requires Holes(corner) == 2 && Holes(sep) == 0
    ensures Holes(corner + sep + corner + sep + corner + sep + corner + sep + corner) == 10
  {
    var c, s := corner, sep;
    HolesAppend(c, s);
    HolesAppend(c + s, c);
    HolesAppend(c + s + c, s);
    HolesAppend(c + s + c + s, c);
    HolesAppend(c + s + c + s + c, s);
    HolesAppend(c + s + c + s + c + s, c);
    HolesAppend(c + s + c + s + c + s + c, s);
    HolesAppend(c + s + c + s + c + s + c + s, c);
  }

  lemma HolesAppend(a: Sql, b: Sql)
    ensures Holes(a + b) == Holes(a) + Holes(b)
  {
    assert multiset(a + b) == multiset(a) + multiset(b);
  }

  lemma TagClauseAligned(keys: seq<string>, vals: seq<string>)
    ensures Holes(TagClause(keys, vals).sql) == |TagClause(keys, vals).params|
  {
    var ps := Product(keys, vals);
    DisjunctsAligned(ps);
    Parenthesized(JoinSql(Disjuncts(ps), OrSep));
  }

  /**
   * A tag clause over m keys and n values binds between m·n and 2·m·n
   * parameters: m·n when every value is `*`, 2·m·n when none is.
   */
  lemma TagClauseCount(keys: seq<string>, vals: seq<string>)
    ensures var n := |TagClause(keys, vals).params|;
      |keys| * |vals| <= n <= 2 * (|keys| * |vals|) &&
      ((forall v | v in vals :: v == "*") ==> n == |keys| * |vals|) &&
      ("*" !in vals ==> n == 2 * (|keys| * |vals|))
  {
    var ps := Product(keys, vals);
    ProductValues(keys, vals);
    DisjunctParamsCount(ps);
  }

  /** Parentheses around a text add no placeholder. */
  lemma Parenthesized(mid: Sql)
    ensures Holes([Lit("(")] + mid + [Lit(")")]) == Holes(mid)
  {
    assert multiset([Lit("(")] + mid + [Lit(")")]) == multiset([Lit("(")]) + multiset(mid) + multiset([Lit(")")]);
  }

  lemma BboxGroupAligned(right: string, floatOf: string -> Option<real>)
    ensures BboxGroup(right, floatOf).Ok? ==>
      Holes(BboxGroup(right, floatOf).value.sql) == 10 &&
      |BboxGroup(right, floatOf).value.params| == 10
  {
    var g := BboxGroup(right, floatOf);
    if g.Ok? {
      var b := ParseBbox(right, floatOf).value;
      assert g.value == Clause(BboxSql, RingParams(b));
      BboxSqlHoles();
    }
  }

  /**
   * Every compiled group has as many placeholders as parameters: one for
   * `@uid` and `@changeset`, ten for `bbox`, and one or two per disjunct
   * of a tag clause.
   */
  lemma SidesAligned(left: string, right: string, floatOf: string -> Option<real>)
    ensures CompileSides(left, right, floatOf).Ok? ==>
      var c := CompileSides(left, right, floatOf).value;
      Holes(c.sql) == |c.params| &&
      (left == "@uid" || left == "@changeset" ==> |c.params| == 1) &&
      (left == "bbox" ==> |c.params| == 10) &&
      (left != "@uid" && left != "@changeset" && left != "bbox" ==>
        var n := |Split(left, '|')| * |Split(right, '|')|;
        n <= |c.params| <= 2 * n)
  {
    if left == "@uid" {
      IdGroupAligned(UidSql, right);
    } else if left == "@changeset" {
      IdGroupAligned(ChangesetSql, right);
    } else if left == "bbox" {
      BboxGroupAligned(right, floatOf);
    } else {
      TagClauseAligned(Split(left, '|'), Split(right, '|'));
      TagClauseCount(Split(left, '|'), Split(right, '|'));
    }
  }

  lemma IdGroupAligned(sql: Sql, right: string)
    requires sql == UidSql || sql == ChangesetSql
    ensures IdGroup(sql, right).Ok? ==>
      Holes(IdGroup(sql, right).value.sql) == 1 && |IdGroup(sql, right).value.params| == 1
  {
    assert Holes(UidSql) == 1;
    assert Holes(ChangesetSql) == 1;
  }

  lemma CompileGroupAligned(g: string, floatOf: string -> Option<real>)
    ensures CompileGroup(g, floatOf).Ok? ==>
      var c := CompileGroup(g, floatOf).value;
      Holes(c.sql) == |c.params|
  {
    var parts := Split(g, '=');
    if |parts| == 2 {
      SidesAligned(parts[0], parts[1], floatOf);
    }
  }

  /**
   * Unpacking: a group without exactly one `=` fails with a ValueError;
   * otherwise it is compiled from the text before and after its `=`.
   */
  lemma CompileGroupUnpack(g: string, floatOf: string -> Option<real>)
    ensures multiset(g)['='] != 1 <==> CompileGroup(g, floatOf) == Err(UnpackFailed(g))
    ensures multiset(g)['='] == 1 ==>
      var parts := Split(g, '=');
      |parts| == 2 && Join(parts, '=') == g && '=' !in parts[0] && '=' !in parts[1] &&
      CompileGroup(g, floatOf) == CompileSides(parts[0], parts[1], floatOf)
  {
    SplitCount(g, '=');
    JoinSplit(g, '=');
    var parts := Split(g, '=');
    if |parts| == 2 {
      SidesNeverUnpack(parts[0], parts[1], floatOf);
    }
  }

  lemma SidesNeverUnpack(left: string, right: string, floatOf: string -> Option<real>)
    ensures !(CompileSides(left, right, floatOf).Err? && CompileSides(left, right, floatOf).error.UnpackFailed?)
  {
  }

  /**
   * What each left-hand side compiles to: `@uid` and `@changeset` bind one
   * integer or raise a ValueError; `bbox` binds the ten ring coordinates or
   * raises the QueryError of the parse or of the first failing check; any
   * other left-hand side is a tag clause over the `|`-separated keys and values.
   */
  lemma CompileSidesCases(left: string, right: string, floatOf: string -> Option<real>)
    ensures var r := CompileSides(left, right, floatOf);
      (left == "@uid" || left == "@changeset" ==>
        (r.Ok? <==> ParseInt(right).Some?) &&
        (r.Ok? ==> r.value.params == [IntParam(ParseInt(right).value)] &&
                   r.value.sql == if left == "@uid" then UidSql else ChangesetSql) &&
        (r.Err? ==> r.error == NotAnInteger(right))) &&
      (left == "bbox" ==>
        var b := ParseBbox(right, floatOf);
        (r.Ok? <==> b.Ok? && ValidBox(b.value)) &&
        (r.Ok? ==> r.value.sql == BboxSql && r.value.params == RingParams(b.value)) &&
        (b.Err? ==> r == Err(QueryError(InvalidBbox))) &&
        (b.Ok? && !ValidBox(b.value) ==> r == Err(QueryError(ValidateBbox(b.value).error)))) &&
      (left != "@uid" && left != "@changeset" && left != "bbox" ==>
        r == Ok(TagClause(Split(left, '|'), Split(right, '|'))))
  {
  }

  // ---------------------------------------------------------------- whole predicate

  /**
   * The loop over the groups, for a given compiler of one group: clauses and
   * parameters accumulated in bracket order; the first group that raises
   * ends it.
   */
  function CompileAll(gs: seq<string>, compile: string -> Result<Clause, Error>): Result<(seq<Sql>, seq<Param>), Error>
    decreases |gs|
  {
    if gs == [] then Ok(([], []))
    else match CompileAll(gs[..|gs| - 1], compile)
      case Err(e) => Err(e)
      case Ok((cs, ps)) =>
        match compile(gs[|gs| - 1])
        case Err(e) => Err(e)
        case Ok(c) => Ok((cs + [c.sql], ps + c.params))
  }

  /** The group compiler of `parse_xapi`. */
  function Compiler(floatOf: string -> Option<real>): string -> Result<Clause, Error> {
    g => CompileGroup(g, floatOf)
  }

  /** `parse_xapi(xapi)`: the clauses `' AND '`-joined, and their parameters. */
  function XapiQuery(xapi: string, floatOf: string -> Option<real>): Result<Query, Error> {
    match CompileAll(Groups(xapi), Compiler(floatOf))
    case Err(e) => Err(e)
    case Ok((cs, ps)) => Ok(Query(JoinSql(cs, AndSep), ps))
  }

  lemma {:induction false} CompileAllAligned(gs: seq<string>, compile: string -> Result<Clause, Error>)
    requires forall g :: compile(g).Ok? ==> Holes(compile(g).value.sql) == |compile(g).value.params|
    ensures CompileAll(gs, compile).Ok? ==>
      var (cs, ps) := CompileAll(gs, compile).value;
      |cs| == |gs| && Holes(JoinSql(cs, AndSep)) == |ps|
    decreases |gs|
  {
    if gs != [] && CompileAll(gs, compile).Ok? {
      var init := gs[..|gs| - 1];
      CompileAllAligned(init, compile);
      var (cs, ps) := CompileAll(init, compile).value;
      JoinSqlShape(cs, AndSep, compile(gs[|gs| - 1]).value.sql);
    }
  }

  lemma CompilerAligned(floatOf: string -> Option<real>)
    ensures forall g :: Compiler(floatOf)(g).Ok? ==>
      Holes(Compiler(floatOf)(g).value.sql) == |Compiler(floatOf)(g).value.params|
  {
    forall g | Compiler(floatOf)(g).Ok?
      ensures Holes(Compiler(floatOf)(g).value.sql) == |Compiler(floatOf)(g).value.params|
    {
      CompileGroupAligned(g, floatOf);
    }
  }

  /**
   * The number of `%s` in the query text equals the number of parameters,
   * so the positional parameters align with the placeholders.
   */
  lemma PlaceholdersAligned(xapi: string, floatOf: string -> Option<real>)
    ensures XapiQuery(xapi, floatOf).Ok? ==>
      var q := XapiQuery(xapi, floatOf).value;
      PlaceholderCount(Render(q.sql)) == Holes(q.sql) == |q.params|
  {
    CompilerAligned(floatOf);
    CompileAllAligned(Groups(xapi), Compiler(floatOf));
    if XapiQuery(xapi, floatOf).Ok? {
      RenderPlaceholders(XapiQuery(xapi, floatOf).value.sql);
    }
  }

  /** The groups compile exactly when every one of them does. */
  lemma {:induction false} GroupsSucceed(gs: seq<string>, compile: string -> Result<Clause, Error>)
    ensures CompileAll(gs, compile).Ok? <==> forall i :: 0 <= i < |gs| ==> compile(gs[i]).Ok?
    decreases |gs|
  {
    if gs != [] {
      var init := gs[..|gs| - 1];
      GroupsSucceed(init, compile);
      assert forall i :: 0 <= i < |init| ==> init[i] == gs[i];
    }
  }

  /** Clause i of the compiled groups is that of group i. */
  lemma {:induction false} GroupsInOrder(gs: seq<string>, compile: string -> Result<Clause, Error>)
    ensures CompileAll(gs, compile).Ok? ==>
      var cs := CompileAll(gs, compile).value.0;
      |cs| == |gs| &&
      forall i :: 0 <= i < |gs| ==> compile(gs[i]).Ok? && cs[i] == compile(gs[i]).value.sql
    decreases |gs|
  {
    if gs != [] && CompileAll(gs, compile).Ok? {
      var init := gs[..|gs| - 1];
      GroupsInOrder(init, compile);
      assert forall i :: 0 <= i < |init| ==> init[i] == gs[i];
    }
  }

  /**
   * The parameters of group i come right after those of the groups before
   * it: the positional parameters follow bracket order.
   */
  lemma {:induction false} ParamsInOrder(gs: seq<string>, i: nat, compile: string -> Result<Clause, Error>)
    requires i < |gs|
    requires CompileAll(gs, compile).Ok?
    ensures CompileAll(gs[..i], compile).Ok? && compile(gs[i]).Ok?
    ensures CompileAll(gs[..i], compile).value.1 + compile(gs[i]).value.params
      <= CompileAll(gs, compile).value.1
    decreases |gs|
  {
    var init := gs[..|gs| - 1];
    if i == |gs| - 1 {
      assert gs[..i] == init;
    } else {
      assert init[..i] == gs[..i];
      assert init[i] == gs[i];
      ParamsInOrder(init, i, compile);
    }
  }

  /** The first group that fails decides the error; the groups before it succeed. */
  lemma {:induction false} FirstFailingGroupWins(gs: seq<string>, compile: string -> Result<Clause, Error>)
    ensures CompileAll(gs, compile).Err? ==>
      exists k :: 0 <= k < |gs| &&
        compile(gs[k]) == Err(CompileAll(gs, compile).error) &&
        forall j :: 0 <= j < k ==> compile(gs[j]).Ok?
    decreases |gs|
  {
    if gs != [] && CompileAll(gs, compile).Err? {
      var init := gs[..|gs| - 1];
      assert forall i :: 0 <= i < |init| ==> init[i] == gs[i];
      if CompileAll(init, compile).Err? {
        FirstFailingGroupWins(init, compile);
      } else {
        GroupsSucceed(init, compile);
        assert compile(gs[|gs| - 1]) == Err(CompileAll(gs, compile).error);
      }
    }
  }

  /** Once a prefix of the groups fails, the whole predicate fails with that error. */
  lemma {:induction false} FailureStops(gs: seq<string>, n: nat, compile: string -> Result<Clause, Error>)
    requires 0 < n <= |gs|
    requires CompileAll(gs[..n], compile).Err?
    ensures CompileAll(gs, compile) == CompileAll(gs[..n], compile)
    decreases |gs| - n
  {
    if n < |gs| {
      assert gs[..n + 1][..n] == gs[..n];
      FailureStops(gs, n + 1, compile);
    } else {
      assert gs[..n] == gs;
    }
  }

  /** One more group: its clause is appended, or its error is the outcome. */
  lemma CompileAllStep(gs: seq<string>, i: nat, compile: string -> Result<Clause, Error>,
                       cs: seq<Sql>, ps: seq<Param>)
    requires i < |gs|
    requires CompileAll(gs[..i], compile) == Ok((cs, ps))
    ensures compile(gs[i]).Ok? ==>
      CompileAll(gs[..i + 1], compile) == Ok((cs + [compile(gs[i]).value.sql], ps + compile(gs[i]).value.params))
    ensures compile(gs[i]).Err? ==> CompileAll(gs[..i + 1], compile) == Err(compile(gs[i]).error)
  {
    assert gs[..i + 1][..i] == gs[..i];
  }

  /** A predicate without a bracket group compiles to the empty text and no parameters. */
  lemma EmptyPredicate(xapi: string, floatOf: string -> Option<real>)
    requires '[' !in xapi
    ensures XapiQuery(xapi, floatOf) == Ok(Query([], []))
    ensures Render(XapiQuery(xapi, floatOf).value.sql) == ""
  {
    NoBracketNoGroups(xapi);
  }

  const PubOrBar: Sql :=
    [Lit("("), Lit("(tags @> hstore("), Hole, Lit(", "), Hole, Lit("))"), Lit(" OR "),
     Lit("(tags @> hstore("), Hole, Lit(", "), Hole, Lit("))"), Lit(")")]

  const HasName: Sql := [Lit("("), Lit("(tags ? "), Hole, Lit(")"), Lit(")")]

  lemma PubOrBarClause()
    ensures TagClause(["amenity"], ["pub", "bar"]) ==
      Clause(PubOrBar, [TextParam("amenity"), TextParam("pub"), TextParam("amenity"), TextParam("bar")])
  {
    PubOrBarDisjuncts();
    JoinSqlPair(TagTest("pub"), TagTest("bar"), OrSep);
  }

  lemma PubOrBarDisjuncts()
    ensures Disjuncts(Product(["amenity"], ["pub", "bar"])) == [TagTest("pub"), TagTest("bar")]
    ensures DisjunctParams(Product(["amenity"], ["pub", "bar"])) == TagParams("amenity", "pub") + TagParams("amenity", "bar")
  {
    var vs := ["pub", "bar"];
    TagProductOrder(["amenity"], vs);
    assert ValueTests(vs) == [TagTest("pub"), TagTest("bar")] by {
      assert ValueTests(vs[1..][1..]) == [];
    }
    assert KeyParams("amenity", vs) == TagParams("amenity", "pub") + TagParams("amenity", "bar") by {
      assert KeyParams("amenity", vs[1..][1..]) == [];
    }
  }

  lemma HasNameClause()
    ensures TagClause(["name"], ["*"]) == Clause(HasName, [TextParam("name")])
  {
    var vs := ["*"];
    TagProductOrder(["name"], vs);
    assert ValueTests(vs) == [TagTest("*")] by {
      assert ValueTests(vs[1..]) == [];
    }
    assert KeyParams("name", vs) == TagParams("name", "*") by {
      assert KeyParams("name", vs[1..]) == [];
    }
  }

  lemma PubOrBarGroup(floatOf: string -> Option<real>)
    ensures CompileGroup("amenity=pub|bar", floatOf) == Ok(TagClause(["amenity"], ["pub", "bar"]))
  {
    PubOrBarSplits();
    assert CompileGroup("amenity=pub|bar", floatOf) == CompileSides("amenity", "pub|bar", floatOf);
  }

  lemma PubOrBarSplits()
    ensures Split("amenity=pub|bar", '=') == ["amenity", "pub|bar"]
    ensures Split("pub|bar", '|') == ["pub", "bar"]
    ensures Split("amenity", '|') == ["amenity"]
  {
    AmenitySplit();
    PubBarSplit();
    AmenityKeySplit();
  }

  lemma AmenityKeySplit()
    ensures Split("amenity", '|') == ["amenity"]
  {
    SplitJoin(["amenity"], '|');
  }

  lemma AmenitySplit()
    ensures Split("amenity=pub|bar", '=') == ["amenity", "pub|bar"]
  {
    assert Join(["amenity", "pub|bar"], '=') == "amenity=pub|bar";
    SplitJoin(["amenity", "pub|bar"], '=');
  }

  lemma PubBarSplit()
    ensures Split("pub|bar", '|') == ["pub", "bar"]
  {
    assert Join(["pub", "bar"], '|') == "pub|bar";
    SplitJoin(["pub", "bar"], '|');
  }

  lemma HasNameGroup(floatOf: string -> Option<real>)
    ensures CompileGroup("name=*", floatOf) == Ok(TagClause(["name"], ["*"]))
  {
    assert Join(["name", "*"], '=') == "name=*";
    SplitJoin(["name", "*"], '=');
    assert Join(["name"], '|') == "name";
    SplitJoin(["name"], '|');
    assert Join(["*"], '|') == "*";
    SplitJoin(["*"], '|');
  }

  /**
   * `[amenity=pub|bar][name=*]`: the first group asks for `amenity=pub` or
   * `amenity=bar`, the second for the key `name`; the clauses are AND-joined
   * and bind amenity, pub, amenity, bar, name, in that order.
   */
  lemma TwoTagGroups(floatOf: string -> Option<real>)
    ensures var c1, c2 := TagClause(["amenity"], ["pub", "bar"]), TagClause(["name"], ["*"]);
      XapiQuery("[amenity=pub|bar][name=*]", floatOf) == Ok(Query(c1.sql + AndSep + c2.sql, c1.params + c2.params))
  {
    TwoTagGroupTexts();
    PubOrBarGroup(floatOf);
    HasNameGroup(floatOf);
    XapiQueryPair("[amenity=pub|bar][name=*]", "amenity=pub|bar", "name=*", floatOf);
  }

  lemma TwoTagGroupTexts()
    ensures Groups("[amenity=pub|bar][name=*]") == ["amenity=pub|bar", "name=*"]
  {
    var gs := ["amenity=pub|bar", "name=*"];
    assert Bracketed(gs) == "[amenity=pub|bar][name=*]";
    GroupsOfBracketed(gs);
  }

  /** A predicate of two groups that both compile: their clauses AND-joined. */
  lemma XapiQueryPair(xapi: string, g1: string, g2: string, floatOf: string -> Option<real>)
    requires Groups(xapi) == [g1, g2]
    requires CompileGroup(g1, floatOf).Ok? && CompileGroup(g2, floatOf).Ok?
    ensures var c1, c2 := CompileGroup(g1, floatOf).value, CompileGroup(g2, floatOf).value;
      XapiQuery(xapi, floatOf) == Ok(Query(c1.sql + AndSep + c2.sql, c1.params + c2.params))
  {
    var c1, c2 := CompileGroup(g1, floatOf).value, CompileGroup(g2, floatOf).value;
    CompileAllPair(g1, g2, Compiler(floatOf));
    assert CompileAll(Groups(xapi), Compiler(floatOf)) == Ok(([c1.sql, c2.sql], c1.params + c2.params));
    assert XapiQuery(xapi, floatOf) == Ok(Query(JoinSql([c1.sql, c2.sql], AndSep), c1.params + c2.params));
    JoinSqlPair(c1.sql, c2.sql, AndSep);
  }

  lemma JoinSqlPair(a: Sql, b: Sql, sep: Sql)
    ensures JoinSql([a, b], sep) == a + sep + b
  {
    assert [a, b][..1] == [a];
  }

  lemma CompileAllPair(g1: string, g2: string, compile: string -> Result<Clause, Error>)
    requires compile(g1).Ok? && compile(g2).Ok?
    ensures CompileAll([g1, g2], compile) ==
      Ok(([compile(g1).value.sql, compile(g2).value.sql], compile(g1).value.params + compile(g2).value.params))
  {
    var c1, c2 := compile(g1).value, compile(g2).value;
    var gs, first := [g1, g2], [g1];
    assert first[..|first| - 1] == [];
    assert CompileAll(first, compile) == Ok(([c1.sql], c1.params)) by {
      assert [] + [c1.sql] == [c1.sql] && [] + c1.params == c1.params;
    }
    assert gs[..|gs| - 1] == first;
    assert [c1.sql] + [c2.sql] == [c1.sql, c2.sql];
  }

  /** The defect: as written, every bbox that passes the checks raises instead of compiling. */
  lemma BboxAsWrittenNeverCompiles(right: string, floatOf: string -> Option<real>)
    ensures BboxGroupAsWritten(right, floatOf).Err?
    ensures BboxGroup(right, floatOf).Ok? <==> BboxGroupAsWritten(right, floatOf) == Err(FloatHasNoSplit)
    ensures BboxGroup(right, floatOf).Err? ==> BboxGroupAsWritten(right, floatOf) == BboxGroup(right, floatOf)
  {
  }

  /** The input `[bbox=0,0,1,1]`: the corrected clause compiles, the source as written raises. */
  lemma UnitBoxExhibit(floatOf: string -> Option<real>)
    requires floatOf("0") == Some(0.0) && floatOf("1") == Some(1.0)
    ensures BboxGroupAsWritten("0,0,1,1", floatOf) == Err(FloatHasNoSplit)
    ensures BboxGroup("0,0,1,1", floatOf) == Ok(Clause(BboxSql, UnitRing))
  {
    var b := Box(0.0, 0.0, 1.0, 1.0);
    UnitBoxParses(floatOf);
    assert ValidateBbox(b) == Ok(b);
    UnitBoxRing();
  }

  /** The ring of the unit box, corner by corner. */
  const UnitRing: seq<Param> :=
    [RealParam(0.0), RealParam(0.0), RealParam(0.0), RealParam(1.0), RealParam(1.0),
     RealParam(1.0), RealParam(1.0), RealParam(0.0), RealParam(0.0), RealParam(0.0)]

  lemma UnitBoxParses(floatOf: string -> Option<real>)
    requires floatOf("0") == Some(0.0) && floatOf("1") == Some(1.0)
    ensures ParseBbox("0,0,1,1", floatOf) == Ok(Box(0.0, 0.0, 1.0, 1.0))
  {
    var ps := ["0", "0", "1", "1"];
    UnitBoxSplit();
    assert forall i :: 0 <= i < 4 ==> floatOf(ps[i]).Some?;
  }

  lemma UnitBoxSplit()
    ensures Split("0,0,1,1", ',') == ["0", "0", "1", "1"]
  {
    var ps := ["0", "0", "1", "1"];
    assert Join(ps, ',') == "0,0,1,1";
    SplitJoin(ps, ',');
  }

  lemma UnitBoxRing()
    ensures RingParams(Box(0.0, 0.0, 1.0, 1.0)) == UnitRing
  {
    var b := Box(0.0, 0.0, 1.0, 1.0);
    assert RingCoordinates(b) == [0.0, 0.0, 0.0, 1.0, 1.0, 1.0, 1.0, 0.0, 0.0, 0.0];
    assert forall i :: 0 <= i < 10 ==> RingParams(b)[i] == UnitRing[i];
  }

  // ---------------------------------------------------------------- the loops

  /** The loop over `itertools.product(keys, vals)` building `ors` and `orvs`. */
  method CollectDisjuncts(keys: seq<string>, vals: seq<string>) returns (ors: seq<Sql>, orvs: seq<Param>)
    ensures ors == Disjuncts(Product(keys, vals))
    ensures orvs == DisjunctParams(Product(keys, vals))
  {
    var pairs := Product(keys, vals);
    ors, orvs := [], [];
    var k := 0;
    while k < |pairs|
      invariant 0 <= k <= |pairs|
      invariant ors == Disjuncts(pairs[..k])
      invariant orvs == DisjunctParams(pairs[..k])
    {
      var (l, r) := pairs[k];
      if r == "*" {
        ors := ors + [[Lit("(tags ? "), Hole, Lit(")")]];
        orvs := orvs + [TextParam(l)];
      } else {
        ors := ors + [[Lit("(tags @> hstore("), Hole, Lit(", "), Hole, Lit("))")]];
        orvs := orvs + [TextParam(l), TextParam(r)];
      }
      assert pairs[..k + 1][..k] == pairs[..k];
      k := k + 1;
    }
    assert pairs[..k] == pairs;
  }

  /**
   * The body of the loop of `parse_xapi` for one bracket group: unpack, then
   * the `@uid`, `@changeset`, `bbox` or tag branch.
   */
  method CompileGroupStep(g: string, floatOf: string -> Option<real>) returns (r: Result<Clause, Error>)
    ensures r == CompileGroup(g, floatOf)
  {
    var parts := Split(g, '=');
    if |parts| != 2 {
      return Err(UnpackFailed(g));
    }
    var left, right := parts[0], parts[1];
    if left == "@uid" || left == "@changeset" {
      var n := ParseInt(right);
      if n.None? {
        return Err(NotAnInteger(right));
      }
      r := Ok(Clause(if left == "@uid" then UidSql else ChangesetSql, [IntParam(n.value)]));
    } else if left == "bbox" {
      var parsed := ParseBbox(right, floatOf);
      if parsed.Err? {
        return Err(QueryError(InvalidBbox));
      }
      var checked := ValidateBbox(parsed.value);
      if checked.Err? {
        return Err(QueryError(checked.error));
      }
      r := Ok(Clause(BboxSql, RingParams(parsed.value)));
    } else {
      var ors, orvs := CollectDisjuncts(Split(left, '|'), Split(right, '|'));
      r := Ok(Clause([Lit("(")] + JoinSql(ors, OrSep) + [Lit(")")], orvs));
    }
  }

  /**
   * `parse_xapi`: one pass over the bracket groups, appending each clause to
   * `query` and its parameters to `query_objs`, returning early on the first
   * group that raises.
   */
  method ParseXapi(xapi: string, floatOf: string -> Option<real>) returns (r: Result<Query, Error>)
    ensures r == XapiQuery(xapi, floatOf)
    ensures r.Ok? ==> PlaceholderCount(Render(r.value.sql)) == |r.value.params|
  {
    PlaceholdersAligned(xapi, floatOf);
    var query: seq<Sql> := [];
    var queryObjs: seq<Param> := [];
    var groups := Groups(xapi);
    var i := 0;
    while i < |groups|
      invariant 0 <= i <= |groups|
      invariant CompileAll(groups[..i], Compiler(floatOf)) == Ok((query, queryObjs))
    {
      var clause := CompileGroupStep(groups[i], floatOf);
      CompileAllStep(groups, i, Compiler(floatOf), query, queryObjs);
      if clause.Err? {
        r := Err(clause.error);
        FailureStops(groups, i + 1, Compiler(floatOf));
        return;
      }
      query := query + [clause.value.sql];
      queryObjs := queryObjs + clause.value.params;
      i := i + 1;
    }
    assert groups[..i] == groups;
    r := Ok(Query(JoinSql(query, AndSep), queryObjs));
  }
}
