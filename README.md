# pyxapi core, modelled in Dafny

pyxapi is a small XAPI service for OpenStreetMap data. This project models three parts of `pyxapi/xapi.py`.

1. **The XAPI predicate compiler, `parse_xapi`.** A predicate such as `[amenity=pub|bar][name=*]` becomes a SQL `WHERE` text with `%s` placeholders, plus the list of parameters bound to those placeholders by position.
   - The SQL is a sequence of pieces: literal text, which never contains `%`, or a placeholder. `Render` writes a placeholder as `%s`.
   - Every group of the predicate becomes one clause:
     - `@uid=` and `@changeset=` bind one integer.
     - `bbox=` parses four numbers, runs six checks in a fixed order and binds the ten coordinates of a closed ring.
     - Any other key gives an OR of tag tests over the product of the `|`-separated keys and values.
   - The clauses are `AND`-joined.
   - The group loop is the method `ParseXapi`. Its single-group step is `CompileGroupStep`, and the loop over the key/value product is `CollectDisjuncts`. Each is proved equal to a specification function: `XapiQuery`, `CompileGroup` and `Disjuncts`/`DisjunctParams` respectively.
   - The properties below are proved about those functions.
2. **The closure engine of the `map` request.** The temporary tables `bbox_nodes`, `bbox_ways` and `bbox_relations` are the `set<int>` fields of the class `Closure.TempTables`. Its methods change them the way the SQL does:
   - `backfill_way_nodes` adds the nodes that the matched ways reference.
   - `backfill_relations` seeds the relations that have a matched node or way as a member.
   - `backfill_parent_relations` runs INSERT passes until a pass reports zero rows.
   - The fixpoint is the function `ParentClosure`. It terminates because each pass shrinks the set of relations still outside.
   - `CloseMap` runs the three steps in the order `map` calls them.
3. **The document serializer, `stream_osm_data`.** The generator yields one string per `yield`. The model collects them in a `seq<string>`.
   - The document is first described as a sequence of `Fragment` values, and `Text` spells each fragment with the exact characters the source yields.
   - The method `StreamOsmData` and its per-table and per-row helper methods are proved to produce `Texts(Document(...))`.
   - Order, self-closing and the member-type mapping are proved on fragments.

The backing database is the value `Osm.Store`: maps from id to node, way and relation rows. A relation's members are in `sequence_id` order.

The remaining inputs are handled as follows:
- Float parsing is a parameter `floatOf: string -> Option<real>`, standing for Python's `float()`. `None` stands for a `ValueError`.
- `int()` is modelled concretely as `Decimal.ParseInt`, following Python 2 on the unicode text the web framework passes in. It accepts surrounding whitespace, then an optional sign that may be followed by more whitespace, then ASCII digits. Whitespace is every character Python 2's Unicode database calls a space, for example U+00A0 and U+3000 as well as the ASCII whitespace.
- Formatted coordinates and timestamps are opaque strings.

The spatial selections that fill `bbox_nodes` and `bbox_ways` are outside the model. The `TempTables` constructor takes their results as given.

Where the code and its documentation differ, the model follows the code:
- A non-integer after `@uid=` or `@changeset=` raises a plain `ValueError` (`NotAnInteger`), not a `QueryError`.
- A group must contain exactly one `=`, because `(left, right) = g.split('=')` unpacks exactly two pieces. Any other count raises a `ValueError` (`UnpackFailed`).

## Model

| member | source | states |
|---|---|---|
| XapiQuery.ParseXapi | pyxapi/xapi.py:160-210 | the group loop returns exactly `XapiQuery(xapi)`: the first group that raises gives its error, otherwise the clauses are AND-joined and the parameters concatenated; on success the `%s` count of the rendered text equals the number of parameters |
| XapiQuery.CompileGroupStep | pyxapi/xapi.py:165-208 | the body of the loop (unpack, then the `@uid`, `@changeset`, `bbox` and tag branches with their early raises) computes exactly `CompileGroup(g)` |
| XapiQuery.CollectDisjuncts | pyxapi/xapi.py:195-206 | the loop over `itertools.product(keys, vals)` builds `ors` and `orvs` equal to `Disjuncts` and `DisjunctParams` of the product |
| XapiQuery.PlaceholdersAligned | pyxapi/xapi.py:163-210 | for every predicate that compiles, the number of `%s` in the rendered query text equals the number of holes and the length of the parameter list |
| XapiQuery.RenderPlaceholders | pyxapi/xapi.py:209 | the `%s` occurrences of the rendered text are exactly the placeholders, since literal SQL contains no `%` |
| XapiQuery.CompileGroupAligned | pyxapi/xapi.py:166-208 | every group that compiles has as many placeholders as parameters |
| XapiQuery.SidesAligned | pyxapi/xapi.py:166-208 | every group that compiles has as many placeholders as parameters, and the parameters number 1 for `@uid`/`@changeset`, 10 for `bbox`, and between m·n and 2·m·n for a tag clause over m keys and n values |
| XapiQuery.IdGroupAligned | pyxapi/xapi.py:166-171 | `uid = %s` and `changeset_id = %s` each carry one placeholder and one parameter |
| XapiQuery.BboxSqlHoles | pyxapi/xapi.py:192 | the polygon clause has exactly ten placeholders |
| XapiQuery.RingHoles | pyxapi/xapi.py:192 | five two-placeholder corners joined by placeholder-free separators have ten placeholders |
| XapiQuery.BboxGroupAligned | pyxapi/xapi.py:172-193 | a compiled bbox group has ten placeholders and ten parameters |
| XapiQuery.TagClauseAligned | pyxapi/xapi.py:194-208 | a tag clause `( … OR … )` has as many placeholders as its `orvs` |
| XapiQuery.TagClauseCount | pyxapi/xapi.py:194-208 | a tag clause over m keys and n values binds between m·n and 2·m·n parameters: m·n when every value is `*`, 2·m·n when no value is |
| XapiQuery.DisjunctParamsCount | pyxapi/xapi.py:199-206 | `orvs` gets one entry per `*` disjunct and two per other disjunct, so n disjuncts bind between n and 2n parameters |
| XapiQuery.ProductValues | pyxapi/xapi.py:199 | every pair of `itertools.product(keys, vals)` takes its value from `vals` |
| XapiQuery.DisjunctsAligned | pyxapi/xapi.py:199-207 | the OR-join of the disjuncts has as many placeholders as their parameters |
| XapiQuery.TagTestAligned | pyxapi/xapi.py:200-206 | `(tags ? %s)` binds one parameter and `(tags @> hstore(%s, %s))` two |
| XapiQuery.Parenthesized | pyxapi/xapi.py:207 | the parentheses around the disjuncts add no placeholder |
| XapiQuery.JoinSqlShape | pyxapi/xapi.py:207-209 | joining with a placeholder-free separator appends the separator and the next clause, and adds only the next clause's placeholders |
| XapiQuery.CompileGroupUnpack | pyxapi/xapi.py:165 | a group fails to unpack (ValueError) exactly when it does not contain exactly one `=`; otherwise it is compiled from the text before and after that `=` |
| XapiQuery.SidesNeverUnpack | pyxapi/xapi.py:165-208 | once unpacked, no branch raises the unpacking error |
| XapiQuery.CompileSidesCases | pyxapi/xapi.py:166-208 | the outcome per left-hand side: `@uid`/`@changeset` succeed exactly when `int(right)` does and bind that integer, otherwise ValueError; `bbox` succeeds exactly when it parses and passes the checks, binding the ring, otherwise 'Invalid bbox.' or the first failed check's message; any other key gives the tag clause over the split keys and values |
| XapiQuery.GroupsSucceed | pyxapi/xapi.py:164-208 | the predicate compiles exactly when every group does |
| XapiQuery.GroupsInOrder | pyxapi/xapi.py:164-209 | clause i of the joined query is the clause of bracket group i |
| XapiQuery.ParamsInOrder | pyxapi/xapi.py:164-208 | the parameters of group i directly follow those of the groups before it |
| XapiQuery.FirstFailingGroupWins | pyxapi/xapi.py:164-208 | a failing predicate fails with the error of a group all of whose predecessors compile |
| XapiQuery.FailureStops | pyxapi/xapi.py:164-208 | once a prefix of the groups raises, later groups do not change the outcome |
| XapiQuery.CompileAllStep | pyxapi/xapi.py:164-208 | one more group either appends its clause and parameters or becomes the outcome with its error |
| XapiQuery.EmptyPredicate | pyxapi/xapi.py:163-210 | a predicate with no `[` yields the empty query text and no parameters |
| XapiQuery.ProductAt | pyxapi/xapi.py:199 | pair (keys[i], vals[j]) is at position i·n+j of the product, n being the number of values: keys outer, values inner, m·n pairs |
| XapiQuery.TagProductOrder | pyxapi/xapi.py:197-208 | the disjuncts are the value tests repeated once per key, and the parameters go key by key, each key with every value in turn |
| XapiQuery.ProductTests | pyxapi/xapi.py:199-204 | the disjuncts of the product are the value tests of `vals`, once per key |
| XapiQuery.ProductParams | pyxapi/xapi.py:199-206 | the parameters of the product are each key's parameters, key after key |
| XapiQuery.RowDisjuncts | pyxapi/xapi.py:199-206 | the pairs of one key give the value tests of `vals` and that key's parameters |
| XapiQuery.DisjunctsAppend | pyxapi/xapi.py:199-206 | disjuncts and parameters of concatenated pairs concatenate |
| XapiQuery.PubOrBarClause | pyxapi/xapi.py:194-208 | key `amenity`, values `pub` and `bar`: two hstore disjuncts OR-joined in parentheses, binding amenity, pub, amenity, bar |
| XapiQuery.PubOrBarDisjuncts | pyxapi/xapi.py:199-206 | the two disjuncts and four parameters of that product |
| XapiQuery.HasNameClause | pyxapi/xapi.py:200-202 | the value `*` gives `((tags ? %s))` binding only the key |
| XapiQuery.PubOrBarGroup | pyxapi/xapi.py:165-208 | the group `amenity=` with the values `pub` and `bar` separated by a vertical bar compiles to that tag clause |
| XapiQuery.HasNameGroup | pyxapi/xapi.py:165-208 | the group `name=*` compiles to the key-exists clause |
| XapiQuery.TwoTagGroups | pyxapi/xapi.py:160-210 | the predicate of two groups, `amenity` with the values `pub` and `bar`, then `name=*`, gives the two clauses AND-joined and their parameters amenity, pub, amenity, bar, name in order |
| XapiQuery.XapiQueryPair | pyxapi/xapi.py:163-210 | a predicate of two compiling groups gives their clauses AND-joined and their parameters concatenated |
| XapiQuery.CompileAllPair | pyxapi/xapi.py:164-208 | two compiling groups accumulate both clauses and both parameter lists |
| XapiQuery.JoinSqlPair | pyxapi/xapi.py:209 | joining two clauses puts the separator between them |
| XapiQuery.TwoTagGroupTexts | pyxapi/xapi.py:163 | `re.findall` finds the two bracket texts in order |
| XapiQuery.PubOrBarSplits | pyxapi/xapi.py:165-198 | the splits of the first example group on `=` and on the vertical bar |
| XapiQuery.AmenitySplit | pyxapi/xapi.py:165 | the first example group splits on `=` into `amenity` and its two bar-separated values |
| XapiQuery.PubBarSplit | pyxapi/xapi.py:198 | the two bar-separated values split on the vertical bar into `pub` and `bar` |
| XapiQuery.AmenityKeySplit | pyxapi/xapi.py:197 | `amenity` splits on the vertical bar into itself |
| XapiQuery.BboxAsWrittenNeverCompiles | pyxapi/xapi.py:172-193 | as written, no bbox group ever compiles: exactly the boxes the corrected clause accepts raise at line 191, and the others raise the same error in both |
| XapiQuery.UnitBoxExhibit | pyxapi/xapi.py:172-193 | `[bbox=0,0,1,1]`: as written it raises at line 191; corrected, it binds the ring 0 0, 0 1, 1 1, 1 0, 0 0 |
| XapiQuery.UnitBoxParses | pyxapi/xapi.py:173-176 | `0,0,1,1` parses to the unit box |
| XapiQuery.UnitBoxSplit | pyxapi/xapi.py:174 | `0,0,1,1` splits on `,` into four pieces |
| XapiQuery.UnitBoxRing | pyxapi/xapi.py:193 | the ring parameters of the unit box |
| XapiQuery.Product | pyxapi/xapi.py:199 | the product has m·n pairs for m keys and n values |
| XapiQuery.Row | pyxapi/xapi.py:199 | the pairs of one key, position j holding value j |
| XapiQuery.RingParams | pyxapi/xapi.py:193 | exactly ten parameters, the i-th being the i-th coordinate of the ring |
| XapiQuery.CompileAllAligned | pyxapi/xapi.py:164-209 | a group compiler whose clauses are aligned gives one clause per group and an aligned AND-join |
| XapiQuery.CompilerAligned | pyxapi/xapi.py:165-208 | the group compiler of `parse_xapi` is aligned on every group |
| Bbox.ParseBbox | pyxapi/xapi.py:173-176 | fails with 'Invalid bbox.' unless the value splits on `,` into exactly four pieces that all parse as floats; on success the box holds those four numbers in order left, bottom, right, top |
| Bbox.ParseAll | pyxapi/xapi.py:174 | all pieces convert exactly when each one does, and the results are in order |
| Bbox.ValidateBbox | pyxapi/xapi.py:178-189 | the checks pass exactly when the box is ordered and in range, and then return it unchanged |
| Bbox.FirstViolationWins | pyxapi/xapi.py:178-189 | a box fails exactly when some check is violated, and then with the message of the first violated check in the fixed order Left>Right, Bottom>Top, Bottom range, Top range, Left range, Right range |
| Bbox.RingCoordinates | pyxapi/xapi.py:193 | ten coordinates forming a closed ring from (left, bottom) back to (left, bottom); its first four corners are the box's four corners, and every edge is vertical or horizontal, so the ring goes round the box and does not cross itself |
| Decimal.ParseInt | pyxapi/xapi.py:166-171 | `int()` succeeds only on text with a digit |
| Decimal.ParseShowInt | pyxapi/xapi.py:166-171 | reading back a printed integer gives the integer |
| Decimal.ReadSigned | pyxapi/xapi.py:166-171 | reading the stripped text succeeds only when it contains a digit |
| Decimal.SurroundingSpaces | pyxapi/xapi.py:166-171 | whitespace before and after a digit string does not change the value read |
| Decimal.SignThenSpaces | pyxapi/xapi.py:166-171 | a sign, then whitespace, then digits, with whitespace around it all, reads as the signed value |
| Decimal.StripAround | pyxapi/xapi.py:166-171 | stripping removes exactly the whitespace around a text whose ends are not whitespace |
| Decimal.StripLeftSpaces | pyxapi/xapi.py:166-171 | left-stripping removes exactly a leading run of whitespace |
| Decimal.StripRightSpaces | pyxapi/xapi.py:166-171 | right-stripping removes exactly a trailing run of whitespace |
| Decimal.StripSigned | pyxapi/xapi.py:166-171 | stripping a signed number with whitespace around it leaves the sign, the inner whitespace and the digits |
| Decimal.Unstripped | pyxapi/xapi.py:166-171 | a text whose ends are not whitespace is left as it is by stripping |
| Decimal.ReadDigits | pyxapi/xapi.py:166-171 | an unsigned digit string reads as its value |
| Decimal.ReadSpacedSign | pyxapi/xapi.py:166-171 | a sign followed by whitespace and digits reads as the signed value |
| Decimal.AfterSpacedSign | pyxapi/xapi.py:166-171 | the whitespace after a sign is skipped |
| Decimal.SpacedMinus | pyxapi/xapi.py:166-171 | `- ` followed by digits reads as the negated value |
| Decimal.NoBreakSpace | pyxapi/xapi.py:166-171 | a leading U+00A0 counts as whitespace |
| Decimal.IdeographicSpace | pyxapi/xapi.py:166-171 | a trailing U+3000 counts as whitespace |
| Decimal.TrailingSign | pyxapi/xapi.py:166-171 | digits followed by ` -` are no integer |
| Decimal.ZeroWidthSpace | pyxapi/xapi.py:166-171 | a leading U+200B, which Python 2 does not count as a space, makes the text no integer |
| Decimal.StripShown | pyxapi/xapi.py:168 | a printed integer has no surrounding whitespace |
| Decimal.ShowNatDigits | pyxapi/xapi.py:168 | the digits of n are non-empty, ASCII and read back as n |
| Decimal.StripDigitsFromInside | pyxapi/xapi.py:168 | every character of the stripped text occurs in the original |
| Decimal.StripLeftIsSuffix | pyxapi/xapi.py:168 | stripping on the left leaves a suffix |
| Text.Split | pyxapi/xapi.py:165 | `str.split` gives at least one piece, none containing the separator |
| Text.JoinSplit | pyxapi/xapi.py:165 | joining the pieces of a split gives back the text |
| Text.SplitJoin | pyxapi/xapi.py:165 | splitting a join of separator-free pieces gives back the pieces |
| Text.SplitCount | pyxapi/xapi.py:165 | a text with n separators splits into n+1 pieces |
| Text.Groups | pyxapi/xapi.py:163 | the texts `re.findall` returns contain no `]` and no newline |
| Text.CloseAt | pyxapi/xapi.py:163 | the shortest match ends at the first `]` not preceded by a newline |
| Text.CloseAtFirst | pyxapi/xapi.py:163 | the first `]` with no newline before it closes the group |
| Text.GroupsOfBracketed | pyxapi/xapi.py:163 | bracketing texts without `]` or newline and finding the groups gives them back in order |
| Text.NoBracketNoGroups | pyxapi/xapi.py:163 | text without `[` has no groups |
| Closure.TempTables.BackfillWayNodes | pyxapi/xapi.py:115-127 | `bbox_nodes` becomes the old set plus the existing nodes referenced by matched ways; the row count is the number of new ids; ways and relations unchanged |
| Closure.TempTables.BackfillRelations | pyxapi/xapi.py:129-140 | `bbox_relations` becomes exactly the relations with an `N` member among the matched nodes or a `W` member among the matched ways; nodes and ways unchanged |
| Closure.TempTables.InsertParentRelations | pyxapi/xapi.py:145-152 | one pass adds exactly the outside relations with an `R` member inside, and reports how many |
| Closure.TempTables.BackfillParentRelations | pyxapi/xapi.py:143-155 | the passes end, even on cycles, with `bbox_relations` equal to `ParentClosure` of the seed and after `ParentPasses` passes |
| Closure.TempTables.CloseMap | pyxapi/xapi.py:298-300 | in `map`'s order: relations are the parent closure of the seeds from the spatially matched nodes and ways, and nodes are then backfilled from the matched ways |
| Closure.TempTables.constructor | pyxapi/xapi.py:287-296 | the tables as the spatial selections leave them |
| Closure.WayNodeRefs | pyxapi/xapi.py:117 | a node is referenced exactly when some matched way's `nodes` array contains it |
| Closure.NewParents | pyxapi/xapi.py:145-152 | a pass inserts only relations not yet present and of the store |
| Closure.ParentClosure | pyxapi/xapi.py:143-155 | the fixpoint contains the start, adds only store relations, and a further pass inserts nothing |
| Closure.ParentPasses | pyxapi/xapi.py:143-155 | the number of passes is at least one and at most one more than the relations outside the start |
| Closure.NoNewParentsIffClosed | pyxapi/xapi.py:153-155 | a pass inserts zero rows exactly when no outside relation has an `R` member inside |
| Closure.FewerOutside | pyxapi/xapi.py:143-155 | a pass that inserts rows leaves fewer relations outside: the termination measure |
| Closure.ParentClosureLeast | pyxapi/xapi.py:143-155 | the closure is inside every parent-closed superset of the start: nothing is added without cause |
| Closure.ParentClosureIdempotent | pyxapi/xapi.py:143-155 | running the backfill again changes nothing |
| Closure.ParentClosureMonotone | pyxapi/xapi.py:143-155 | a larger start gives a larger closure |
| Closure.ParentClosureStep | pyxapi/xapi.py:145-152 | a relation with an `R` member in the closure is in the closure |
| Closure.FirstPassInClosure | pyxapi/xapi.py:145-152 | the first pass's rows are in the closure |
| Closure.CyclePairClosed | pyxapi/xapi.py:143-155 | in the cycle example, {1, 2} is parent-closed |
| Closure.CycleCloses | pyxapi/xapi.py:143-155 | two relations containing each other: starting from one, the loop stops after two passes with both and without the unrelated third |
| Closure.WayNodesBackfilled | pyxapi/xapi.py:115-127 | afterwards every existing node a matched way references is matched |
| Closure.WayNodesLeast | pyxapi/xapi.py:115-127 | the backfill adds only store nodes, and only those some matched way references |
| Closure.WayNodesIdempotent | pyxapi/xapi.py:115-127 | the backfilled node set is a fixpoint: adding the referenced nodes of the same ways again adds nothing |
| Closure.SeedRelationsMembers | pyxapi/xapi.py:129-140 | a relation is seeded exactly when one of its members is an `N` in the matched nodes or a `W` in the matched ways |
| Closure.RelationMembersDoNotSeed | pyxapi/xapi.py:129-140 | a relation whose members are all `R` is never seeded |
| Closure.NodeBackfillComesLast | pyxapi/xapi.py:298-300 | a node pulled in for a matched way does not seed its relation in `map`, though seeding after the backfill would |
| Stream.StreamOsmData | pyxapi/xapi.py:11-92 | the yielded strings are exactly the texts of `Document` over the three tables |
| Stream.EmitNodes | pyxapi/xapi.py:16-30 | the node loop yields the elements of the ids in the order given |
| Stream.EmitWays | pyxapi/xapi.py:33-51 | the way loop yields the elements of the ids in the order given |
| Stream.EmitRelations | pyxapi/xapi.py:53-86 | the relation loop yields the elements of the ids in the order given |
| Stream.EmitNode | pyxapi/xapi.py:19-30 | one node row yields `NodeElement` |
| Stream.EmitWay | pyxapi/xapi.py:36-51 | one way row yields `WayElement` |
| Stream.EmitRelation | pyxapi/xapi.py:57-86 | one relation row yields `RelationElement` |
| Stream.EmitTags | pyxapi/xapi.py:25-26 | one `<tag>` line per tag, in order |
| Stream.EmitNds | pyxapi/xapi.py:46-47 | one `<nd>` line per entry of `nodes`, in order |
| Stream.EmitMembers | pyxapi/xapi.py:72-83 | one `<member>` line per member row in `sequence_id` order, with the type mapped |
| Stream.SortedIds | pyxapi/xapi.py:16-53 | `ORDER BY id`: every id of the table once, strictly ascending |
| Stream.Least | pyxapi/xapi.py:16 | the smallest id of a non-empty table |
| Stream.MinExists | pyxapi/xapi.py:16 | a non-empty table has a smallest id |
| Stream.InIdOrder | pyxapi/xapi.py:16-53 | the element of the k-th smallest id comes after the elements of all smaller ids and before those of all larger ones |
| Stream.DocumentFrame | pyxapi/xapi.py:13-89 | the document starts with the XML declaration and the `<osm>` header and ends with `</osm>`; in between are all nodes, then all ways, then all relations |
| Stream.NodeClosing | pyxapi/xapi.py:19-30 | a node is self-closed exactly when it has no tags; otherwise it opens, its children are exactly the tag lines of its tags, and it ends with `</node>` |
| Stream.WayClosing | pyxapi/xapi.py:36-51 | a way is self-closed exactly when it has neither tags nor `nd`s; otherwise it opens, its children are exactly its tag lines followed by its `nd` lines, and it ends with `</way>` |
| Stream.RelationClosing | pyxapi/xapi.py:57-86 | a relation is self-closed exactly when it has neither tags nor members; otherwise it opens, its children are exactly its tag lines followed by its member lines, and it ends with `</relation>` |
| Stream.MemberTypeNames | pyxapi/xapi.py:73-80 | `N`, `W`, `R` print as node, way, relation; any other code passes through unchanged; distinct codes print distinctly |
| Stream.TagLinesAt | pyxapi/xapi.py:25-26 | line i is the line of tag i |
| Stream.NdLinesAt | pyxapi/xapi.py:46-47 | line i refers to entry i of the way's `nodes` |
| Stream.MemberLinesAt | pyxapi/xapi.py:72-83 | line i is the line of member i |
| Stream.PartsAppend | pyxapi/xapi.py:16-61 | the elements of concatenated id lists concatenate |
| Stream.PartsMiddle | pyxapi/xapi.py:16-61 | an id's element sits between those of the ids before and after it |
| Stream.YieldedAppend | pyxapi/xapi.py:11-92 | the strings of concatenated fragments concatenate |
| Stream.YieldedAt | pyxapi/xapi.py:11-92 | string i is the text of fragment i |
| Stream.PairYielded | pyxapi/xapi.py:19-86 | a self-closed element yields its start tag and `/>` |
| Stream.ElementYielded | pyxapi/xapi.py:19-86 | an opened element yields its start, `>`, its children and its end tag |
| Stream.DocumentYielded | pyxapi/xapi.py:13-89 | the document yields the declaration, the header, the body and `</osm>` |
| Stream.BodyYielded | pyxapi/xapi.py:16-86 | the body yields the nodes, then the ways, then the relations |
| Stream.Framed | pyxapi/xapi.py:13-89 | a body framed by two leading and one trailing fragment |

## Left out

- Flask routing, HTTP responses and the static capabilities document are plumbing. This includes the 400/404 wrapping of `QueryError` and the undefined `left`/`bottom`/`right`/`top` in the `map` route.
- The psycopg2 connection, cursors, temp-table DDL, primary-key constraints, `ANALYZE`, `rollback` and `print` are not modelled. Each temporary table is the set of ids of the rows it copies.
- The spatial selections (`query_nodes`, `query_ways`, `query_relations`, PostGIS `ST_Intersects`) are not modelled. `TempTables` is constructed from their results.
- The stored function `unnest_bbox_way_nodes()` is not part of this model. `WayNodeRefs` assumes it yields every entry of the `nodes` array of every way in `bbox_ways`.
- Float parsing and float/timestamp formatting are not modelled. `floatOf` stands for `float()`, and coordinates and timestamps are the strings the serializer prints. `floatOf` yields only reals, never NaN or an infinity. In the source, `float('nan')` makes every comparison at xapi.py:178-189 false, so `[bbox=nan,0,1,1]` passes all six checks and reaches line 191. An infinite coordinate always fails one of the six checks, so it never reaches line 191. When the opposite side is finite, a +inf left or bottom, or a -inf right or top, trips an ordering check (`[bbox=inf,0,1,1]` raises 'Left > Right.'). Every other infinite coordinate trips a range check. The model represents neither value.
- `ParseInt` covers ASCII digits with a sign, and Unicode whitespace around the number and after the sign. Non-ASCII decimal digits such as U+0665, which Python 2's unicode `int()` also accepts, are rejected by the model.
- Tags arrive as a Python dict, so `iteritems()` prints them in the dict's iteration order. The model prints them in the order of the `Tags` sequence and does not fix that order.
- A NULL `tags` or `nodes` column is not modelled: the model's rows always carry sequences, and a missing column is an empty one. In the source, a NULL `tags` is `None`. A node, or a childless way or relation, skips the tag loop because of the `if tags` and `if tags or nds` tests, but `tags.iteritems()` raises `AttributeError` for a way with `nd`s or a relation with members (xapi.py:43 and xapi.py:69). Likewise a NULL `nodes` on a way with tags raises `TypeError` at xapi.py:46. These crashes are error paths the model drops.
- Generator laziness and streaming are not modelled: the output is the whole sequence of yielded strings.
- No XML escaping happens, which is faithful to the source. Keys, values and roles are printed as they are.
- Stream.MemberTypeName: a NULL member type would print as `None`. The model takes the code to be a character.

## Findings

| source | as written | input that shows it | evidently intended | confidence | as-written member | corrected member |
|---|---|---|---|---|---|---|
| pyxapi/xapi.py:191 | after the checks, `right.split(',')` is called on `right`, which line 174 rebound to a float, so it raises `AttributeError` | `[bbox=0,0,1,1]` | reuse the four numbers parsed at line 174 and bind the ring of the checked box | not executed | XapiQuery.BboxGroupAsWritten, XapiQuery.BboxAsWrittenNeverCompiles, XapiQuery.UnitBoxExhibit | XapiQuery.BboxGroup, XapiQuery.CompileSidesCases, XapiQuery.BboxGroupAligned |
