/** The schema rewriting as the program does it: on a tree of objects that are changed in place. A ghost picture
    of the tree, with the identity of every object, says what the objects stand for. */
module SchemaInPlace {
  import opened SchemaSanitizer

  /** A decoded JSON value: objects are references, the rest are values. */
  datatype Value = Atom(json: Json) | List(elems: seq<Value>) | Ref(node: Node)

  class Node {
    var fields: map<string, Value>

    constructor ()
      ensures fields == map[]
    {
      fields := map[];
    }
  }

  /** What stands below a value, object by object. */
  datatype Shape =
    | AtomShape(json: Json)
    | ListShape(parts: seq<Shape>)
    | NodeShape(node: Node, kids: map<string, Shape>)

  function ValueOf(s: Shape): Value {
    match s
    case AtomShape(j) => Atom(j)
    case ListShape(parts) => List(seq(|parts|, i requires 0 <= i < |parts| => ValueOf(parts[i])))
    case NodeShape(n, _) => Ref(n)
  }

  function JsonOf(s: Shape): Json {
    match s
    case AtomShape(j) => j
    case ListShape(parts) => Arr(seq(|parts|, i requires 0 <= i < |parts| => JsonOf(parts[i])))
    case NodeShape(_, kids) => Obj(map k | k in kids :: JsonOf(kids[k]))
  }

  ghost function Nodes(s: Shape): set<Node> {
    match s
    case AtomShape(_) => {}
    case ListShape(parts) => set i, x | 0 <= i < |parts| && x in Nodes(parts[i]) :: x
    case NodeShape(n, kids) => {n} + set k, x | k in kids && x in Nodes(kids[k]) :: x
  }

  /** Atoms are not objects or lists, and no object occurs twice. */
  ghost predicate Tree(s: Shape) {
    match s
    case AtomShape(j) => !j.Obj? && !j.Arr?
    case ListShape(parts) =>
      && (forall i | 0 <= i < |parts| :: Tree(parts[i]))
      && (forall i, j | 0 <= i < j < |parts| :: Nodes(parts[i]) !! Nodes(parts[j]))
    case NodeShape(n, kids) =>
      && (forall k | k in kids :: Tree(kids[k]) && n !in Nodes(kids[k]))
      && (forall k, l | k in kids && l in kids && k != l :: Nodes(kids[k]) !! Nodes(kids[l]))
  }

  /** The objects are as pictured. */
  ghost predicate Matches(s: Shape)
    reads Nodes(s)
    decreases s
  {
    match s
    case AtomShape(_) => true
    case ListShape(parts) => forall i | 0 <= i < |parts| :: Matches(parts[i])
    case NodeShape(n, kids) =>
      n.fields.Keys == kids.Keys && forall k | k in kids :: n.fields[k] == ValueOf(kids[k]) && Matches(kids[k])
  }

  /** The objects say what the picture of a value is: there is one at most. */
  lemma {:induction false} PictureIsUnique(s: Shape, t: Shape)
    requires Matches(s) && Matches(t) && ValueOf(s) == ValueOf(t)
    ensures s == t
    decreases s
  {
    match s
    case AtomShape(_) =>
    case ListShape(parts) =>
      assert |t.parts| == |parts|;
      forall i | 0 <= i < |parts|
        ensures parts[i] == t.parts[i]
      {
        assert ValueOf(s).elems[i] == ValueOf(t).elems[i];
        PictureIsUnique(parts[i], t.parts[i]);
      }
    case NodeShape(_, kids) =>
      forall k | k in kids
        ensures kids[k] == t.kids[k]
      {
        PictureIsUnique(kids[k], t.kids[k]);
      }
  }

  /** What a value stands for is read off the objects: an atom stands for itself, a list for the list of what its
      elements stand for, and an object has under its keys, and under no others, what it stands for there. */
  lemma ReadOffObjects(s: Shape)
    requires Matches(s)
    ensures match s
      case AtomShape(json) => ValueOf(s) == Atom(json) && JsonOf(s) == json
      case ListShape(parts) =>
        && ValueOf(s).List? && JsonOf(s).Arr? && |ValueOf(s).elems| == |JsonOf(s).elems| == |parts|
        && forall i | 0 <= i < |parts| ::
             ValueOf(s).elems[i] == ValueOf(parts[i]) && JsonOf(s).elems[i] == JsonOf(parts[i]) && Matches(parts[i])
      case NodeShape(node, kids) =>
        && ValueOf(s) == Ref(node) && JsonOf(s).Obj? && JsonOf(s).fields.Keys == node.fields.Keys == kids.Keys
        && forall k | k in kids ::
             node.fields[k] == ValueOf(kids[k]) && JsonOf(s).fields[k] == JsonOf(kids[k]) && Matches(kids[k])
  {
    hide Tree, Nodes;
  }

  // ---------------------------------------------------------------- families of subtrees

  ghost function NodesIn<K(!new)>(kids: map<K, Shape>): set<Node> {
    set k, x | k in kids && x in Nodes(kids[k]) :: x
  }

  ghost predicate Apart<K(!new)>(kids: map<K, Shape>) {
    forall k, l | k in kids && l in kids && k != l :: Nodes(kids[k]) !! Nodes(kids[l])
  }

  ghost predicate AllMatch<K(!new)>(kids: map<K, Shape>)
    reads NodesIn(kids)
  {
    forall k | k in kids :: Matches(kids[k])
  }

  /** A family on its way: some subtrees are exchanged, the rest are as they were, and no two share an object. */
  ghost predicate Split<K(!new)>(kids: map<K, Shape>, done: map<K, Shape>, rest: map<K, Shape>) {
    && done.Keys !! rest.Keys && done.Keys + rest.Keys == kids.Keys
    && (forall k | k in rest :: rest[k] == kids[k])
    && Apart(done) && Apart(rest) && NodesIn(done) !! NodesIn(rest)
  }

  lemma OneOut<K(!new)>(rest: map<K, Shape>, k: K)
    requires Apart(rest) && k in rest
    ensures Nodes(rest[k]) !! NodesIn(rest - {k}) && NodesIn(rest) == Nodes(rest[k]) + NodesIn(rest - {k})
    ensures AllMatch(rest) ==> Matches(rest[k]) && AllMatch(rest - {k})
  {
    hide Nodes, Matches;
    var less := rest - {k};
    forall x | x in NodesIn(rest)
      ensures x in Nodes(rest[k]) + NodesIn(less)
    {
      var l :| l in rest && x in Nodes(rest[l]);
      assert l != k ==> l in less && x in Nodes(less[l]);
    }
    forall x | x in Nodes(rest[k]) + NodesIn(less)
      ensures x in NodesIn(rest)
    {
      if x in NodesIn(less) {
        var l :| l in less && x in Nodes(less[l]);
        assert x in Nodes(rest[l]);
      }
    }
  }

  lemma OneIn<K(!new)>(done: map<K, Shape>, k: K, part: Shape)
    requires k !in done
    ensures NodesIn(done[k := part]) == NodesIn(done) + Nodes(part)
    ensures AllMatch(done) && Matches(part) ==> AllMatch(done[k := part])
    ensures Apart(done) && Nodes(part) !! NodesIn(done) ==> Apart(done[k := part])
  {
    hide Nodes, Matches;
    var done' := done[k := part];
    forall x | x in NodesIn(done')
      ensures x in NodesIn(done) + Nodes(part)
    {
      var l :| l in done' && x in Nodes(done'[l]);
      assert l != k ==> x in Nodes(done[l]);
    }
    forall x | x in NodesIn(done) + Nodes(part)
      ensures x in NodesIn(done')
    {
      if x in NodesIn(done) {
        var l :| l in done && x in Nodes(done[l]);
        assert x in Nodes(done'[l]);
      } else {
        assert x in Nodes(done'[k]);
      }
    }
  }

  /** One subtree is exchanged for one that holds only its own objects and new ones. */
  lemma SplitStep<K(!new)>(kids: map<K, Shape>, done: map<K, Shape>, rest: map<K, Shape>, k: K, part: Shape,
                           alive: set<Node>)
    requires Split(kids, done, rest) && k in rest
    requires NodesIn(done) + NodesIn(rest) <= alive && (Nodes(part) - Nodes(rest[k])) !! alive
    ensures Split(kids, done[k := part], rest - {k})
  {
    OneOut(rest, k);
    OneIn(done, k, part);
    hide Nodes, NodesIn;
  }

  // ---------------------------------------------------------------- the rewriting

  /** The picture after a pass stands for the rewritten schema, at the same reference. */
  ghost predicate Became(pass: Pass, s: Shape, s': Shape) {
    JsonOf(s') == Rewrite(pass, JsonOf(s)) && ValueOf(s') == ValueOf(s) && Tree(s')
  }

  ghost predicate BecameAt(pass: Pass, key: string, s: Shape, s': Shape) {
    JsonOf(s') == RewriteAt(pass, key, JsonOf(s)) && ValueOf(s') == ValueOf(s) && Tree(s')
  }

  function PartMap(parts: seq<Shape>): map<int, Shape> {
    map i | 0 <= i < |parts| :: parts[i]
  }

  lemma PartsAsFamily(parts: seq<Shape>)
    ensures Tree(ListShape(parts)) ==> Apart(PartMap(parts))
    ensures NodesIn(PartMap(parts)) == Nodes(ListShape(parts))
    ensures Matches(ListShape(parts)) <==> AllMatch(PartMap(parts))
    ensures Apart(PartMap(parts)) && (forall i | 0 <= i < |parts| :: Tree(parts[i])) ==> Tree(ListShape(parts))
  {
    var m := PartMap(parts);
    assert forall i | 0 <= i < |parts| :: i in m && m[i] == parts[i];
    forall x | x in Nodes(ListShape(parts))
      ensures x in NodesIn(m)
    {
      var i :| 0 <= i < |parts| && x in Nodes(parts[i]);
      assert i in m && x in Nodes(m[i]);
    }
  }

  /** A list of schemas became the list of what its schemas became. */
  lemma RewrittenList(pass: Pass, key: string, parts: seq<Shape>, parts': seq<Shape>)
    requires PositionOf(key) == SchemaList && |parts'| == |parts|
    requires forall i | 0 <= i < |parts| :: Became(pass, parts[i], parts'[i])
    ensures JsonOf(ListShape(parts')) == RewriteAt(pass, key, JsonOf(ListShape(parts)))
    ensures ValueOf(ListShape(parts')) == ValueOf(ListShape(parts))
  {
    hide Rewrite, Tree;
    var before, after := JsonOf(ListShape(parts)).elems, JsonOf(ListShape(parts')).elems;
    assert forall i | 0 <= i < |parts| :: after[i] == Rewrite(pass, before[i]);
    assert RewriteAt(pass, key, Arr(before)) == Arr(after);
  }

  lemma ListBecame(pass: Pass, key: string, parts: seq<Shape>, done: map<int, Shape>) returns (s': Shape)
    requires PositionOf(key) == SchemaList && Split(PartMap(parts), done, map[]) && Progress(pass, PartMap(parts), done)
    ensures BecameAt(pass, key, ListShape(parts), s') && Nodes(s') == NodesIn(done)
    ensures AllMatch(done) ==> Matches(s')
  {
    assert done.Keys == PartMap(parts).Keys;
    var parts' := seq(|parts|, i requires 0 <= i < |parts| => done[i]);
    s' := ListShape(parts');
    assert PartMap(parts') == done;
    PartsAsFamily(parts');
    hide Nodes, NodesIn, JsonOf, ValueOf, Tree, Rewrite, RewriteAt, PositionOf, Matches, AllMatch, Apart;
    forall i | 0 <= i < |parts|
      ensures Became(pass, parts[i], parts'[i]) && Tree(parts'[i])
    {
      assert i in done && Became(pass, PartMap(parts)[i], done[i]);
    }
    RewrittenList(pass, key, parts, parts');
  }

  /** An empty object ends the recursion: one that a pass has just made is no part of the schema it was given. */
  ghost function Rank(s: Shape): nat {
    if s.NodeShape? && s.kids == map[] then 0 else 1
  }

  /** One subschema, if it is an object. */
  method VisitOne(pass: Pass, v: Value, ghost s: Shape) returns (ghost s': Shape)
    requires Tree(s) && Matches(s) && ValueOf(s) == v
    modifies Nodes(s)
    ensures Became(pass, s, s') && Matches(s') && fresh(Nodes(s') - Nodes(s))
    decreases Rank(s), s, 1
  {
    if v.Ref? {
      s' := RewriteInPlace(pass, v.node, s);
    } else {
      s' := s;
    }
  }

  lemma {:induction false} NodesAllocated(s: Shape)
    ensures forall x | x in Nodes(s) :: allocated(x)
    decreases s
  {
    match s
    case AtomShape(_) =>
    case ListShape(parts) =>
      forall i | 0 <= i < |parts| {
        NodesAllocated(parts[i]);
      }
    case NodeShape(_, kids) =>
      forall k | k in kids {
        NodesAllocated(kids[k]);
      }
  }

  lemma FamilyAllocated<K(!new)>(kids: map<K, Shape>)
    ensures forall x | x in NodesIn(kids) :: allocated(x)
  {
    forall k | k in kids {
      NodesAllocated(kids[k]);
    }
  }

  /** The subtrees exchanged so far became what the pass makes of them. */
  ghost predicate Progress<K(!new)>(pass: Pass, kids: map<K, Shape>, done: map<K, Shape>) {
    forall k | k in done :: k in kids && Became(pass, kids[k], done[k])
  }

  lemma ProgressStep<K(!new)>(pass: Pass, kids: map<K, Shape>, done: map<K, Shape>, k: K, part: Shape)
    requires Progress(pass, kids, done) && k in kids && Became(pass, kids[k], part)
    ensures Progress(pass, kids, done[k := part])
  {
    hide Became;
  }

  /** What is known of a subtree that is still to be visited. */
  lemma SplitAt<K(!new)>(kids: map<K, Shape>, done: map<K, Shape>, rest: map<K, Shape>, k: K, base: set<Node>)
    requires Split(kids, done, rest) && k in rest && NodesIn(rest) <= base
    ensures k in kids && rest[k] == kids[k] && Nodes(kids[k]) <= base
    ensures NodesIn(done) !! Nodes(kids[k]) && NodesIn(rest - {k}) !! Nodes(kids[k]) && k !in done
    ensures NodesIn(rest) == Nodes(kids[k]) + NodesIn(rest - {k})
    ensures AllMatch(rest) ==> Matches(kids[k]) && AllMatch(rest - {k})
  {
    OneOut(rest, k);
    hide Nodes, NodesIn, Apart, AllMatch, Matches;
  }

  /** One subschema of a family; the others are not touched. */
  method VisitPart<K(!new)>(pass: Pass, v: Value, ghost k: K, ghost kids: map<K, Shape>,
                            ghost done: map<K, Shape>, ghost rest: map<K, Shape>, ghost base: set<Node>)
    returns (ghost done': map<K, Shape>, ghost rest': map<K, Shape>, ghost made: set<Node>)
    requires Split(kids, done, rest) && AllMatch(done) && AllMatch(rest) && Progress(pass, kids, done)
    requires k in rest && k in kids && Tree(kids[k]) && ValueOf(kids[k]) == v && NodesIn(rest) <= base
    modifies Nodes(kids[k])
    ensures Split(kids, done', rest') && AllMatch(done') && AllMatch(rest') && Progress(pass, kids, done')
    ensures done'.Keys == done.Keys + {k} && rest' == rest - {k}
    ensures NodesIn(rest') <= base && NodesIn(done') <= NodesIn(done) + base + made && fresh(made)
    decreases Rank(kids[k]), kids[k], 2
  {
    hide Apart, Became, Tree, Progress, Split, NodesIn;
    SplitAt(kids, done, rest, k, base);
    ghost var part := kids[k];
    rest' := rest - {k};
    ghost var alive: set<Node> := NodesIn(done) + NodesIn(rest);
    FamilyAllocated(done);
    FamilyAllocated(rest);
    assert forall x | x in alive :: allocated(x);
    ghost var part' := VisitOne(pass, v, part);
    assert AllMatch(done);
    assert AllMatch(rest');
    assert (Nodes(part') - Nodes(part)) !! alive;
    SplitStep(kids, done, rest, k, part', alive);
    OneIn(done, k, part');
    ProgressStep(pass, kids, done, k, part');
    done' := done[k := part'];
    made := Nodes(part') - Nodes(part);
  }

  /** A list of subschemas: its objects one after the other. */
  method VisitList(pass: Pass, key: string, elems: seq<Value>, ghost s: Shape) returns (ghost s': Shape)
    requires PositionOf(key) == SchemaList
    requires Tree(s) && Matches(s) && ValueOf(s) == List(elems)
    modifies Nodes(s)
    ensures BecameAt(pass, key, s, s') && Matches(s') && fresh(Nodes(s') - Nodes(s))
    decreases Rank(s), s, 2
  {
    hide Rewrite, RewriteAt, JsonOf, PositionOf, Became, Nodes, NodesIn, AllMatch, Apart, Matches, Tree, ValueOf;
    hide PartMap, Split, Progress;
    PartFacts(s, elems);
    ghost var kids := PartMap(s.parts);
    ghost var done: map<int, Shape> := map[];
    ghost var made: set<Node> := {};
    ghost var rest := kids;
    FamilyStart(pass, kids);
    for i := 0 to |elems|
      invariant Split(kids, done, rest) && AllMatch(done) && AllMatch(rest) && Progress(pass, kids, done)
      invariant forall j :: j in rest <==> i <= j < |elems|
      invariant fresh(made) && NodesIn(done) <= Nodes(s) + made && NodesIn(rest) <= Nodes(s)
    {
      SplitAt(kids, done, rest, i, Nodes(s));
      ghost var more: set<Node>;
      done, rest, more := VisitPart(pass, elems[i], i, kids, done, rest, Nodes(s));
      made := made + more;
    }
    assert rest == map[];
    s' := ListBecame(pass, key, s.parts, done);
    assert s == ListShape(s.parts);
  }

  lemma FamilyStart<K(!new)>(pass: Pass, kids: map<K, Shape>)
    requires Apart(kids)
    ensures Split(kids, map[], kids) && NodesIn<K>(map[]) == {} && AllMatch<K>(map[]) && Progress(pass, kids, map[])
  {
  }

  lemma PartFacts(s: Shape, elems: seq<Value>)
    requires Tree(s) && Matches(s) && ValueOf(s) == List(elems)
    ensures s.ListShape? && |s.parts| == |elems|
    ensures forall i | 0 <= i < |elems| :: Tree(s.parts[i]) && ValueOf(s.parts[i]) == elems[i]
    ensures Apart(PartMap(s.parts)) && AllMatch(PartMap(s.parts)) && NodesIn(PartMap(s.parts)) == Nodes(s)
    ensures forall i :: i in PartMap(s.parts) <==> 0 <= i < |elems|
    ensures forall i | 0 <= i < |elems| :: PartMap(s.parts)[i] == s.parts[i]
  {
    PartsAsFamily(s.parts);
    assert s == ListShape(s.parts);
    hide Nodes, NodesIn, Apart, AllMatch, Matches;
    forall i | 0 <= i < |elems|
      ensures ValueOf(s.parts[i]) == elems[i]
    {
      assert ValueOf(s).elems[i] == elems[i];
    }
  }

  lemma KidFacts(s: Shape)
    requires s.NodeShape? && Tree(s) && Matches(s)
    ensures Apart(s.kids) && AllMatch(s.kids) && s.node !in NodesIn(s.kids) && Nodes(s) == {s.node} + NodesIn(s.kids)
    ensures s.node.fields.Keys == s.kids.Keys
    ensures forall k | k in s.kids :: Tree(s.kids[k]) && s.node.fields[k] == ValueOf(s.kids[k])
  {
  }

  lemma KidsMatch(node: Node, kids: map<string, Shape>)
    requires AllMatch(kids) && node.fields.Keys == kids.Keys
    requires forall k | k in kids :: node.fields[k] == ValueOf(kids[k])
    ensures Matches(NodeShape(node, kids)) && Nodes(NodeShape(node, kids)) == {node} + NodesIn(kids)
  {
  }

  /** A subtree's objects are among its family's. */
  lemma InFamily<K(!new)>(kids: map<K, Shape>, k: K)
    requires k in kids
    ensures Nodes(kids[k]) <= NodesIn(kids)
  {
    hide Nodes;
  }

  lemma TreeAbove(node: Node, all: map<string, Shape>)
    requires Apart(all) && node !in NodesIn(all) && forall k | k in all :: Tree(all[k])
    ensures Tree(NodeShape(node, all)) && ValueOf(NodeShape(node, all)) == Ref(node)
  {
    hide Nodes;
    forall k | k in all
      ensures node !in Nodes(all[k])
    {
      InFamily(all, k);
    }
  }

  /** A map of schemas became the map of what its schemas became. */
  lemma RewrittenMap(pass: Pass, key: string, node: Node, kids: map<string, Shape>, done: map<string, Shape>)
    requires PositionOf(key) == SchemaMap && done.Keys == kids.Keys && Progress(pass, kids, done)
    ensures JsonOf(NodeShape(node, done)) == RewriteAt(pass, key, JsonOf(NodeShape(node, kids)))
  {
    hide Rewrite, Tree, ValueOf;
    var before, after := JsonOf(NodeShape(node, kids)).fields, JsonOf(NodeShape(node, done)).fields;
    assert forall k | k in kids :: Became(pass, kids[k], done[k]) && after[k] == Rewrite(pass, before[k]);
    assert RewriteAt(pass, key, Obj(before)) == Obj(after);
  }

  lemma MapBecame(pass: Pass, key: string, node: Node, kids: map<string, Shape>,
                  done: map<string, Shape>, rest: map<string, Shape>)
    requires PositionOf(key) == SchemaMap && Split(kids, done, rest) && rest.Keys == {} && node !in NodesIn(done)
    requires Progress(pass, kids, done)
    ensures BecameAt(pass, key, NodeShape(node, kids), NodeShape(node, done))
    ensures done.Keys == kids.Keys && forall k | k in kids :: ValueOf(done[k]) == ValueOf(kids[k])
  {
    assert forall k | k in kids :: Became(pass, kids[k], done[k]);
    assert ValueOf(NodeShape(node, kids)) == Ref(node);
    hide Rewrite, RewriteAt, PositionOf, JsonOf, ValueOf, Tree, Nodes, NodesIn, Apart;
    RewrittenMap(pass, key, node, kids, done);
    TreeAbove(node, done);
  }

  lemma MapFinished(pass: Pass, key: string, node: Node, s: Shape, done: map<string, Shape>, rest: map<string, Shape>)
    requires PositionOf(key) == SchemaMap && s.NodeShape? && s.node == node && node.fields.Keys == s.kids.Keys
    requires forall k | k in s.kids :: node.fields[k] == ValueOf(s.kids[k])
    requires Split(s.kids, done, rest) && rest.Keys == {} && Progress(pass, s.kids, done)
    requires AllMatch(done) && node !in NodesIn(done)
    ensures BecameAt(pass, key, s, NodeShape(node, done)) && Matches(NodeShape(node, done))
    ensures Nodes(NodeShape(node, done)) == {node} + NodesIn(done)
  {
    hide BecameAt, Nodes, NodesIn, Matches, Split, Progress, ValueOf, AllMatch;
    MapBecame(pass, key, node, s.kids, done, rest);
    KidsMatch(node, done);
    assert s == NodeShape(node, s.kids);
  }

  lemma NamedIsSmaller(s: Shape, k: string)
    requires s.NodeShape? && k in s.kids
    ensures Rank(s.kids[k]) <= Rank(s) && s.kids[k] < s
  {
  }

  /** A map of subschemas by name: its objects one after the other, in any order. */
  method VisitMap(pass: Pass, key: string, node: Node, ghost s: Shape) returns (ghost s': Shape)
    requires PositionOf(key) == SchemaMap
    requires s.NodeShape? && s.node == node && Tree(s) && Matches(s)
    modifies Nodes(s)
    ensures BecameAt(pass, key, s, s') && Matches(s') && fresh(Nodes(s') - Nodes(s))
    decreases Rank(s), s, 2
  {
    hide *;
    KidFacts(s);
    ghost var kids := s.kids;
    ghost var base := NodesIn(kids);
    ghost var done: map<string, Shape> := map[];
    ghost var made: set<Node> := {};
    ghost var rest := kids;
    FamilyStart(pass, kids);
    var fields := node.fields;
    var todo := fields.Keys;
    while todo != {}
      invariant node.fields == fields && todo <= kids.Keys
      invariant forall k :: k in rest <==> k in todo
      invariant Split(kids, done, rest) && AllMatch(done) && AllMatch(rest) && Progress(pass, kids, done)
      invariant fresh(made) && NodesIn(done) <= base + made && NodesIn(rest) <= base
      decreases todo
    {
      var name :| name in todo;
      SplitAt(kids, done, rest, name, base);
      NamedIsSmaller(s, name);
      ghost var more: set<Node>;
      done, rest, more := VisitPart(pass, fields[name], name, kids, done, rest, base);
      made := made + more;
      todo := todo - {name};
    }
    MapFinished(pass, key, node, s, done, rest);
    s' := NodeShape(node, done);
  }

  /** What stands at one keyword: a map of schemas, one schema, a list of schemas, or data that is left alone. */
  method VisitPosition(pass: Pass, key: string, v: Value, ghost s: Shape) returns (ghost s': Shape)
    requires Tree(s) && Matches(s) && ValueOf(s) == v
    modifies Nodes(s)
    ensures BecameAt(pass, key, s, s') && Matches(s') && fresh(Nodes(s') - Nodes(s))
    decreases Rank(s), s, 3
  {
    match PositionOf(key) {
      case SchemaMap =>
        if v.Ref? {
          s' := VisitMap(pass, key, v.node, s);
        } else {
          s' := s;
        }
      case OneSchema => s' := VisitOne(pass, v, s);
      case SchemaList =>
        if v.List? {
          s' := VisitList(pass, key, v.elems, s);
        } else {
          s' := s;
        }
      case PlainData => s' := s;
    }
  }

  ghost predicate ProgressAt(pass: Pass, kids: map<string, Shape>, done: map<string, Shape>) {
    forall k | k in done :: k in kids && BecameAt(pass, k, kids[k], done[k])
  }

  lemma ProgressAtStep(pass: Pass, kids: map<string, Shape>, done: map<string, Shape>, k: string, part: Shape)
    requires ProgressAt(pass, kids, done) && k in kids && BecameAt(pass, k, kids[k], part)
    ensures ProgressAt(pass, kids, done[k := part])
  {
    hide BecameAt;
  }

  /** One keyword of a schema object; what stands at the others is not touched. */
  method VisitKey(pass: Pass, key: string, v: Value, ghost kids: map<string, Shape>,
                  ghost done: map<string, Shape>, ghost rest: map<string, Shape>, ghost base: set<Node>)
    returns (ghost done': map<string, Shape>, ghost rest': map<string, Shape>, ghost made: set<Node>)
    requires Split(kids, done, rest) && AllMatch(done) && AllMatch(rest) && ProgressAt(pass, kids, done)
    requires key in rest && key in kids && Tree(kids[key]) && ValueOf(kids[key]) == v && NodesIn(rest) <= base
    modifies Nodes(kids[key])
    ensures Split(kids, done', rest') && AllMatch(done') && AllMatch(rest') && ProgressAt(pass, kids, done')
    ensures done'.Keys == done.Keys + {key} && rest' == rest - {key}
    ensures NodesIn(rest') <= base && NodesIn(done') <= NodesIn(done) + base + made && fresh(made)
    decreases Rank(kids[key]), kids[key], 4
  {
    hide Apart, BecameAt, Tree, ProgressAt, Split, NodesIn;
    SplitAt(kids, done, rest, key, base);
    ghost var part := kids[key];
    rest' := rest - {key};
    ghost var alive: set<Node> := NodesIn(done) + NodesIn(rest);
    FamilyAllocated(done);
    FamilyAllocated(rest);
    assert forall x | x in alive :: allocated(x);
    ghost var part' := VisitPosition(pass, key, v, part);
    assert AllMatch(done);
    assert AllMatch(rest');
    assert (Nodes(part') - Nodes(part)) !! alive;
    SplitStep(kids, done, rest, key, part', alive);
    OneIn(done, key, part');
    ProgressAtStep(pass, kids, done, key, part');
    done' := done[key := part'];
    made := Nodes(part') - Nodes(part);
  }

  /** schemaDeclaresArray on the objects. */
  predicate DeclaresArrayHere(fields: map<string, Value>) {
    && "type" in fields
    && match fields["type"] {
         case Atom(j) => j == Str("array")
         case List(elems) => Atom(Str("array")) in elems
         case Ref(_) => false
       }
  }

  lemma SaysArray(s: Shape)
    requires Tree(s)
    ensures ValueOf(s) == Atom(Str("array")) <==> JsonOf(s) == Str("array")
  {
  }

  lemma ListSaysArray(parts: seq<Shape>)
    requires Tree(ListShape(parts))
    ensures Atom(Str("array")) in ValueOf(ListShape(parts)).elems <==> Str("array") in JsonOf(ListShape(parts)).elems
  {
    var values, jsons := ValueOf(ListShape(parts)).elems, JsonOf(ListShape(parts)).elems;
    forall i | 0 <= i < |parts|
      ensures values[i] == Atom(Str("array")) <==> jsons[i] == Str("array")
    {
      SaysArray(parts[i]);
    }
    if Atom(Str("array")) in values {
      var i :| 0 <= i < |values| && values[i] == Atom(Str("array"));
      assert jsons[i] == Str("array");
    }
    if Str("array") in jsons {
      var i :| 0 <= i < |jsons| && jsons[i] == Str("array");
      assert values[i] == Atom(Str("array"));
    }
  }

  lemma DeclaresSame(fields: map<string, Value>, kids: map<string, Shape>, jsons: map<string, Json>)
    requires fields.Keys == kids.Keys == jsons.Keys
    requires forall k | k in kids :: fields[k] == ValueOf(kids[k]) && Tree(kids[k]) && jsons[k] == JsonOf(kids[k])
    ensures DeclaresArrayHere(fields) <==> DeclaresArray(jsons)
  {
    if "type" in kids {
      var kid := kids["type"];
      if kid.ListShape? {
        ListSaysArray(kid.parts);
      } else {
        SaysArray(kid);
      }
    }
  }

  lemma FewerKids(kids: map<string, Shape>, less: map<string, Shape>)
    requires less.Keys <= kids.Keys && forall k | k in less :: less[k] == kids[k]
    ensures NodesIn(less) <= NodesIn(kids) && (Apart(kids) ==> Apart(less)) && (AllMatch(kids) ==> AllMatch(less))
  {
    hide Nodes, Matches;
    forall x | x in NodesIn(less)
      ensures x in NodesIn(kids)
    {
      var k :| k in less && x in Nodes(less[k]);
      assert x in Nodes(kids[k]);
    }
  }

  lemma KeysOfJson(s: Shape)
    requires s.NodeShape?
    ensures JsonOf(s).Obj? && JsonOf(s).fields == map k | k in s.kids :: JsonOf(s.kids[k])
  {
  }

  /** What an object and its picture are between the local step of a pass and the visits. */
  ghost predicate Pictured(node: Node, kids: map<string, Shape>)
    reads node, NodesIn(kids)
  {
    && Apart(kids) && AllMatch(kids) && node !in NodesIn(kids) && node.fields.Keys == kids.Keys
    && forall k | k in kids :: Tree(kids[k]) && node.fields[k] == ValueOf(kids[k])
  }

  /** What a local step leaves below an object: what was there, and perhaps a new empty object. */
  ghost predicate Stepped(pass: Pass, s: Shape, kids: map<string, Shape>)
    requires s.NodeShape?
  {
    && kids.Keys == KeysAfter(pass, JsonOf(s).fields)
    && (forall k | k in kids && k in s.kids :: kids[k] == s.kids[k])
    && (forall k | k in kids && k !in s.kids :: s.kids != map[] && kids[k].NodeShape? && kids[k].kids == map[])
  }

  /** The local step of the first pass: the refused keys go. */
  method RemoveUnsupported(node: Node, ghost s: Shape) returns (ghost kids: map<string, Shape>)
    requires s.NodeShape? && s.node == node && Tree(s) && Matches(s)
    modifies node
    ensures Pictured(node, kids) && NodesIn(kids) <= NodesIn(s.kids)
    ensures Stepped(StripKeys, s, kids)
  {
    hide Nodes, NodesIn, Apart, Matches, Tree, ValueOf, JsonOf, Unsupported;
    KidFacts(s);
    KeysOfJson(s);
    kids := map k | k in s.kids && !Unsupported(k) :: s.kids[k];
    FewerKids(s.kids, kids);
    node.fields := map k | k in node.fields && !Unsupported(k) :: node.fields[k];
    assert AllMatch(s.kids);
    FewerKids(s.kids, kids);
  }

  /** A new empty object under `items`. */
  method AddItemsTo(node: Node, ghost kids: map<string, Shape>) returns (ghost items: Shape)
    requires Pictured(node, kids) && "items" !in kids
    modifies node
    ensures items.NodeShape? && items.kids == map[] && fresh(Nodes(items))
    ensures Pictured(node, kids["items" := items]) && NodesIn(kids["items" := items]) == NodesIn(kids) + Nodes(items)
  {
    hide Nodes, Apart, Tree, ValueOf, JsonOf;
    FamilyAllocated(kids);
    ghost var base := NodesIn(kids);
    var added := new Node();
    items := NodeShape(added, map[]);
    EmptyShape(added);
    node.fields := node.fields["items" := Ref(added)];
    assert AllMatch(kids);
    EmptyShape(added);
    OneIn(kids, "items", items);
  }

  lemma SteppedToItems(s: Shape, items: Shape)
    requires s.NodeShape? && items.NodeShape? && items.kids == map[]
    ensures var json := JsonOf(s).fields;
      if DeclaresArray(json) && "items" !in json then Stepped(AddItems, s, s.kids["items" := items])
      else Stepped(AddItems, s, s.kids)
  {
    KeysOfJson(s);
    hide JsonOf;
  }

  /** The local step of the second pass: an array without items gets a new empty one. */
  method AddMissingItems(node: Node, ghost s: Shape) returns (ghost kids: map<string, Shape>)
    requires s.NodeShape? && s.node == node && Tree(s) && Matches(s)
    modifies node
    ensures Pictured(node, kids) && fresh(NodesIn(kids) - NodesIn(s.kids)) && Stepped(AddItems, s, kids)
  {
    kids := s.kids;
    KidFacts(s);
    KeysOfJson(s);
    DeclaresSame(node.fields, s.kids, JsonOf(s).fields);
    hide Nodes, NodesIn, Apart, Tree, ValueOf, JsonOf, Matches, AllMatch, DeclaresArray, DeclaresArrayHere, Stepped;
    assert Pictured(node, kids);
    hide Pictured;
    if DeclaresArrayHere(node.fields) && "items" !in node.fields {
      ghost var items := AddItemsTo(node, kids);
      kids := kids["items" := items];
      SteppedToItems(s, items);
    } else {
      SteppedToItems(s, NodeShape(node, map[]));
    }
  }

  lemma EmptyShape(node: Node)
    ensures var s := NodeShape(node, map[]);
      && JsonOf(s) == Obj(map[]) && ValueOf(s) == Ref(node) && Tree(s)
      && Nodes(s) == {node} && (Matches(s) <==> node.fields == map[])
  {
  }

  lemma JoinedNodes(done: map<string, Shape>, rest: map<string, Shape>)
    requires done.Keys !! rest.Keys
    ensures NodesIn(done + rest) == NodesIn(done) + NodesIn(rest)
  {
    hide Nodes;
    var all := done + rest;
    forall k | k in done
      ensures Nodes(done[k]) <= NodesIn(all)
    {
      InFamily(all, k);
    }
    forall k | k in rest
      ensures Nodes(rest[k]) <= NodesIn(all)
    {
      InFamily(all, k);
    }
  }

  lemma Joined(kids: map<string, Shape>, done: map<string, Shape>, rest: map<string, Shape>)
    requires Split(kids, done, rest)
    ensures Apart(done + rest) && NodesIn(done + rest) == NodesIn(done) + NodesIn(rest)
    ensures AllMatch(done) && AllMatch(rest) ==> AllMatch(done + rest)
  {
    hide Nodes, Matches, NodesIn;
    var all := done + rest;
    forall k | k in done
      ensures all[k] == done[k] && Nodes(done[k]) <= NodesIn(done) && Nodes(done[k]) <= NodesIn(all)
    {
      InFamily(done, k);
      InFamily(all, k);
    }
    forall k | k in rest
      ensures all[k] == rest[k] && Nodes(rest[k]) <= NodesIn(rest) && Nodes(rest[k]) <= NodesIn(all)
    {
      InFamily(rest, k);
      InFamily(all, k);
    }
    JoinedNodes(done, rest);
  }

  /** What stands at one key after a pass. */
  ghost predicate KeyDone(pass: Pass, k: string, fields: map<string, Json>, kid: Shape, part: Shape) {
    && JsonOf(part) == (if k in fields then RewriteAt(pass, k, fields[k]) else Obj(map[]))
    && ValueOf(part) == ValueOf(kid) && Tree(part)
  }

  lemma KeyBecame(pass: Pass, s: Shape, kids: map<string, Shape>, k: string, part: Shape)
    requires s.NodeShape? && Stepped(pass, s, kids) && k in kids && Tree(kids[k])
    requires BecameAt(pass, k, kids[k], part) || (PositionOf(k) == PlainData && part == kids[k])
    ensures KeyDone(pass, k, JsonOf(s).fields, kids[k], part)
  {
  }

  lemma RewrittenJson(pass: Pass, fields: map<string, Json>, node: Node, all: map<string, Shape>)
    requires all.Keys == KeysAfter(pass, fields)
    requires forall k | k in all :: JsonOf(all[k]) == if k in fields then RewriteAt(pass, k, fields[k]) else Obj(map[])
    ensures JsonOf(NodeShape(node, all)) == Rewrite(pass, Obj(fields))
  {
    hide RewriteAt, KeysAfter;
    var before := map k | k in all :: JsonOf(all[k]);
    var after :=
      map k | k in KeysAfter(pass, fields) :: if k in fields then RewriteAt(pass, k, fields[k]) else Obj(map[]);
    assert before == after;
    assert JsonOf(NodeShape(node, all)) == Obj(before);
    assert Rewrite(pass, Obj(fields)) == Obj(after);
  }

  lemma NodeBecame(pass: Pass, s: Shape, kids: map<string, Shape>, all: map<string, Shape>)
    requires s.NodeShape? && Stepped(pass, s, kids) && all.Keys == kids.Keys
    requires Apart(all) && s.node !in NodesIn(all)
    requires forall k | k in kids :: KeyDone(pass, k, JsonOf(s).fields, kids[k], all[k])
    ensures Became(pass, s, NodeShape(s.node, all))
  {
    KeysOfJson(s);
    var fields := JsonOf(s).fields;
    assert ValueOf(s) == Ref(s.node);
    hide RewriteAt, Rewrite, KeysAfter, Nodes, NodesIn, Tree, JsonOf, ValueOf, Apart;
    RewrittenJson(pass, fields, s.node, all);
    TreeAbove(s.node, all);
  }

  /** The keys under which schemas stand, in the order they are visited. */
  function Visited(): (keys: seq<string>)
    ensures forall key :: PositionOf(key) != PlainData <==> key in keys
    ensures forall i, j | 0 <= i < j < |keys| :: keys[i] != keys[j]
  {
    ["properties", "items", "allOf", "anyOf", "oneOf", "additionalProperties", "$defs"]
  }

  method LocalStep(pass: Pass, node: Node, ghost s: Shape) returns (ghost kids: map<string, Shape>)
    requires s.NodeShape? && s.node == node && Tree(s) && Matches(s)
    modifies node
    ensures Pictured(node, kids) && fresh(NodesIn(kids) - NodesIn(s.kids)) && Stepped(pass, s, kids)
  {
    if pass == StripKeys {
      kids := RemoveUnsupported(node, s);
    } else {
      kids := AddMissingItems(node, s);
    }
  }

  lemma Finished(pass: Pass, node: Node, s: Shape, kids: map<string, Shape>,
                 done: map<string, Shape>, rest: map<string, Shape>)
    requires s.NodeShape? && s.node == node && Stepped(pass, s, kids)
    requires node.fields.Keys == kids.Keys
    requires forall k | k in kids :: Tree(kids[k]) && node.fields[k] == ValueOf(kids[k])
    requires Split(kids, done, rest) && AllMatch(done) && AllMatch(rest) && ProgressAt(pass, kids, done)
    requires node !in NodesIn(done) && node !in NodesIn(rest) && forall k | k in rest :: PositionOf(k) == PlainData
    ensures Became(pass, s, NodeShape(node, done + rest)) && Matches(NodeShape(node, done + rest))
    ensures Nodes(NodeShape(node, done + rest)) == {node} + NodesIn(done) + NodesIn(rest)
  {
    hide Stepped, NodesIn, Apart, AllMatch, Became, BecameAt, Matches, Nodes, Tree, ValueOf, JsonOf, PositionOf;
    Joined(kids, done, rest);
    KeysOfJson(s);
    var all := done + rest;
    forall k | k in kids
      ensures KeyDone(pass, k, JsonOf(s).fields, kids[k], all[k])
    {
      KeyBecame(pass, s, kids, k, all[k]);
    }
    NodeBecame(pass, s, kids, all);
    KidsMatch(node, all);
  }

  lemma KidIsSmaller(pass: Pass, s: Shape, kids: map<string, Shape>, k: string)
    requires s.NodeShape? && Stepped(pass, s, kids) && k in kids
    ensures Rank(kids[k]) < Rank(s) || (Rank(kids[k]) == Rank(s) && kids[k] < s)
  {
    assert k in s.kids ==> kids[k] == s.kids[k] && s.kids[k] < s;
  }

  lemma FamilyStartAt(pass: Pass, node: Node, kids: map<string, Shape>)
    requires Pictured(node, kids)
    ensures Split(kids, map[], kids) && ProgressAt(pass, kids, map[])
    ensures NodesIn<string>(map[]) == {} && AllMatch<string>(map[])
    ensures AllMatch(kids) && node !in NodesIn(kids) && node.fields.Keys == kids.Keys
    ensures forall k | k in kids :: Tree(kids[k]) && node.fields[k] == ValueOf(kids[k])
  {
  }

  /** stripUnsupportedSchemaKeys and ensureArrayItems: the local step, then every position below. */
  method RewriteInPlace(pass: Pass, node: Node, ghost s: Shape) returns (ghost s': Shape)
    requires s.NodeShape? && s.node == node && Tree(s) && Matches(s)
    modifies Nodes(s)
    ensures Became(pass, s, s') && Matches(s') && fresh(Nodes(s') - Nodes(s))
    decreases Rank(s), s, 0
  {
    hide Rewrite, RewriteAt, JsonOf, PositionOf, Became, Nodes, NodesIn, AllMatch, Apart, Matches, Tree, ValueOf;
    hide Split, ProgressAt, Visited, Stepped, Pictured, Rank;
    KidFacts(s);
    ghost var kids := LocalStep(pass, node, s);
    ghost var base := NodesIn(kids);
    ghost var done: map<string, Shape> := map[];
    ghost var made: set<Node> := {};
    ghost var rest := kids;
    FamilyStartAt(pass, node, kids);
    var keys := Visited();
    var fields := node.fields;
    for i := 0 to |keys|
      invariant node.fields == fields
      invariant Split(kids, done, rest) && AllMatch(done) && AllMatch(rest) && ProgressAt(pass, kids, done)
      invariant forall j | i <= j < |keys| :: keys[j] in kids ==> keys[j] in rest
      invariant forall j | 0 <= j < i :: keys[j] !in rest
      invariant rest.Keys <= kids.Keys
      invariant fresh(made) && NodesIn(done) <= base + made && NodesIn(rest) <= base
    {
      var key := keys[i];
      if key in fields {
        SplitAt(kids, done, rest, key, base);
        KidIsSmaller(pass, s, kids, key);
        ghost var more: set<Node>;
        done, rest, more := VisitKey(pass, key, fields[key], kids, done, rest, base);
        made := made + more;
      }
    }
    assert forall k | k in rest :: PositionOf(k) == PlainData;
    Finished(pass, node, s, kids, done, rest);
    s' := NodeShape(node, done + rest);
  }

  /** sanitizeSchemaForUpstream on the program's own objects: what they stand for afterwards is the sanitised
      schema, at the same reference. */
  method SanitizeInPlace(node: Node, ghost s: Shape) returns (ghost s': Shape)
    requires s.NodeShape? && s.node == node && Tree(s) && Matches(s)
    modifies Nodes(s)
    ensures JsonOf(s') == Sanitize(JsonOf(s)) && ValueOf(s') == Ref(node)
    ensures Tree(s') && Matches(s') && fresh(Nodes(s') - Nodes(s))
  {
    hide Rewrite, Tree, Nodes, JsonOf, Matches;
    s' := RewriteInPlace(StripKeys, node, s);
    s' := RewriteInPlace(AddItems, node, s');
  }
}
