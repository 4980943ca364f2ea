/** Normalization of Go values that share and nest maps and slices through references. A value that
    contains itself is refused, one that only shares parts is not. */
module PlainGraphs {
  import opened GoValues
  import opened Wrappers
  import C = Codec

  /** What a field or element holds: a value without parts, or a reference to a map or slice. */
  datatype Item = Leaf(v: Value) | Ref(id: nat)

  /** The maps and slices by their addresses. Slices have backing arrays of their own. */
  datatype Node = MapNode(fields: map<GoString, Item>) | SliceNode(items: seq<Item>)

  type Graph = map<nat, Node>

  predicate Child(node: Node, item: Item) {
    match node
    case MapNode(fields) => item in fields.Values
    case SliceNode(items) => item in items
  }

  /** Every reference that the item or a node holds is to a node. */
  ghost predicate Closed(g: Graph, item: Item) {
    && (item.Ref? ==> item.id in g)
    && forall id, child | id in g && Child(g[id], child) && child.Ref? :: child.id in g
  }

  lemma FieldIsChild(fields: map<GoString, Item>, k: GoString)
    requires k in fields
    ensures Child(MapNode(fields), fields[k])
  {
  }

  // ---------- what the references stand for ----------

  /** The value that the item stands for, if its references end within `depth`. */
  ghost function Tree(g: Graph, item: Item, depth: nat): Option<Value>
    requires Closed(g, item)
    decreases depth
  {
    match item
    case Leaf(v) => Some(v)
    case Ref(id) =>
      if depth == 0 then None
      else match g[id]
        case MapNode(fields) =>
          if forall k | k in fields :: FieldIsChild(fields, k); Tree(g, fields[k], depth - 1).Some? then
            Some(Object(map k | k in fields :: (FieldIsChild(fields, k); Tree(g, fields[k], depth - 1).value)))
          else None
        case SliceNode(items) =>
          if forall i | 0 <= i < |items| :: Tree(g, items[i], depth - 1).Some? then
            Some(List(seq(|items|, i requires 0 <= i < |items| => Tree(g, items[i], depth - 1).value)))
          else None
  }

  /** `to` is reached from node `from` by `n` references. */
  ghost predicate Path(g: Graph, from: nat, to: Item, n: nat)
    decreases n
  {
    if n == 0 then to == Ref(from)
    else exists mid | mid in g :: Path(g, from, Ref(mid), n - 1) && Child(g[mid], to)
  }

  /** No node that is reached from the item is reached from itself. */
  ghost predicate NoCycle(g: Graph, item: Item) {
    item.Ref? ==> forall a: nat, m: nat, n: nat | Path(g, item.id, Ref(a), m) && Path(g, a, Ref(a), n) :: n == 0
  }

  lemma ChildTree(g: Graph, id: nat, child: Item, depth: nat)
    requires Closed(g, Ref(id)) && Child(g[id], child) && Tree(g, Ref(id), depth).Some?
    ensures depth > 0 && Closed(g, child) && Tree(g, child, depth - 1).Some?
  {
    match g[id]
    case MapNode(fields) =>
      var k :| k in fields && fields[k] == child;
    case SliceNode(items) =>
      var i :| 0 <= i < |items| && items[i] == child;
  }

  lemma {:induction false} PathTree(g: Graph, from: nat, to: Item, n: nat, depth: nat)
    requires Closed(g, Ref(from)) && Path(g, from, to, n) && Tree(g, Ref(from), depth).Some?
    ensures n <= depth && Closed(g, to) && Tree(g, to, depth - n).Some?
    decreases n
  {
    if n > 0 {
      var mid :| mid in g && Path(g, from, Ref(mid), n - 1) && Child(g[mid], to);
      PathTree(g, from, Ref(mid), n - 1, depth);
      ChildTree(g, mid, to, depth - (n - 1));
    }
  }

  /** What contains itself stands for no value. */
  lemma {:induction false} CycleHasNoTree(g: Graph, id: nat, n: nat, depth: nat)
    requires Closed(g, Ref(id)) && n > 0 && Path(g, id, Ref(id), n)
    ensures Tree(g, Ref(id), depth).None?
    decreases depth
  {
    if Tree(g, Ref(id), depth).Some? {
      PathTree(g, id, Ref(id), n, depth);
      CycleHasNoTree(g, id, n, depth - n);
    }
  }

  /** Each node in `seen` reaches the item by at least one reference. */
  ghost predicate OnPath(g: Graph, seen: set<nat>, item: Item) {
    forall a | a in seen :: exists n: nat :: n > 0 && Path(g, a, item, n)
  }

  lemma ChildOnPath(g: Graph, seen: set<nat>, id: nat, child: Item)
    requires id in g && OnPath(g, seen, Ref(id)) && Child(g[id], child)
    ensures OnPath(g, seen + {id}, child)
  {
    forall a | a in seen + {id} ensures exists n: nat :: n > 0 && Path(g, a, child, n) {
      if a == id {
        assert Path(g, id, Ref(id), 0);
        assert Path(g, id, child, 1);
      } else {
        var n: nat :| n > 0 && Path(g, a, Ref(id), n);
        assert Path(g, a, child, n + 1);
      }
    }
  }

  /** A deeper look finds the same value. */
  lemma {:induction false} TreeStays(g: Graph, item: Item, depth: nat, more: nat)
    requires Closed(g, item) && depth <= more && Tree(g, item, depth).Some?
    ensures Tree(g, item, more) == Tree(g, item, depth)
    decreases depth
  {
    if item.Ref? {
      match g[item.id]
      case MapNode(fields) =>
        forall k | k in fields ensures Tree(g, fields[k], more - 1) == Tree(g, fields[k], depth - 1) {
          FieldIsChild(fields, k);
          TreeStays(g, fields[k], depth - 1, more - 1);
        }
        assert Tree(g, item, more).value.fields == Tree(g, item, depth).value.fields;
      case SliceNode(items) =>
        forall i | 0 <= i < |items| ensures Tree(g, items[i], more - 1) == Tree(g, items[i], depth - 1) {
          TreeStays(g, items[i], depth - 1, more - 1);
        }
        assert Tree(g, item, more).value.items == Tree(g, item, depth).value.items;
    }
  }

  // ---------- plainValue ----------

  /** The result is the normalization of the value that the item stands for, and an error if it stands
      for none. */
  ghost predicate Settles(g: Graph, item: Item, r: Result<Value>)
    requires Closed(g, item)
  {
    && (r.Ok? ==> exists depth: nat :: Tree(g, item, depth).Some?)
    && (forall depth: nat | Tree(g, item, depth).Some? :: r == Plain(Tree(g, item, depth).value))
  }

  lemma SettlesAt(g: Graph, item: Item, depth: nat, r: Result<Value>)
    requires Closed(g, item) && Tree(g, item, depth).Some? && r == Plain(Tree(g, item, depth).value)
    ensures Settles(g, item, r)
  {
    forall other: nat | Tree(g, item, other).Some? ensures r == Plain(Tree(g, item, other).value) {
      if other <= depth {
        TreeStays(g, item, other, depth);
      } else {
        TreeStays(g, item, depth, other);
      }
    }
  }

  /** A part that cannot be normalized spoils the whole. */
  lemma ChildFails(g: Graph, id: nat, child: Item)
    requires Closed(g, Ref(id)) && Child(g[id], child) && Closed(g, child) && Settles(g, child, Err)
    ensures Settles(g, Ref(id), Err)
  {
    forall depth: nat | Tree(g, Ref(id), depth).Some? ensures Plain(Tree(g, Ref(id), depth).value).Err? {
      ChildTree(g, id, child, depth);
      assert Plain(Tree(g, child, depth - 1).value).Err?;
      match g[id]
      case MapNode(fields) =>
        var k :| k in fields && fields[k] == child;
        var tree := Tree(g, Ref(id), depth).value.fields;
        assert k in tree && Plain(tree[k]).Err?;
      case SliceNode(items) =>
        var i :| 0 <= i < |items| && items[i] == child;
        var tree := Tree(g, Ref(id), depth).value.items;
        assert tree[i] in tree && Plain(tree[i]).Err?;
    }
  }

  /** The map of visited addresses. */
  class Visits {
    var seen: set<nat>

    constructor ()
      ensures seen == {}
    {
      seen := {};
    }
  }

  /** A part of a node is normalized with the node itself visited. */
  ghost predicate Inside(g: Graph, before: set<nat>, id: nat, seen: set<nat>) {
    Closed(g, Ref(id)) && before <= g.Keys && id !in before && seen == before + {id} && OnPath(g, before, Ref(id))
  }

  method PlainItem(g: Graph, visits: Visits, item: Item) returns (r: Result<Value>)
    requires Closed(g, item) && visits.seen <= g.Keys && OnPath(g, visits.seen, item)
    modifies visits
    ensures visits.seen == old(visits.seen)
    ensures Settles(g, item, r)
    decreases |g.Keys - visits.seen|, 2
  {
    match item
    case Leaf(v) =>
      r := C.PlainValue(v);
      SettlesAt(g, item, 0, r);
    case Ref(id) =>
      if id in visits.seen {
        SeenHasNoTree(g, visits.seen, id);
        return Err;
      }
      ghost var before := visits.seen;
      visits.seen := visits.seen + {id};
      FewerLeft(g, before, id);
      match g[id] {
        case MapNode(_) => r := PlainMapNode(g, visits, id, before);
        case SliceNode(_) => r := PlainSliceNode(g, visits, id, before);
      }
      visits.seen := visits.seen - {id};
      assert visits.seen == before;
  }

  method PlainMapNode(g: Graph, visits: Visits, id: nat, ghost before: set<nat>) returns (r: Result<Value>)
    requires Inside(g, before, id, visits.seen) && g[id].MapNode?
    modifies visits
    ensures visits.seen == old(visits.seen)
    ensures Settles(g, Ref(id), r)
    decreases |g.Keys - visits.seen|, 3
  {
    hide Tree, Plain, Path;
    var fields := g[id].fields;
    var result: map<GoString, Value> := map[];
    var left := fields.Keys;
    ghost var depth: nat := 0;
    while left != {}
      invariant left <= fields.Keys && result.Keys == fields.Keys - left
      invariant visits.seen == old(visits.seen)
      invariant forall k | k in result :: Done(g, fields[k], depth, result[k])
      decreases left
      modifies visits
    {
      var k :| k in left;
      FieldIsChild(fields, k);
      ChildOnPath(g, before, id, fields[k]);
      var plain := PlainItem(g, visits, fields[k]);
      if plain.Err? {
        ChildFails(g, id, fields[k]);
        return Err;
      }
      ghost var d: nat :| Tree(g, fields[k], d).Some?;
      forall j | j in result ensures Done(g, fields[j], depth + d, result[j]) {
        DoneStays(g, fields[j], depth, depth + d, result[j]);
      }
      DoneAt(g, fields[k], d, depth + d, plain.value);
      depth := depth + d;
      result := result[k := plain.value];
      left := left - {k};
    }
    MapDone(g, id, depth, result);
    return Ok(Object(result));
  }

  method PlainSliceNode(g: Graph, visits: Visits, id: nat, ghost before: set<nat>) returns (r: Result<Value>)
    requires Inside(g, before, id, visits.seen) && g[id].SliceNode?
    modifies visits
    ensures visits.seen == old(visits.seen)
    ensures Settles(g, Ref(id), r)
    decreases |g.Keys - visits.seen|, 3
  {
    hide Tree, Plain, Path;
    var items := g[id].items;
    var result: seq<Value> := [];
    ghost var depth: nat := 0;
    while |result| < |items|
      invariant |result| <= |items|
      invariant visits.seen == old(visits.seen)
      invariant forall i | 0 <= i < |result| :: Done(g, items[i], depth, result[i])
      modifies visits
    {
      var item := items[|result|];
      ChildOnPath(g, before, id, item);
      var plain := PlainItem(g, visits, item);
      if plain.Err? {
        ChildFails(g, id, item);
        return Err;
      }
      ghost var d: nat :| Tree(g, item, d).Some?;
      forall i | 0 <= i < |result| ensures Done(g, items[i], depth + d, result[i]) {
        DoneStays(g, items[i], depth, depth + d, result[i]);
      }
      DoneAt(g, item, d, depth + d, plain.value);
      depth := depth + d;
      result := result + [plain.value];
    }
    SliceDone(g, id, depth, result);
    return Ok(List(result));
  }

  /** The part stands for a value within the depth, and this is its normalization. */
  ghost predicate Done(g: Graph, item: Item, depth: nat, v: Value) {
    Closed(g, item) && Tree(g, item, depth).Some? && Plain(Tree(g, item, depth).value) == Ok(v)
  }

  lemma DoneStays(g: Graph, item: Item, depth: nat, more: nat, v: Value)
    requires Done(g, item, depth, v) && depth <= more
    ensures Done(g, item, more, v)
  {
    TreeStays(g, item, depth, more);
  }

  lemma DoneAt(g: Graph, item: Item, depth: nat, more: nat, v: Value)
    requires Closed(g, item) && Settles(g, item, Ok(v)) && Tree(g, item, depth).Some? && depth <= more
    ensures Done(g, item, more, v)
  {
    TreeStays(g, item, depth, more);
  }

  /** A map whose fields all stand for values stands for the map of those. */
  lemma TreeOfMap(g: Graph, id: nat, depth: nat) returns (tree: map<GoString, Value>)
    requires Closed(g, Ref(id)) && g[id].MapNode?
    requires forall k | k in g[id].fields :: Closed(g, g[id].fields[k]) && Tree(g, g[id].fields[k], depth).Some?
    ensures Tree(g, Ref(id), depth + 1) == Some(Object(tree)) && tree.Keys == g[id].fields.Keys
    ensures forall k | k in tree :: tree[k] == Tree(g, g[id].fields[k], depth).value
  {
    tree := Tree(g, Ref(id), depth + 1).value.fields;
  }

  lemma MapDone(g: Graph, id: nat, depth: nat, result: map<GoString, Value>)
    requires Closed(g, Ref(id)) && g[id].MapNode? && result.Keys == g[id].fields.Keys
    requires forall k | k in result :: Done(g, g[id].fields[k], depth, result[k])
    ensures Settles(g, Ref(id), Ok(Object(result)))
  {
    hide Tree, Plain;
    var fields := g[id].fields;
    forall k | k in fields ensures Closed(g, fields[k]) && Tree(g, fields[k], depth).Some? {
      assert Done(g, fields[k], depth, result[k]);
    }
    var tree := TreeOfMap(g, id, depth);
    forall k | k in tree ensures Plain(tree[k]) == Ok(result[k]) {
      assert Done(g, fields[k], depth, result[k]);
    }
    PlainObject(tree, result);
    SettlesAt(g, Ref(id), depth + 1, Ok(Object(result)));
  }

  lemma SliceDone(g: Graph, id: nat, depth: nat, result: seq<Value>)
    requires Closed(g, Ref(id)) && g[id].SliceNode? && |result| == |g[id].items|
    requires forall i | 0 <= i < |result| :: Done(g, g[id].items[i], depth, result[i])
    ensures Settles(g, Ref(id), Ok(List(result)))
  {
    var items := g[id].items;
    forall i | 0 <= i < |items| ensures Closed(g, items[i]) && Tree(g, items[i], depth).Some? {
      assert Done(g, items[i], depth, result[i]);
    }
    var tree := Tree(g, Ref(id), depth + 1).value.items;
    forall i | 0 <= i < |tree| ensures Plain(tree[i]) == Ok(result[i]) {
      assert Done(g, items[i], depth, result[i]);
    }
    PlainList(tree, result);
    SettlesAt(g, Ref(id), depth + 1, Ok(List(result)));
  }

  lemma SeenHasNoTree(g: Graph, seen: set<nat>, id: nat)
    requires Closed(g, Ref(id)) && id in seen && OnPath(g, seen, Ref(id))
    ensures Settles(g, Ref(id), Err)
  {
    var n: nat :| n > 0 && Path(g, id, Ref(id), n);
    forall depth: nat ensures Tree(g, Ref(id), depth).None? {
      CycleHasNoTree(g, id, n, depth);
    }
  }

  lemma FewerLeft(g: Graph, before: set<nat>, id: nat)
    requires id in g && id !in before
    ensures |g.Keys - (before + {id})| < |g.Keys - before|
  {
    assert g.Keys - before == (g.Keys - (before + {id})) + {id};
  }

  // ---------- cycles ----------

  lemma {:induction false} PathOn(g: Graph, a: nat, b: nat, m: nat, to: Item, n: nat)
    requires b in g && Path(g, a, Ref(b), m) && Path(g, b, to, n)
    ensures Path(g, a, to, m + n)
    decreases n
  {
    if n > 0 {
      var mid :| mid in g && Path(g, b, Ref(mid), n - 1) && Child(g[mid], to);
      PathOn(g, a, b, m, Ref(mid), n - 1);
    }
  }

  lemma ChildNoCycle(g: Graph, id: nat, child: Item)
    requires id in g && Closed(g, Ref(id)) && NoCycle(g, Ref(id)) && Child(g[id], child)
    ensures NoCycle(g, child)
  {
    if child.Ref? {
      assert Path(g, id, Ref(id), 0);
      assert Path(g, id, child, 1);
      forall a: nat, m: nat, n: nat | Path(g, child.id, Ref(a), m) && Path(g, a, Ref(a), n) ensures n == 0 {
        PathOn(g, id, child.id, 1, Ref(a), m);
      }
    }
  }

  lemma OnlyTrivialCycles(g: Graph, id: nat, n: nat)
    requires NoCycle(g, Ref(id)) && Path(g, id, Ref(id), n)
    ensures n == 0
  {
    assert Path(g, id, Ref(id), 0);
  }

  lemma NotSeen(g: Graph, seen: set<nat>, id: nat)
    requires NoCycle(g, Ref(id)) && OnPath(g, seen, Ref(id))
    ensures id !in seen
  {
    hide NoCycle, Path;
    if id in seen {
      var n: nat :| n > 0 && Path(g, id, Ref(id), n);
      OnlyTrivialCycles(g, id, n);
    }
  }

  lemma PartsEnd(g: Graph, id: nat, depth: nat)
    requires Closed(g, Ref(id))
    requires forall child | Child(g[id], child) :: Closed(g, child) && Tree(g, child, depth).Some?
    ensures Tree(g, Ref(id), depth + 1).Some?
  {
    match g[id]
    case MapNode(fields) =>
      forall k | k in fields ensures Tree(g, fields[k], depth).Some? {
        FieldIsChild(fields, k);
      }
    case SliceNode(items) =>
      forall i | 0 <= i < |items| ensures Tree(g, items[i], depth).Some? {
        assert Child(g[id], items[i]);
      }
  }

  /** Without a cycle the references end within as many steps as there are nodes not yet passed. */
  lemma {:induction false} EndsWithin(g: Graph, item: Item, seen: set<nat>)
    requires Closed(g, item) && NoCycle(g, item) && seen <= g.Keys && OnPath(g, seen, item)
    ensures Tree(g, item, |g.Keys - seen| + 1).Some?
    decreases |g.Keys - seen|, 1
  {
    hide OnPath, NoCycle;
    if item.Ref? {
      NodeEndsWithin(g, item.id, seen);
    }
  }

  lemma {:induction false} NodeEndsWithin(g: Graph, id: nat, seen: set<nat>)
    requires Closed(g, Ref(id)) && NoCycle(g, Ref(id)) && seen <= g.Keys && OnPath(g, seen, Ref(id))
    ensures Tree(g, Ref(id), |g.Keys - seen| + 1).Some?
    decreases |g.Keys - seen|, 0
  {
    hide Tree, Path, NoCycle, OnPath;
    NotSeen(g, seen, id);
    FewerLeft(g, seen, id);
    var left := |g.Keys - (seen + {id})|;
    forall child | Child(g[id], child) ensures Closed(g, child) && Tree(g, child, |g.Keys - seen|).Some? {
      ChildOnPath(g, seen, id, child);
      ChildNoCycle(g, id, child);
      EndsWithin(g, child, seen + {id});
      TreeStays(g, child, left + 1, |g.Keys - seen|);
    }
    PartsEnd(g, id, |g.Keys - seen|);
  }

  /** What the item stands for, if nothing in it contains itself. */
  ghost function Unfolded(g: Graph, item: Item): Value
    requires Closed(g, item) && NoCycle(g, item)
  {
    EndsWithin(g, item, {});
    Tree(g, item, |g.Keys| + 1).value
  }

  /** `plainValue` from the outside: an error exactly if something in the value contains itself or the
      value without sharing has no normalization; else that normalization. */
  method PlainGraph(g: Graph, item: Item) returns (r: Result<Value>)
    requires Closed(g, item)
    ensures r.Ok? <==> NoCycle(g, item) && Plain(Unfolded(g, item)).Ok?
    ensures r.Ok? ==> r == Plain(Unfolded(g, item))
  {
    var visits := new Visits();
    r := PlainItem(g, visits, item);
    if NoCycle(g, item) {
      EndsWithin(g, item, {});
    } else {
      CycleInside(g, item);
    }
  }

  /** What has a cycle inside stands for no value. */
  lemma CycleInside(g: Graph, item: Item)
    requires Closed(g, item) && !NoCycle(g, item)
    ensures forall depth: nat :: Tree(g, item, depth).None?
  {
    var a: nat, m: nat, n: nat :| Path(g, item.id, Ref(a), m) && Path(g, a, Ref(a), n) && n > 0;
    forall depth: nat ensures Tree(g, item, depth).None? {
      if Tree(g, item, depth).Some? {
        PathTree(g, item.id, Ref(a), m, depth);
        CycleHasNoTree(g, a, n, depth - m);
      }
    }
  }
}
