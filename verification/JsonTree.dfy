/**
 JSON trees as Python holds them: dictionaries are objects that are updated in place. Lists are values
 here, as nothing in this project assigns to a list it was given.
 */
module JsonTree {
  import opened Json

  class DictNode {
    var fields: map<string, Val>

    constructor (fields: map<string, Val>)
      ensures this.fields == fields
    {
      this.fields := fields;
    }
  }

  datatype Val = Plain(value: Json) | ListOf(items: seq<Val>) | Ref(node: DictNode)

  /** Which object is where in a tree; a key may since have been removed. */
  datatype Shape = Leaf | ListShape(parts: seq<Shape>) | DictShape(node: DictNode, kids: map<string, Shape>)

  ghost function Nodes(s: Shape): set<DictNode>
    decreases s
  {
    match s
    case Leaf => {}
    case ListShape(parts) => set i, n | 0 <= i < |parts| && n in Nodes(parts[i]) :: n
    case DictShape(node, kids) => {node} + set k, n | k in kids && n in Nodes(kids[k]) :: n
  }

  /** No object is in two places. */
  ghost predicate Apart(s: Shape)
    decreases s
  {
    match s
    case Leaf => true
    case ListShape(parts) =>
      && (forall i | 0 <= i < |parts| :: Apart(parts[i]))
      && (forall i, j | 0 <= i < j < |parts| :: Nodes(parts[i]) !! Nodes(parts[j]))
    case DictShape(node, kids) =>
      && (forall k | k in kids :: Apart(kids[k]) && node !in Nodes(kids[k]))
      && (forall k, l | k in kids && l in kids && k != l :: Nodes(kids[k]) !! Nodes(kids[l]))
  }

  /** The tree at `v`, laid out as `s`, now reads as `j`. */
  ghost predicate Shows(v: Val, s: Shape, j: Json)
    reads Nodes(s)
    decreases s
  {
    match s
    case Leaf => v == Plain(j) && !j.JObj? && !j.JArr?
    case ListShape(parts) =>
      && v.ListOf? && j.JArr? && |v.items| == |parts| == |j.items|
      && (forall i | 0 <= i < |parts| :: Shows(v.items[i], parts[i], j.items[i]))
    case DictShape(node, kids) =>
      && v == Ref(node) && j.JObj? && node.fields.Keys == j.fields.Keys <= kids.Keys
      && (forall k | k in node.fields :: Shows(node.fields[k], kids[k], j.fields[k]))
  }

  // ---------------------------------------------------------------- some of a node's children

  ghost function KidNodes(kids: map<string, Shape>, keys: set<string>): set<DictNode> {
    set k, n | k in keys && k in kids && n in Nodes(kids[k]) :: n
  }

  ghost predicate ShowsKeys(fields: map<string, Val>, kids: map<string, Shape>, js: Dict, keys: set<string>)
    reads KidNodes(kids, keys)
  {
    && keys <= fields.Keys && keys <= kids.Keys && keys <= js.Keys
    && forall k | k in keys :: Shows(fields[k], kids[k], js[k])
  }

  /** The keys a loop over a dictionary has dealt with. */
  ghost function Done(keys: set<string>, rest: set<string>): set<string> {
    keys - rest
  }

  lemma DoneStep(keys: set<string>, rest: set<string>, k: string)
    requires k in rest && rest <= keys
    ensures k in keys && k !in Done(keys, rest) && Done(keys, rest - {k}) == Done(keys, rest) + {k}
  {
  }

  lemma DoneEnds(keys: set<string>)
    ensures Done(keys, keys) == {} && Done(keys, {}) == keys
  {
  }

  lemma NoKeys(fields: map<string, Val>, kids: map<string, Shape>, js: Dict)
    ensures ShowsKeys(fields, kids, js, {})
  {
  }

  lemma OpenDict(node: DictNode, s: Shape, j: Json)
    requires s.DictShape? && Shows(Ref(node), s, j) && Apart(s)
    ensures s.node == node && j.JObj? && node.fields.Keys == j.fields.Keys <= s.kids.Keys
    ensures ShowsKeys(node.fields, s.kids, j.fields, node.fields.Keys)
    ensures KidNodes(s.kids, node.fields.Keys) <= Nodes(s) && node in Nodes(s)
    ensures node !in KidNodes(s.kids, node.fields.Keys)
  {
  }

  lemma CloseDict(node: DictNode, s: Shape, j: Json)
    requires s.DictShape? && s.node == node && j.JObj? && node.fields.Keys == j.fields.Keys <= s.kids.Keys
    requires ShowsKeys(node.fields, s.kids, j.fields, node.fields.Keys)
    ensures Shows(Ref(node), s, j)
  {
  }

  /** One child can be worked on without touching the others. */
  lemma TakeKey(fields: map<string, Val>, s: Shape, js: Dict, keys: set<string>, done: set<string>, k: string)
    requires s.DictShape? && Apart(s) && k in keys && k !in done && ShowsKeys(fields, s.kids, js, keys)
    ensures k in fields && k in s.kids && k in js && Shows(fields[k], s.kids[k], js[k])
    ensures Apart(s.kids[k]) && Nodes(s.kids[k]) <= Nodes(s) && s.node !in Nodes(s.kids[k])
    ensures ShowsKeys(fields, s.kids, js, keys - {k})
    ensures Nodes(s.kids[k]) !! KidNodes(s.kids, keys - {k}) && Nodes(s.kids[k]) !! KidNodes(s.kids, done)
  {
  }

  lemma AddKey(fields: map<string, Val>, kids: map<string, Shape>, js: Dict, keys: set<string>, k: string)
    requires k in fields && k in kids && k in js && Shows(fields[k], kids[k], js[k])
    requires ShowsKeys(fields, kids, js, keys)
    ensures ShowsKeys(fields, kids, js, keys + {k})
  {
  }

  lemma KidWithin(s: Shape, k: string)
    requires s.DictShape? && k in s.kids
    ensures Nodes(s.kids[k]) <= Nodes(s) && s.node in Nodes(s)
  {
  }

  lemma KidsWithin(s: Shape)
    requires s.DictShape?
    ensures forall keys :: KidNodes(s.kids, keys) <= Nodes(s)
  {
  }

  lemma ReplacedApart(s: Shape, k: string, kid: Shape)
    requires s.DictShape? && Apart(s) && k in s.kids && Apart(kid) && (Nodes(kid) - Nodes(s.kids[k])) !! Nodes(s)
    ensures var s' := s.(kids := s.kids[k := kid]);
            Apart(s') && Nodes(s') <= Nodes(s) + Nodes(kid) && forall keys :: s.node !in KidNodes(s'.kids, keys)
  {
    var s' := s.(kids := s.kids[k := kid]);
    assert forall l | l in s.kids :: Nodes(s.kids[l]) <= Nodes(s);
    assert s.node !in Nodes(s.kids[k]) && s.node !in Nodes(kid);
    forall l | l in s.kids && l != k
      ensures Nodes(kid) !! Nodes(s.kids[l])
    {
      assert Nodes(s.kids[k]) !! Nodes(s.kids[l]);
    }
    assert Apart(s');
  }

  lemma ReplacedShows(fields: map<string, Val>, kids: map<string, Shape>, js: Dict, keys: set<string>, k: string, v: Val, kid: Shape)
    requires ShowsKeys(fields, kids, js, keys) && k !in keys
    ensures ShowsKeys(fields[k := v], kids[k := kid], js, keys)
  {
  }

  /** One child gives way to another that shares no object with the rest of the tree. */
  lemma ReplaceKid(fields: map<string, Val>, s: Shape, js: Dict, after: Dict, rest: set<string>, done: set<string>,
                   k: string, v: Val, kid: Shape)
    requires s.DictShape? && Apart(s) && k in s.kids && k in after && k !in rest && k !in done
    requires ShowsKeys(fields, s.kids, js, rest) && ShowsKeys(fields, s.kids, after, done)
    requires Shows(v, kid, after[k]) && Apart(kid) && (Nodes(kid) - Nodes(s.kids[k])) !! Nodes(s)
    ensures var s' := s.(kids := s.kids[k := kid]);
            && Apart(s') && Nodes(s') <= Nodes(s) + Nodes(kid)
            && ShowsKeys(fields[k := v], s'.kids, js, rest) && ShowsKeys(fields[k := v], s'.kids, after, done + {k})
            && s.node !in KidNodes(s'.kids, rest) && s.node !in KidNodes(s'.kids, done + {k})
  {
    hide Shows, Nodes, Apart, KidNodes, ShowsKeys;
    ReplacedApart(s, k, kid);
    ReplacedShows(fields, s.kids, js, rest, k, v, kid);
    ReplacedShows(fields, s.kids, after, done, k, v, kid);
    AddKey(fields[k := v], s.kids[k := kid], after, done, k);
  }

  ghost function RangeNodes(parts: seq<Shape>, lo: nat, hi: nat): set<DictNode> {
    set i, n | lo <= i < hi && i < |parts| && n in Nodes(parts[i]) :: n
  }

  ghost predicate ShowsRange(items: seq<Val>, parts: seq<Shape>, js: seq<Json>, lo: nat, hi: nat)
    reads RangeNodes(parts, lo, hi)
  {
    && lo <= hi <= |items| == |parts| == |js|
    && forall i | lo <= i < hi :: Shows(items[i], parts[i], js[i])
  }

  lemma NoItems(items: seq<Val>, parts: seq<Shape>, js: seq<Json>)
    requires |items| == |parts| == |js|
    ensures ShowsRange(items, parts, js, 0, 0)
  {
  }

  lemma OpenList(items: seq<Val>, s: Shape, j: Json)
    requires s.ListShape? && Shows(ListOf(items), s, j) && Apart(s)
    ensures j.JArr? && |items| == |s.parts| == |j.items| && ShowsRange(items, s.parts, j.items, 0, |items|)
  {
  }

  lemma CloseList(items: seq<Val>, s: Shape, j: Json)
    requires s.ListShape? && j.JArr? && ShowsRange(items, s.parts, j.items, 0, |items|)
    ensures Shows(ListOf(items), s, j)
  {
  }

  lemma TakeFirst(items: seq<Val>, s: Shape, js: seq<Json>, i: nat)
    requires s.ListShape? && Apart(s) && i < |items| && ShowsRange(items, s.parts, js, i, |items|)
    ensures |items| == |s.parts| == |js| && Shows(items[i], s.parts[i], js[i])
    ensures Apart(s.parts[i]) && Nodes(s.parts[i]) <= Nodes(s)
    ensures ShowsRange(items, s.parts, js, i + 1, |items|)
    ensures Nodes(s.parts[i]) !! RangeNodes(s.parts, 0, i) && Nodes(s.parts[i]) !! RangeNodes(s.parts, i + 1, |items|)
  {
  }

  lemma AddLast(items: seq<Val>, parts: seq<Shape>, js: seq<Json>, i: nat)
    requires ShowsRange(items, parts, js, 0, i) && i < |items| && Shows(items[i], parts[i], js[i])
    ensures ShowsRange(items, parts, js, 0, i + 1)
  {
  }

  lemma PartWithin(s: Shape, i: nat)
    requires s.ListShape? && i < |s.parts|
    ensures Nodes(s.parts[i]) <= Nodes(s)
  {
  }

  /** One item gives way to a layout that shares no object with the rest of the tree. */
  lemma ReplacePart(items: seq<Val>, s: Shape, js: seq<Json>, after: seq<Json>, i: nat, part: Shape)
    requires s.ListShape? && Apart(s) && i < |items| == |s.parts| == |js| == |after|
    requires ShowsRange(items, s.parts, js, i + 1, |items|) && ShowsRange(items, s.parts, after, 0, i)
    requires Shows(items[i], part, after[i]) && Apart(part) && (Nodes(part) - Nodes(s.parts[i])) !! Nodes(s)
    ensures var s' := ListShape(s.parts[i := part]);
            && Apart(s') && Nodes(s') <= Nodes(s) + Nodes(part)
            && ShowsRange(items, s'.parts, js, i + 1, |items|) && ShowsRange(items, s'.parts, after, 0, i + 1)
  {
    hide Shows;
    var s' := ListShape(s.parts[i := part]);
    assert forall l | 0 <= l < |s.parts| :: Nodes(s.parts[l]) <= Nodes(s);
    forall l | 0 <= l < |s.parts| && l != i
      ensures Nodes(part) !! Nodes(s.parts[l])
    {
      assert Nodes(s.parts[i]) !! Nodes(s.parts[l]);
    }
    assert Apart(s');
  }

  // ---------------------------------------------------------------- copying

  /** `copy.deepcopy`: a tree of new objects that reads the same. */
  method DeepCopy(v: Val, ghost s: Shape, ghost j: Json) returns (c: Val, ghost t: Shape)
    requires Shows(v, s, j) && Apart(s)
    ensures Shows(c, t, j) && Apart(t) && fresh(Nodes(t))
    decreases s, 2
  {
    match v {
      case Plain(_) =>
        return v, Leaf;
      case ListOf(items) =>
        c, t := CopyItems(items, s, j);
      case Ref(node) =>
        c, t := CopyFields(node, s, j);
    }
  }

  method CopyItems(items: seq<Val>, ghost s: Shape, ghost j: Json) returns (c: Val, ghost t: Shape)
    requires s.ListShape? && Shows(ListOf(items), s, j) && Apart(s)
    ensures Shows(c, t, j) && Apart(t) && fresh(Nodes(t))
    decreases s, 0
  {
    var copies: seq<Val> := [];
    ghost var parts: seq<Shape> := [];
    ghost var held: set<DictNode> := {};
    for i := 0 to |items|
      invariant |copies| == |parts| == i && fresh(held)
      invariant forall k | 0 <= k < i :: Shows(copies[k], parts[k], j.items[k])
      invariant forall k | 0 <= k < i :: Apart(parts[k]) && Nodes(parts[k]) <= held
      invariant forall k, l | 0 <= k < l < i :: Nodes(parts[k]) !! Nodes(parts[l])
      invariant Shows(ListOf(items), s, j)
    {
      assert allocated(Nodes(s));
      var copy, part := DeepCopy(items[i], s.parts[i], j.items[i]);
      copies := copies + [copy];
      parts := parts + [part];
      held := held + Nodes(part);
    }
    return ListOf(copies), ListShape(parts);
  }

  /** Copies so far, all apart and made of the objects `held`. */
  ghost predicate Copies(kids: map<string, Shape>, held: set<DictNode>) {
    && (forall k | k in kids :: Apart(kids[k]) && Nodes(kids[k]) <= held)
    && (forall k, l | k in kids && l in kids && k != l :: Nodes(kids[k]) !! Nodes(kids[l]))
  }

  lemma AddCopy(kids: map<string, Shape>, held: set<DictNode>, k: string, kid: Shape)
    requires Copies(kids, held) && k !in kids && Apart(kid) && Nodes(kid) !! held
    ensures Copies(kids[k := kid], held + Nodes(kid))
  {
  }

  lemma CopiesApart(node: DictNode, kids: map<string, Shape>, held: set<DictNode>)
    requires Copies(kids, held) && node !in held
    ensures Apart(DictShape(node, kids)) && Nodes(DictShape(node, kids)) <= {node} + held
    ensures KidNodes(kids, kids.Keys) <= held
  {
  }

  /** A copied entry joins the others. */
  lemma AddShown(fields: map<string, Val>, kids: map<string, Shape>, js: Dict, k: string, v: Val, kid: Shape)
    requires ShowsKeys(fields, kids, js, fields.Keys) && k in js && Shows(v, kid, js[k])
    ensures ShowsKeys(fields[k := v], kids[k := kid], js, fields[k := v].Keys)
  {
  }

  /** One turn of the loop over a dictionary. */
  method CopyField(node: DictNode, k: string, ghost s: Shape, ghost js: Dict, ghost keys: set<string>,
                   fields: map<string, Val>, ghost kids: map<string, Shape>, ghost held: set<DictNode>)
    returns (fields': map<string, Val>, ghost kids': map<string, Shape>, ghost held': set<DictNode>)
    requires s.DictShape? && Apart(s) && k in keys && k !in kids && k in node.fields
    requires ShowsKeys(node.fields, s.kids, js, keys) && ShowsKeys(fields, kids, js, fields.Keys) && Copies(kids, held)
    ensures fields'.Keys == fields.Keys + {k} && kids'.Keys == kids.Keys + {k}
    ensures ShowsKeys(node.fields, s.kids, js, keys) && ShowsKeys(fields', kids', js, fields'.Keys)
    ensures Copies(kids', held') && forall n <- held' :: n in held || fresh(n)
    decreases s, 0
  {
    hide *;
    TakeKey(node.fields, s, js, keys, {}, k);
    assert allocated(KidNodes(s.kids, keys)) && allocated(KidNodes(kids, fields.Keys));
    var copy, kid := DeepCopy(node.fields[k], s.kids[k], js[k]);
    AddShown(fields, kids, js, k, copy, kid);
    AddCopy(kids, held, k, kid);
    return fields[k := copy], kids[k := kid], held + Nodes(kid);
  }

  method CopyFields(node: DictNode, ghost s: Shape, ghost j: Json) returns (c: Val, ghost t: Shape)
    requires s.DictShape? && Shows(Ref(node), s, j) && Apart(s)
    ensures Shows(c, t, j) && Apart(t) && fresh(Nodes(t))
    decreases s, 1
  {
    hide *;
    OpenDict(node, s, j);
    ghost var keys := node.fields.Keys;
    var fields: map<string, Val> := map[];
    ghost var kids: map<string, Shape> := map[];
    ghost var held: set<DictNode> := {};
    var rest := node.fields.Keys;
    NothingCopied(j.fields);
    DoneEnds(keys);
    while rest != {}
      invariant rest <= keys && fields.Keys == kids.Keys == Done(keys, rest)
      invariant ShowsKeys(node.fields, s.kids, j.fields, keys)
      invariant ShowsKeys(fields, kids, j.fields, fields.Keys)
      invariant Copies(kids, held) && fresh(held)
      decreases |rest|
    {
      var k :| k in rest;
      DoneStep(keys, rest, k);
      fields, kids, held := CopyField(node, k, s, j.fields, keys, fields, kids, held);
      rest := rest - {k};
    }
    c, t := NewDict(fields, kids, held, j);
  }

  /** The new dictionary that holds the copies. */
  method NewDict(fields: map<string, Val>, ghost kids: map<string, Shape>, ghost held: set<DictNode>, ghost j: Json)
    returns (c: Val, ghost t: Shape)
    requires j.JObj? && fields.Keys == kids.Keys == j.fields.Keys && ShowsKeys(fields, kids, j.fields, fields.Keys)
    requires Copies(kids, held)
    ensures Shows(c, t, j) && Apart(t) && forall n <- Nodes(t) :: n in held || fresh(n)
  {
    hide *;
    assert allocated(KidNodes(kids, fields.Keys)) && allocated(held);
    var copy := new DictNode(fields);
    CopiesApart(copy, kids, held);
    t := DictShape(copy, kids);
    CloseDict(copy, t, j);
    return Ref(copy), t;
  }

  lemma NothingCopied(js: Dict)
    ensures ShowsKeys(map[], map[], js, {}) && Copies(map[], {})
  {
  }
}
