/**
 * The structure map: one division per structMap row, nested by the row's
 * `parent_id`. The reassembler works in two passes over the rows. The first
 * creates every division element (its attributes and, if the row names a
 * file, its file pointer) and records it under its `struct_id`. The second
 * appends each division either to the list of top-level divisions (null or
 * empty `parent_id`) or, when `parent_id` names a recorded `struct_id`, to that
 * parent's element; a division whose non-empty `parent_id` names nothing is
 * appended nowhere and is lost together with everything below it.
 *
 * lxml elements are references. Here an element created in the first pass is
 * identified by a handle, the index of its row, and the elements form an arena:
 * a sequence of division nodes whose children are either finished elements
 * (the file pointer) or handles of other divisions. The document tree is the
 * arena unfolded from the top-level handles.
 */
module StructMap {
  import opened Wrappers
  import opened Tables
  import opened Document

  /** The columns of one structMap row that the reassembler reads. */
  datatype StructRow = StructRow(
    structId: string,
    dmdId: string,
    parentId: Option<string>,
    labelText: Option<string>,
    order: Option<string>,
    kind: Option<string>,
    fileId: Option<string>)

  /** `pd.isna(parent_id) or parent_id == ''`. */
  predicate IsTopLevel(r: StructRow) {
    r.parentId.None? || r.parentId.value == ""
  }

  predicate UniqueIds(rows: seq<StructRow>) {
    forall i, j :: 0 <= i < j < |rows| ==> rows[i].structId != rows[j].structId
  }

  /** The `divisions` dictionary after the first pass has handled rows `0..n-1`: `struct_id` to handle. */
  function IdIndexUpTo(rows: seq<StructRow>, n: nat): map<string, nat>
    requires n <= |rows|
  {
    if n == 0 then map[] else IdIndexUpTo(rows, n - 1)[rows[n - 1].structId := n - 1]
  }

  /** Every row handled so far is recorded, and each entry is a handle carrying its key. */
  lemma {:induction false} IdIndexSpec(rows: seq<StructRow>, n: nat)
    requires n <= |rows|
    ensures forall k :: 0 <= k < n ==> rows[k].structId in IdIndexUpTo(rows, n)
    ensures forall id :: id in IdIndexUpTo(rows, n) ==>
      IdIndexUpTo(rows, n)[id] < n && rows[IdIndexUpTo(rows, n)[id]].structId == id
  {
    if n > 0 {
      IdIndexSpec(rows, n - 1);
    }
  }

  /** The `divisions` dictionary after the whole first pass. */
  function IdIndex(rows: seq<StructRow>): map<string, nat> {
    IdIndexUpTo(rows, |rows|)
  }

  lemma IdIndexUnique(rows: seq<StructRow>, k: nat)
    requires UniqueIds(rows) && k < |rows|
    ensures rows[k].structId in IdIndex(rows) && IdIndex(rows)[rows[k].structId] == k
  {
    IdIndexSpec(rows, |rows|);
  }

  /** The handle a non-top-level row is appended under, if its `parent_id` is recorded. */
  function ParentOf(rows: seq<StructRow>, j: nat): (p: Option<nat>)
    requires j < |rows|
    ensures p.Some? ==> p.value < |rows| && !IsTopLevel(rows[j])
    ensures p.Some? ==> rows[p.value].structId == rows[j].parentId.value
    ensures p.None? ==> IsTopLevel(rows[j]) || forall k :: 0 <= k < |rows| ==> rows[k].structId != rows[j].parentId.value
  {
    if IsTopLevel(rows[j]) then None
    else
      IdIndexSpec(rows, |rows|);
      var m := IdIndex(rows);
      if rows[j].parentId.value in m then Some(m[rows[j].parentId.value]) else None
  }

  /** Following parents from `j` stops (at a top-level row or a dangling `parent_id`) within `n` steps. */
  predicate ChainEnds(rows: seq<StructRow>, j: nat, n: nat)
    requires j < |rows|
    decreases n
  {
    ParentOf(rows, j).None? || (n > 0 && ChainEnds(rows, ParentOf(rows, j).value, n - 1))
  }

  /** No row is its own ancestor: every parent chain stops within as many steps as there are rows. */
  predicate Acyclic(rows: seq<StructRow>) {
    forall j :: 0 <= j < |rows| ==> ChainEnds(rows, j, |rows|)
  }

  /** The number of parent steps from `j` until the chain stops. */
  function Depth(rows: seq<StructRow>, j: nat, n: nat): (d: nat)
    requires j < |rows| && ChainEnds(rows, j, n)
    decreases n
    ensures d <= n
  {
    if ParentOf(rows, j).None? then 0 else 1 + Depth(rows, ParentOf(rows, j).value, n - 1)
  }

  /** The row where the parent chain from `j` stops. */
  function Top(rows: seq<StructRow>, j: nat, n: nat): (t: nat)
    requires j < |rows| && ChainEnds(rows, j, n)
    decreases n
    ensures t < |rows| && ParentOf(rows, t).None?
  {
    if ParentOf(rows, j).None? then j else Top(rows, ParentOf(rows, j).value, n - 1)
  }

  function Level(rows: seq<StructRow>, j: nat): nat
    requires Acyclic(rows) && j < |rows|
  {
    Depth(rows, j, |rows|)
  }

  lemma {:induction false} DepthFuel(rows: seq<StructRow>, j: nat, n: nat, m: nat)
    requires j < |rows| && ChainEnds(rows, j, n) && n <= m
    ensures ChainEnds(rows, j, m) && Depth(rows, j, n) == Depth(rows, j, m)
    ensures Top(rows, j, n) == Top(rows, j, m)
    decreases n
  {
    if ParentOf(rows, j).Some? {
      DepthFuel(rows, ParentOf(rows, j).value, n - 1, m - 1);
    }
  }

  /** A child lies exactly one level below its parent. */
  lemma LevelStep(rows: seq<StructRow>, j: nat)
    requires Acyclic(rows) && j < |rows| && ParentOf(rows, j).Some?
    ensures Level(rows, j) == Level(rows, ParentOf(rows, j).value) + 1
    ensures Top(rows, j, |rows|) == Top(rows, ParentOf(rows, j).value, |rows|)
  {
    var p := ParentOf(rows, j).value;
    assert ChainEnds(rows, j, |rows|);
    DepthFuel(rows, p, |rows| - 1, |rows|);
  }

  /** The handles appended under handle `p` by the first `n` rows of the second pass. */
  function ChildrenBefore(rows: seq<StructRow>, p: nat, n: nat): seq<nat>
    requires n <= |rows|
  {
    if n == 0 then []
    else ChildrenBefore(rows, p, n - 1) + (if ParentOf(rows, n - 1) == Some(p) then [n - 1] else [])
  }

  /** The handles appended to the top-level list by the first `n` rows of the second pass. */
  function TopLevelBefore(rows: seq<StructRow>, n: nat): seq<nat>
    requires n <= |rows|
  {
    if n == 0 then []
    else TopLevelBefore(rows, n - 1) + (if IsTopLevel(rows[n - 1]) then [n - 1] else [])
  }

  predicate Increasing(hs: seq<nat>) {
    forall a, b :: 0 <= a < b < |hs| ==> hs[a] < hs[b]
  }

  /** The children of `p` are the rows whose parent is `p`, each once, in row order. */
  lemma {:induction false} ChildrenBeforeSpec(rows: seq<StructRow>, p: nat, n: nat)
    requires n <= |rows|
    ensures forall k: nat :: k in ChildrenBefore(rows, p, n) <==> k < n && ParentOf(rows, k) == Some(p)
    ensures forall i :: 0 <= i < |ChildrenBefore(rows, p, n)| ==> ChildrenBefore(rows, p, n)[i] < n
    ensures Increasing(ChildrenBefore(rows, p, n))
  {
    if n > 0 {
      ChildrenBeforeSpec(rows, p, n - 1);
      var prev := ChildrenBefore(rows, p, n - 1);
      var extra: seq<nat> := if ParentOf(rows, n - 1) == Some(p) then [n - 1] else [];
      assert ChildrenBefore(rows, p, n) == prev + extra;
      assert forall i :: 0 <= i < |prev| ==> prev[i] < n - 1;
      forall k: nat ensures k in prev + extra <==> k < n && ParentOf(rows, k) == Some(p) {
        assert k in prev + extra <==> k in prev || k in extra;
      }
    }
  }

  /** The top-level list holds the top-level rows, each once, in row order. */
  lemma {:induction false} TopLevelBeforeSpec(rows: seq<StructRow>, n: nat)
    requires n <= |rows|
    ensures forall k: nat :: k in TopLevelBefore(rows, n) <==> k < n && IsTopLevel(rows[k])
    ensures forall i :: 0 <= i < |TopLevelBefore(rows, n)| ==> TopLevelBefore(rows, n)[i] < n
    ensures Increasing(TopLevelBefore(rows, n))
  {
    if n > 0 {
      TopLevelBeforeSpec(rows, n - 1);
      var prev := TopLevelBefore(rows, n - 1);
      assert forall i :: 0 <= i < |prev| ==> prev[i] in prev;
    }
  }

  /** A child of a division element: a finished element, or the handle of another division. */
  datatype Child = Leaf(e: Element) | Handle(h: nat)

  /** A division element of the arena: its attributes and its children so far. */
  datatype DivNode = DivNode(attrs: map<Name, string>, children: seq<Child>)

  /** The `div` attributes: ID and DMDID always, LABEL, ORDER and TYPE when not null. */
  function DivAttrs(r: StructRow): map<Name, string> {
    map[Attr("ID") := r.structId, Attr("DMDID") := r.dmdId]
    + (if r.labelText.Some? then map[Attr("LABEL") := r.labelText.value] else map[])
    + (if r.order.Some? then map[Attr("ORDER") := r.order.value] else map[])
    + (if r.kind.Some? then map[Attr("TYPE") := r.kind.value] else map[])
  }

  /** `file_id_mapping.get(original_file_id, original_file_id)`. */
  function ResolveFileId(mapping: map<string, string>, fid: string): string {
    if fid in mapping then mapping[fid] else fid
  }

  function FilePointer(fileId: string, mapping: map<string, string>): Element {
    Element(MetsName("fptr"), map[Attr("FILEID") := ResolveFileId(mapping, fileId)], None, [])
  }

  /** The `fptr` element of a division, if its row names a file. */
  function PointerElements(r: StructRow, mapping: map<string, string>): seq<Element> {
    if r.fileId.Some? then [FilePointer(r.fileId.value, mapping)] else []
  }

  /** The children a division has after the first pass. */
  function PointerChildren(r: StructRow, mapping: map<string, string>): (cs: seq<Child>)
    ensures |cs| == |PointerElements(r, mapping)|
    ensures forall i :: 0 <= i < |cs| ==> cs[i] == Leaf(PointerElements(r, mapping)[i])
  {
    if r.fileId.Some? then [Leaf(FilePointer(r.fileId.value, mapping))] else []
  }

  function Handles(hs: seq<nat>): (cs: seq<Child>)
    ensures |cs| == |hs|
    ensures forall i :: 0 <= i < |hs| ==> cs[i] == Handle(hs[i])
  {
    if hs == [] then [] else [Handle(hs[0])] + Handles(hs[1..])
  }

  /** Division `h` once the second pass has handled its first `n` rows. */
  function NodeAfter(rows: seq<StructRow>, mapping: map<string, string>, h: nat, n: nat): DivNode
    requires h < |rows| && n <= |rows|
  {
    DivNode(DivAttrs(rows[h]), PointerChildren(rows[h], mapping) + Handles(ChildrenBefore(rows, h, n)))
  }

  /** The arena after both passes. */
  function Arena(rows: seq<StructRow>, mapping: map<string, string>): (nodes: seq<DivNode>)
    ensures |nodes| == |rows|
  {
    seq(|rows|, h requires 0 <= h < |rows| => NodeAfter(rows, mapping, h, |rows|))
  }

  /** Every handle under division `h` is a row whose parent is `h`; finished children hold no division. */
  predicate ChildrenShaped(rows: seq<StructRow>, h: nat, cs: seq<Child>) {
    forall i :: 0 <= i < |cs| ==>
      (cs[i].Handle? ==> cs[i].h < |rows| && ParentOf(rows, cs[i].h) == Some(h)) &&
      (cs[i].Leaf? ==> cs[i].e.name != MetsName("div") && cs[i].e.children == [])
  }

  predicate Shaped(rows: seq<StructRow>, nodes: seq<DivNode>) {
    |nodes| == |rows| && forall h :: 0 <= h < |nodes| ==> ChildrenShaped(rows, h, nodes[h].children)
  }

  lemma ArenaShaped(rows: seq<StructRow>, mapping: map<string, string>)
    ensures Shaped(rows, Arena(rows, mapping))
  {
    var nodes := Arena(rows, mapping);
    forall h | 0 <= h < |nodes| ensures ChildrenShaped(rows, h, nodes[h].children) {
      NodeShaped(rows, mapping, h);
    }
  }

  /** Every handle under division `h` after the second pass is a row whose parent is `h`. */
  lemma NodeShaped(rows: seq<StructRow>, mapping: map<string, string>, h: nat)
    requires h < |rows|
    ensures ChildrenShaped(rows, h, NodeAfter(rows, mapping, h, |rows|).children)
  {
    ChildrenBeforeSpec(rows, h, |rows|);
    var hs := ChildrenBefore(rows, h, |rows|);
    var pc := PointerChildren(rows[h], mapping);
    var cs := NodeAfter(rows, mapping, h, |rows|).children;
    assert cs == pc + Handles(hs);
    forall i | 0 <= i < |cs| && cs[i].Handle?
      ensures cs[i].h < |rows| && ParentOf(rows, cs[i].h) == Some(h)
    {
      assert cs[i] == Handle(hs[i - |pc|]);
      assert hs[i - |pc|] in hs;
    }
  }

  /** Division `h` as a finished element: the arena unfolded below it. */
  function Unfold(rows: seq<StructRow>, nodes: seq<DivNode>, h: nat): Element
    requires Acyclic(rows) && Shaped(rows, nodes) && h < |rows|
    decreases |rows| - Level(rows, h), |nodes[h].children| + 1
  {
    Element(MetsName("div"), nodes[h].attrs, None, UnfoldChildren(rows, nodes, h, nodes[h].children))
  }

  function UnfoldChildren(rows: seq<StructRow>, nodes: seq<DivNode>, h: nat, cs: seq<Child>): (es: seq<Element>)
    requires Acyclic(rows) && Shaped(rows, nodes) && h < |rows| && ChildrenShaped(rows, h, cs)
    decreases |rows| - Level(rows, h), |cs|
    ensures |es| == |cs|
  {
    if cs == [] then []
    else
      var first := if cs[0].Leaf? then cs[0].e else (LevelStep(rows, cs[0].h); Unfold(rows, nodes, cs[0].h));
      [first] + UnfoldChildren(rows, nodes, h, cs[1..])
  }

  /** A list of divisions, each unfolded. */
  function UnfoldAll(rows: seq<StructRow>, nodes: seq<DivNode>, hs: seq<nat>): (es: seq<Element>)
    requires Acyclic(rows) && Shaped(rows, nodes)
    requires forall i :: 0 <= i < |hs| ==> hs[i] < |rows|
    ensures |es| == |hs|
    ensures forall i :: 0 <= i < |hs| ==> es[i] == Unfold(rows, nodes, hs[i])
  {
    if hs == [] then [] else [Unfold(rows, nodes, hs[0])] + UnfoldAll(rows, nodes, hs[1..])
  }

  function TopLevel(rows: seq<StructRow>): seq<nat> {
    TopLevelBefore(rows, |rows|)
  }

  /** The `structMap` element: the top-level divisions of the arena, unfolded. */
  function StructMapElement(rows: seq<StructRow>, mapping: map<string, string>): Element
    requires Acyclic(rows)
  {
    ArenaShaped(rows, mapping);
    TopLevelBeforeSpec(rows, |rows|);
    Element(MetsName("structMap"), map[Attr("TYPE") := "LOGICAL"], None,
            UnfoldAll(rows, Arena(rows, mapping), TopLevel(rows)))
  }

  lemma HandlesAppend(hs: seq<nat>, x: nat)
    ensures Handles(hs + [x]) == Handles(hs) + [Handle(x)]
  {
    assert forall i :: 0 <= i < |hs| ==> (hs + [x])[i] == hs[i];
  }

  /** `parent.append(child)`: the child's handle goes after the parent's existing children. */
  function Adopt(n: DivNode, child: nat): DivNode {
    n.(children := n.children + [Handle(child)])
  }

  lemma NodeAfterStep(rows: seq<StructRow>, mapping: map<string, string>, k: nat, i: nat)
    requires k < |rows| && i < |rows|
    ensures NodeAfter(rows, mapping, k, i + 1) ==
      if ParentOf(rows, i) == Some(k) then Adopt(NodeAfter(rows, mapping, k, i), i) else NodeAfter(rows, mapping, k, i)
  {
    var cs := ChildrenBefore(rows, k, i);
    var pc := PointerChildren(rows[k], mapping);
    if ParentOf(rows, i) == Some(k) {
      assert ChildrenBefore(rows, k, i + 1) == cs + [i];
      HandlesAppend(cs, i);
      assert pc + Handles(cs + [i]) == (pc + Handles(cs)) + [Handle(i)];
    } else {
      assert ChildrenBefore(rows, k, i + 1) == cs;
    }
  }

  /**
   * First pass of `_create_structmap_elements`: one division per row, with its
   * file pointer, recorded in `divisions` under its `struct_id`.
   */
  method CreateDivisions(rows: seq<StructRow>, mapping: map<string, string>)
    returns (nodes: seq<DivNode>, divisions: map<string, nat>)
    ensures ArenaAfter(rows, mapping, nodes, 0)
    ensures divisions == IdIndex(rows)
  {
    divisions := map[];
    nodes := [];
    for h := 0 to |rows|
      invariant |nodes| == h
      invariant forall k :: 0 <= k < h ==> nodes[k] == NodeAfter(rows, mapping, k, 0)
      invariant divisions == IdIndexUpTo(rows, h)
    {
      var r := rows[h];
      FreshNode(rows, mapping, h);
      var before := nodes;
      nodes := nodes + [DivNode(DivAttrs(r), PointerChildren(r, mapping))];
      forall k | 0 <= k < h + 1
        ensures nodes[k] == NodeAfter(rows, mapping, k, 0)
      {
        if k < h {
          assert nodes[k] == before[k];
        }
      }
      assert IdIndexUpTo(rows, h + 1) == divisions[r.structId := h];
      divisions := divisions[r.structId := h];
    }
    assert ArenaAfter(rows, mapping, nodes, 0);
  }

  /** Before the second pass a division holds only its file pointers. */
  lemma FreshNode(rows: seq<StructRow>, mapping: map<string, string>, h: nat)
    requires h < |rows|
    ensures NodeAfter(rows, mapping, h, 0) == DivNode(DivAttrs(rows[h]), PointerChildren(rows[h], mapping))
  {
    assert ChildrenBefore(rows, h, 0) == [];
    assert PointerChildren(rows[h], mapping) + Handles([]) == PointerChildren(rows[h], mapping);
  }

  /** `nodes` is the arena as it stands once the second pass has handled rows `0..i-1`. */
  predicate ArenaAfter(rows: seq<StructRow>, mapping: map<string, string>, nodes: seq<DivNode>, i: nat) {
    i <= |rows| && |nodes| == |rows| && forall k :: 0 <= k < |rows| ==> nodes[k] == NodeAfter(rows, mapping, k, i)
  }

  lemma LinkAdopt(rows: seq<StructRow>, mapping: map<string, string>, nodes: seq<DivNode>, i: nat, p: nat)
    requires i < |rows| && ArenaAfter(rows, mapping, nodes, i) && ParentOf(rows, i) == Some(p)
    ensures ArenaAfter(rows, mapping, nodes[p := Adopt(nodes[p], i)], i + 1)
  {
    var nodes' := nodes[p := Adopt(nodes[p], i)];
    forall k | 0 <= k < |rows|
      ensures nodes'[k] == NodeAfter(rows, mapping, k, i + 1)
    {
      NodeAfterStep(rows, mapping, k, i);
    }
  }

  lemma LinkSkip(rows: seq<StructRow>, mapping: map<string, string>, nodes: seq<DivNode>, i: nat)
    requires i < |rows| && ArenaAfter(rows, mapping, nodes, i) && ParentOf(rows, i).None?
    ensures ArenaAfter(rows, mapping, nodes, i + 1)
  {
    forall k | 0 <= k < |rows|
      ensures nodes[k] == NodeAfter(rows, mapping, k, i + 1)
    {
      NodeAfterStep(rows, mapping, k, i);
    }
  }

  /** The second pass's top-level list, once it has handled rows `0..i-1`. */
  predicate RootsAfter(rows: seq<StructRow>, roots: seq<nat>, i: nat) {
    i <= |rows| && roots == TopLevelBefore(rows, i)
  }

  lemma RootsStep(rows: seq<StructRow>, roots: seq<nat>, i: nat)
    requires i < |rows| && RootsAfter(rows, roots, i)
    ensures RootsAfter(rows, if IsTopLevel(rows[i]) then roots + [i] else roots, i + 1)
  {
  }

  lemma ArenaDone(rows: seq<StructRow>, mapping: map<string, string>, nodes: seq<DivNode>)
    requires ArenaAfter(rows, mapping, nodes, |rows|)
    ensures nodes == Arena(rows, mapping)
  {
  }

  /** One row of the second pass of `_create_structmap_elements`. */
  method LinkRow(rows: seq<StructRow>, mapping: map<string, string>, divisions: map<string, nat>,
                 nodes: seq<DivNode>, roots: seq<nat>, i: nat)
    returns (nodes': seq<DivNode>, roots': seq<nat>)
    requires UniqueIds(rows) && divisions == IdIndex(rows) && i < |rows|
    requires ArenaAfter(rows, mapping, nodes, i) && RootsAfter(rows, roots, i)
    ensures ArenaAfter(rows, mapping, nodes', i + 1) && RootsAfter(rows, roots', i + 1)
  {
    var r := rows[i];
    IdIndexUnique(rows, i);
    RootsStep(rows, roots, i);
    nodes', roots' := nodes, roots;
    if r.parentId.None? || r.parentId.value == "" {
      LinkSkip(rows, mapping, nodes, i);
      roots' := roots + [divisions[r.structId]];
    } else if r.parentId.value in divisions {
      var p := divisions[r.parentId.value];
      LinkAdopt(rows, mapping, nodes, i, p);
      nodes' := nodes[p := Adopt(nodes[p], divisions[r.structId])];
    } else {
      LinkSkip(rows, mapping, nodes, i);
    }
  }

  /**
   * Second pass of `_create_structmap_elements`: each row's division goes to
   * the top-level list (null or empty `parent_id`) or is appended under the
   * division its `parent_id` names; when that names nothing, it goes nowhere.
   */
  method LinkDivisions(rows: seq<StructRow>, mapping: map<string, string>, divisions: map<string, nat>, nodes0: seq<DivNode>)
    returns (nodes: seq<DivNode>, roots: seq<nat>)
    requires UniqueIds(rows) && divisions == IdIndex(rows)
    requires ArenaAfter(rows, mapping, nodes0, 0)
    ensures nodes == Arena(rows, mapping)
    ensures roots == TopLevel(rows)
  {
    nodes := nodes0;
    roots := [];
    for i := 0 to |rows|
      invariant ArenaAfter(rows, mapping, nodes, i)
      invariant RootsAfter(rows, roots, i)
    {
      nodes, roots := LinkRow(rows, mapping, divisions, nodes, roots, i);
    }
    ArenaDone(rows, mapping, nodes);
  }

  /** `structmap.append(div)` for each top-level division, in order. */
  method CreateStructMap(rows: seq<StructRow>, mapping: map<string, string>) returns (e: Element)
    requires UniqueIds(rows) && Acyclic(rows)
    ensures e == StructMapElement(rows, mapping)
  {
    var nodes0, divisions := CreateDivisions(rows, mapping);
    var nodes, roots := LinkDivisions(rows, mapping, divisions, nodes0);
    ArenaShaped(rows, mapping);
    TopLevelBeforeSpec(rows, |rows|);
    var divs := [];
    for i := 0 to |roots|
      invariant divs == UnfoldAll(rows, nodes, roots[..i])
    {
      divs := divs + [Unfold(rows, nodes, roots[i])];
    }
    assert roots[..|roots|] == roots;
    e := Element(MetsName("structMap"), map[Attr("TYPE") := "LOGICAL"], None, divs);
  }

  /** Following `k` parents from `s`; `None` once the chain has stopped. */
  function Up(rows: seq<StructRow>, s: nat, k: nat): (r: Option<nat>)
    requires s < |rows|
    decreases k
    ensures r.Some? ==> r.value < |rows|
  {
    if k == 0 then Some(s)
    else match ParentOf(rows, s)
      case None => None
      case Some(p) => Up(rows, p, k - 1)
  }

  lemma {:induction false} UpStep(rows: seq<StructRow>, s: nat, k: nat)
    requires s < |rows|
    ensures Up(rows, s, k + 1) == if Up(rows, s, k).None? then None else ParentOf(rows, Up(rows, s, k).value)
    decreases k
  {
    if k > 0 && ParentOf(rows, s).Some? {
      UpStep(rows, ParentOf(rows, s).value, k - 1);
    }
  }

  lemma {:induction false} UpLevel(rows: seq<StructRow>, s: nat, k: nat)
    requires Acyclic(rows) && s < |rows| && Up(rows, s, k).Some?
    ensures Level(rows, Up(rows, s, k).value) + k == Level(rows, s)
    decreases k
  {
    if k > 0 {
      LevelStep(rows, s);
      UpLevel(rows, ParentOf(rows, s).value, k - 1);
    }
  }

  lemma {:induction false} UpTop(rows: seq<StructRow>, s: nat, n: nat)
    requires s < |rows| && ChainEnds(rows, s, n)
    ensures Up(rows, s, Depth(rows, s, n)) == Some(Top(rows, s, n))
    decreases n
  {
    if ParentOf(rows, s).Some? {
      UpTop(rows, ParentOf(rows, s).value, n - 1);
    }
  }

  /** Row `s` lies in the subtree of row `h`: `h` is `s` or one of its ancestors. */
  predicate Below(rows: seq<StructRow>, s: nat, h: nat)
    requires Acyclic(rows) && s < |rows| && h < |rows|
  {
    Level(rows, h) <= Level(rows, s) && Up(rows, s, Level(rows, s) - Level(rows, h)) == Some(h)
  }

  /** The IDs of the `div` elements of a tree, in document order. */
  function DivIds(e: Element): seq<string> {
    (if e.name == MetsName("div") && Attr("ID") in e.attrs then [e.attrs[Attr("ID")]] else [])
    + DivIdsAll(e.children)
  }

  function DivIdsAll(es: seq<Element>): seq<string> {
    if es == [] then [] else DivIds(es[0]) + DivIdsAll(es[1..])
  }

  /** An ID occurs in a list of trees exactly when it occurs in one of them. */
  lemma {:induction false} DivIdsAllMember(es: seq<Element>, id: string)
    ensures id in DivIdsAll(es) <==> exists i :: 0 <= i < |es| && id in DivIds(es[i])
    decreases |es|
  {
    if es != [] {
      DivIdsAllMember(es[1..], id);
      if exists i :: 0 <= i < |es| && id in DivIds(es[i]) {
        var i :| 0 <= i < |es| && id in DivIds(es[i]);
        if i > 0 {
          assert es[1..][i - 1] == es[i];
        }
      }
      if id in DivIdsAll(es[1..]) {
        var i :| 0 <= i < |es[1..]| && id in DivIds(es[1..][i]);
        assert es[i + 1] == es[1..][i];
      }
    }
  }

  lemma InChildren(rows: seq<StructRow>, nodes: seq<DivNode>, h: nat, cs: seq<Child>, id: string)
    requires Acyclic(rows) && Shaped(rows, nodes) && h < |rows| && ChildrenShaped(rows, h, cs)
    ensures id in DivIdsAll(UnfoldChildren(rows, nodes, h, cs)) <==>
      exists i :: 0 <= i < |cs| && cs[i].Handle? && id in DivIds(Unfold(rows, nodes, cs[i].h))
  {
    var es := UnfoldChildren(rows, nodes, h, cs);
    DivIdsAllMember(es, id);
    forall i | 0 <= i < |cs|
      ensures id in DivIds(es[i]) <==> cs[i].Handle? && id in DivIds(Unfold(rows, nodes, cs[i].h))
    {
      UnfoldChildrenAt(rows, nodes, h, cs, i);
      if cs[i].Leaf? {
        assert DivIds(es[i]) == [];
      }
    }
  }

  lemma InForest(rows: seq<StructRow>, nodes: seq<DivNode>, hs: seq<nat>, id: string)
    requires Acyclic(rows) && Shaped(rows, nodes)
    requires forall i :: 0 <= i < |hs| ==> hs[i] < |rows|
    ensures id in DivIdsAll(UnfoldAll(rows, nodes, hs)) <==>
      exists i :: 0 <= i < |hs| && id in DivIds(Unfold(rows, nodes, hs[i]))
  {
    DivIdsAllMember(UnfoldAll(rows, nodes, hs), id);
  }

  lemma {:induction false} UnfoldChildrenAt(rows: seq<StructRow>, nodes: seq<DivNode>, h: nat, cs: seq<Child>, i: nat)
    requires Acyclic(rows) && Shaped(rows, nodes) && h < |rows| && ChildrenShaped(rows, h, cs) && i < |cs|
    ensures cs[i].Leaf? ==> UnfoldChildren(rows, nodes, h, cs)[i] == cs[i].e
    ensures cs[i].Handle? ==> UnfoldChildren(rows, nodes, h, cs)[i] == Unfold(rows, nodes, cs[i].h)
    decreases i
  {
    if i > 0 {
      UnfoldChildrenAt(rows, nodes, h, cs[1..], i - 1);
    }
  }

  lemma UnfoldPointersThenHandles(rows: seq<StructRow>, nodes: seq<DivNode>, h: nat, pe: seq<Element>, hs: seq<nat>)
    requires Acyclic(rows) && Shaped(rows, nodes) && h < |rows|
    requires |pe| <= |nodes[h].children| == |pe| + |hs|
    requires forall i :: 0 <= i < |pe| ==> nodes[h].children[i] == Leaf(pe[i])
    requires forall i :: 0 <= i < |hs| ==> hs[i] < |rows| && nodes[h].children[|pe| + i] == Handle(hs[i])
    ensures UnfoldChildren(rows, nodes, h, nodes[h].children) == pe + UnfoldAll(rows, nodes, hs)
  {
    var cs := nodes[h].children;
    var es := UnfoldChildren(rows, nodes, h, cs);
    var want := pe + UnfoldAll(rows, nodes, hs);
    forall i | 0 <= i < |es| ensures es[i] == want[i] {
      UnfoldChildrenAt(rows, nodes, h, cs, i);
      if i >= |pe| {
        assert cs[|pe| + (i - |pe|)] == Handle(hs[i - |pe|]);
      }
    }
  }

  /**
   * A finished division: its attributes, its file pointer if any, then the
   * divisions of the rows whose parent it is, in row order.
   */
  lemma DivisionShape(rows: seq<StructRow>, mapping: map<string, string>, h: nat)
    requires Acyclic(rows) && h < |rows|
    ensures Shaped(rows, Arena(rows, mapping))
    ensures forall i :: 0 <= i < |ChildrenBefore(rows, h, |rows|)| ==> ChildrenBefore(rows, h, |rows|)[i] < |rows|
    ensures Unfold(rows, Arena(rows, mapping), h) ==
      Element(MetsName("div"), DivAttrs(rows[h]), None,
              PointerElements(rows[h], mapping)
              + UnfoldAll(rows, Arena(rows, mapping), ChildrenBefore(rows, h, |rows|)))
  {
    ArenaShaped(rows, mapping);
    ChildrenBeforeSpec(rows, h, |rows|);
    var nodes := Arena(rows, mapping);
    var hs := ChildrenBefore(rows, h, |rows|);
    var pe := PointerElements(rows[h], mapping);
    assert nodes[h] == DivNode(DivAttrs(rows[h]), PointerChildren(rows[h], mapping) + Handles(hs));
    UnfoldPointersThenHandles(rows, nodes, h, pe, hs);
  }

  lemma DivAttrsId(r: StructRow)
    ensures Attr("ID") in DivAttrs(r) && DivAttrs(r)[Attr("ID")] == r.structId
  {
  }

  /** The IDs under a division: its own, then those of its children in order. */
  lemma UnfoldIds(rows: seq<StructRow>, mapping: map<string, string>, nodes: seq<DivNode>, h: nat)
    requires Acyclic(rows) && h < |rows| && nodes == Arena(rows, mapping) && Shaped(rows, nodes)
    ensures DivIds(Unfold(rows, nodes, h)) ==
      [rows[h].structId] + DivIdsAll(UnfoldChildren(rows, nodes, h, nodes[h].children))
  {
    assert nodes[h] == NodeAfter(rows, mapping, h, |rows|);
    DivAttrsId(rows[h]);
  }

  /** Every row whose parent is `h` has its handle among the children of `h` in the arena. */
  lemma ChildHandle(rows: seq<StructRow>, mapping: map<string, string>, nodes: seq<DivNode>, h: nat, c: nat)
    requires h < |rows| && c < |rows| && nodes == Arena(rows, mapping) && ParentOf(rows, c) == Some(h)
    ensures exists i :: 0 <= i < |nodes[h].children| && nodes[h].children[i] == Handle(c)
  {
    var hs := ChildrenBefore(rows, h, |rows|);
    ChildrenBeforeSpec(rows, h, |rows|);
    assert c in hs;
    var j :| 0 <= j < |hs| && hs[j] == c;
    var pc := PointerChildren(rows[h], mapping);
    var cs := pc + Handles(hs);
    assert nodes[h] == NodeAfter(rows, mapping, h, |rows|);
    assert nodes[h].children == cs;
    assert cs[|pc| + j] == Handles(hs)[j] == Handle(c);
  }

  /** One step up a parent chain: being below a child of `h` means being below `h`. */
  lemma BelowParent(rows: seq<StructRow>, s: nat, c: nat, h: nat)
    requires Acyclic(rows) && s < |rows| && c < |rows| && h < |rows| && ParentOf(rows, c) == Some(h)
    requires Below(rows, s, c)
    ensures Below(rows, s, h)
  {
    LevelStep(rows, c);
    UpStep(rows, s, Level(rows, s) - Level(rows, c));
  }

  /** Below a strict ancestor `h`, the chain from `s` passes through a child of `h`. */
  lemma BelowChild(rows: seq<StructRow>, s: nat, h: nat) returns (c: nat)
    requires Acyclic(rows) && s < |rows| && h < |rows| && Below(rows, s, h) && s != h
    ensures c < |rows| && ParentOf(rows, c) == Some(h) && Below(rows, s, c)
  {
    var k := Level(rows, s) - Level(rows, h);
    assert k > 0;
    UpStep(rows, s, k - 1);
    c := Up(rows, s, k - 1).value;
    UpLevel(rows, s, k - 1);
    LevelStep(rows, c);
  }

  /** An ID found below division `h`, other than its own, lies in the division of one of its child rows. */
  lemma ChildContaining(rows: seq<StructRow>, nodes: seq<DivNode>, h: nat, id: string) returns (c: nat)
    requires Acyclic(rows) && Shaped(rows, nodes) && h < |rows|
    requires id in DivIdsAll(UnfoldChildren(rows, nodes, h, nodes[h].children))
    ensures c < |rows| && ParentOf(rows, c) == Some(h) && id in DivIds(Unfold(rows, nodes, c))
  {
    var cs := nodes[h].children;
    InChildren(rows, nodes, h, cs, id);
    var i :| 0 <= i < |cs| && cs[i].Handle? && id in DivIds(Unfold(rows, nodes, cs[i].h));
    c := cs[i].h;
  }

  /** The division of row `h` holds only IDs of rows in its subtree. */
  lemma {:induction false} SubtreeSound(rows: seq<StructRow>, mapping: map<string, string>, nodes: seq<DivNode>, h: nat, s: nat)
    requires Acyclic(rows) && UniqueIds(rows) && h < |rows| && s < |rows|
    requires nodes == Arena(rows, mapping) && Shaped(rows, nodes)
    requires rows[s].structId in DivIds(Unfold(rows, nodes, h))
    ensures Below(rows, s, h)
    decreases |rows| - Level(rows, h)
  {
    UnfoldIds(rows, mapping, nodes, h);
    if rows[s].structId != rows[h].structId {
      var c := ChildContaining(rows, nodes, h, rows[s].structId);
      LevelStep(rows, c);
      SubtreeSound(rows, mapping, nodes, c, s);
      BelowParent(rows, s, c, h);
    }
  }

  /** The division of row `h` holds the ID of every row in its subtree. */
  lemma {:induction false} SubtreeComplete(rows: seq<StructRow>, mapping: map<string, string>, nodes: seq<DivNode>, h: nat, s: nat)
    requires Acyclic(rows) && h < |rows| && s < |rows|
    requires nodes == Arena(rows, mapping) && Shaped(rows, nodes)
    requires Below(rows, s, h)
    ensures rows[s].structId in DivIds(Unfold(rows, nodes, h))
    decreases |rows| - Level(rows, h)
  {
    UnfoldIds(rows, mapping, nodes, h);
    if s != h {
      var c := BelowChild(rows, s, h);
      LevelStep(rows, c);
      SubtreeComplete(rows, mapping, nodes, c, s);
      ChildHandle(rows, mapping, nodes, h, c);
      InChildren(rows, nodes, h, nodes[h].children, rows[s].structId);
    }
  }

  /** Every row lies below the row its parent chain stops at. */
  lemma TopBelow(rows: seq<StructRow>, s: nat)
    requires Acyclic(rows) && s < |rows|
    ensures Below(rows, s, Top(rows, s, |rows|))
  {
    assert ChainEnds(rows, s, |rows|);
    UpTop(rows, s, |rows|);
  }

  /** The only row without a recorded parent that a row lies below is where its chain stops. */
  lemma BelowTop(rows: seq<StructRow>, s: nat, h: nat)
    requires Acyclic(rows) && s < |rows| && h < |rows| && ParentOf(rows, h).None? && Below(rows, s, h)
    ensures h == Top(rows, s, |rows|)
  {
    assert ChainEnds(rows, s, |rows|);
    UpTop(rows, s, |rows|);
  }

  /**
   * A row's division appears in the structure map exactly when the row's
   * parent chain ends at a top-level row (null or empty `parent_id`); a chain
   * that ends at a `parent_id` naming no row loses the whole branch.
   */
  lemma Appears(rows: seq<StructRow>, mapping: map<string, string>, s: nat)
    requires Acyclic(rows) && UniqueIds(rows) && s < |rows|
    ensures rows[s].structId in DivIdsAll(StructMapElement(rows, mapping).children)
        <==> IsTopLevel(rows[Top(rows, s, |rows|)])
  {
    ArenaShaped(rows, mapping);
    TopLevelBeforeSpec(rows, |rows|);
    var nodes := Arena(rows, mapping);
    var roots := TopLevel(rows);
    var id := rows[s].structId;
    assert StructMapElement(rows, mapping).children == UnfoldAll(rows, nodes, roots);
    InForest(rows, nodes, roots, id);
    var t := Top(rows, s, |rows|);
    TopBelow(rows, s);
    if id in DivIdsAll(UnfoldAll(rows, nodes, roots)) {
      var i :| 0 <= i < |roots| && id in DivIds(Unfold(rows, nodes, roots[i]));
      assert roots[i] in roots;
      SubtreeSound(rows, mapping, nodes, roots[i], s);
      BelowTop(rows, s, roots[i]);
    }
    if IsTopLevel(rows[t]) {
      assert t in roots;
      var i :| 0 <= i < |roots| && roots[i] == t;
      SubtreeComplete(rows, mapping, nodes, t, s);
    }
  }
}
