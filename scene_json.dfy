/**
 * The decoded scene file that complex1.cpp's `parseNode` walks, the defaults
 * it applies, and the post-order layout in which it appends nodes to `flatList`.
 * JSON decoding itself is not modelled: a node is a record of optional keys
 * plus its `children` array (an absent array and an empty one behave alike).
 */
module SceneJson {
  import opened Optional
  import opened Transforms

  datatype Vec3 = Vec3(a: real, b: real, c: real)

  datatype JsonNode = JsonNode(
    name: Option<string>,
    kind: Option<string>,
    pos: Option<Vec3>,
    rot: Option<Vec3>,
    scale: Option<Vec3>,
    isAnimated: Option<bool>,
    speed: Option<real>,
    model: Option<string>,
    children: seq<JsonNode>)

  /** The whole file: the `root` array. */
  datatype SceneFile = SceneFile(root: seq<JsonNode>)

  // ---------------------------------------------------------------------
  // Field values with their defaults
  // ---------------------------------------------------------------------

  function NameOf(j: JsonNode): string {
    match j.name
    case Some(s) => s
    case None => "Unnamed"
  }

  /** The `type` key. */
  function KindOf(j: JsonNode): string {
    match j.kind
    case Some(s) => s
    case None => "group"
  }

  function VecOr(v: Option<Vec3>, default: Vec3): Vec3 {
    match v
    case Some(w) => w
    case None => default
  }

  function PoseOf(j: JsonNode): Transform {
    var p := VecOr(j.pos, Vec3(0.0, 0.0, 0.0));
    var r := VecOr(j.rot, Vec3(0.0, 0.0, 0.0));
    var s := VecOr(j.scale, Vec3(1.0, 1.0, 1.0));
    Transform(p.a, p.b, p.c, r.a, r.b, r.c, s.a, s.b, s.c)
  }

  function AnimatedOf(j: JsonNode): bool {
    match j.isAnimated
    case Some(b) => b
    case None => false
  }

  function SpeedOf(j: JsonNode): real {
    match j.speed
    case Some(s) => s
    case None => 1.0
  }

  /** The model a node asks the cache for: only a `"mesh"` node with a `model` key asks. */
  function MeshRequest(j: JsonNode): Option<string> {
    if KindOf(j) == "mesh" && j.model.Some? then j.model else None
  }

  /** Each absent key takes its default, and a present key is used as given. */
  lemma KeysAndDefaults(j: JsonNode)
    ensures NameOf(j) == (if j.name.Some? then j.name.value else "Unnamed")
    ensures KindOf(j) == (if j.kind.Some? then j.kind.value else "group")
    ensures j.pos.None? ==> PoseOf(j).x == 0.0 && PoseOf(j).y == 0.0 && PoseOf(j).z == 0.0
    ensures j.pos.Some? ==> PoseOf(j).x == j.pos.value.a && PoseOf(j).y == j.pos.value.b && PoseOf(j).z == j.pos.value.c
    ensures j.rot.None? ==> PoseOf(j).rx == 0.0 && PoseOf(j).ry == 0.0 && PoseOf(j).rz == 0.0
    ensures j.rot.Some? ==> PoseOf(j).rx == j.rot.value.a && PoseOf(j).ry == j.rot.value.b && PoseOf(j).rz == j.rot.value.c
    ensures j.scale.None? ==> PoseOf(j).sx == 1.0 && PoseOf(j).sy == 1.0 && PoseOf(j).sz == 1.0
    ensures j.scale.Some? ==> PoseOf(j).sx == j.scale.value.a && PoseOf(j).sy == j.scale.value.b && PoseOf(j).sz == j.scale.value.c
    ensures AnimatedOf(j) == (j.isAnimated.Some? && j.isAnimated.value)
    ensures SpeedOf(j) == (if j.speed.Some? then j.speed.value else 1.0)
    ensures MeshRequest(j).Some? <==> KindOf(j) == "mesh" && j.model.Some?
    ensures MeshRequest(j).Some? ==> MeshRequest(j) == j.model
  {
  }

  /** A node that gives only its name: a group at the origin, unrotated, unit scale, not animated, speed 1. */
  lemma NameOnlyNode(name: string)
    ensures var j := JsonNode(Some(name), None, None, None, None, None, None, None, []);
      NameOf(j) == name && KindOf(j) == "group" && PoseOf(j) == Identity &&
      !AnimatedOf(j) && SpeedOf(j) == 1.0 && MeshRequest(j) == None
  {
  }

  // ---------------------------------------------------------------------
  // Sizes and the post-order
  // ---------------------------------------------------------------------

  /** The number of nodes in a subtree. */
  function Size(j: JsonNode): nat
    decreases j
  {
    1 + SizeSum(j.children)
  }

  function SizeSum(js: seq<JsonNode>): nat
    decreases js
  {
    if js == [] then 0 else SizeSum(js[..|js| - 1]) + Size(js[|js| - 1])
  }

  /** The post-order of a subtree: every child subtree in declaration order, then the node itself. */
  function PostOrder(j: JsonNode): seq<JsonNode>
    decreases j
  {
    PostOrderSeq(j.children) + [j]
  }

  function PostOrderSeq(js: seq<JsonNode>): seq<JsonNode>
    decreases js
  {
    if js == [] then [] else PostOrderSeq(js[..|js| - 1]) + PostOrder(js[|js| - 1])
  }

  /**
   * One slot of the flattened list: the decoded node placed there and the
   * absolute positions of its children's slots.
   */
  datatype Entry = Entry(json: JsonNode, childPos: seq<nat>)

  /** The slots a subtree fills when its first slot is at position `base`. */
  function Layout(j: JsonNode, base: nat): seq<Entry>
    decreases j
  {
    LayoutSeq(j.children, base) + [Entry(j, Roots(j.children, base))]
  }

  function LayoutSeq(js: seq<JsonNode>, base: nat): seq<Entry>
    decreases js
  {
    if js == [] then []
    else LayoutSeq(js[..|js| - 1], base) + Layout(js[|js| - 1], base + SizeSum(js[..|js| - 1]))
  }

  /** Where the roots of consecutive subtrees land: each subtree's root is its last slot. */
  function Roots(js: seq<JsonNode>, base: nat): seq<nat>
    decreases |js|
  {
    if js == [] then []
    else Roots(js[..|js| - 1], base) + [base + SizeSum(js[..|js| - 1]) + Size(js[|js| - 1]) - 1]
  }

  /** The slots of a subtree are its nodes, in post-order. */
  lemma {:induction false} LayoutIsPostOrder(j: JsonNode, base: nat)
    ensures |Layout(j, base)| == Size(j) == |PostOrder(j)|
    ensures forall k :: 0 <= k < Size(j) ==> Layout(j, base)[k].json == PostOrder(j)[k]
    ensures Layout(j, base)[Size(j) - 1] == Entry(j, Roots(j.children, base))
    decreases j
  {
    LayoutSeqIsPostOrder(j.children, base);
  }

  lemma {:induction false} LayoutSeqIsPostOrder(js: seq<JsonNode>, base: nat)
    ensures |LayoutSeq(js, base)| == SizeSum(js) == |PostOrderSeq(js)|
    ensures forall k :: 0 <= k < SizeSum(js) ==> LayoutSeq(js, base)[k].json == PostOrderSeq(js)[k]
    decreases js
  {
    if js != [] {
      var init := js[..|js| - 1];
      LayoutSeqIsPostOrder(init, base);
      LayoutIsPostOrder(js[|js| - 1], base + SizeSum(init));
    }
  }

  /** Parsing one more child appends that child's layout, and its root slot, after the earlier ones. */
  lemma LayoutSeqStep(js: seq<JsonNode>, i: nat, base: nat)
    requires i < |js|
    ensures |LayoutSeq(js[..i], base)| == SizeSum(js[..i])
    ensures |Layout(js[i], base + SizeSum(js[..i]))| == Size(js[i])
    ensures LayoutSeq(js[..i + 1], base) == LayoutSeq(js[..i], base) + Layout(js[i], base + SizeSum(js[..i]))
    ensures Roots(js[..i + 1], base) == Roots(js[..i], base) + [base + SizeSum(js[..i]) + Size(js[i]) - 1]
  {
    assert js[..i + 1][..i] == js[..i] && js[..i + 1][i] == js[i];
    LayoutSeqIsPostOrder(js[..i], base);
    LayoutIsPostOrder(js[i], base + SizeSum(js[..i]));
  }

  /** Child `i`'s slots follow the `a` slots of the children before it, and its root is the last of them. */
  lemma SlotsStep(js: seq<JsonNode>, i: nat, base: nat, a: nat)
    requires i < |js| && a == SizeSum(js[..i])
    ensures |Layout(js[i], base + a)| == Size(js[i]) > 0
    ensures LayoutSeq(js[..i + 1], base) == LayoutSeq(js[..i], base) + Layout(js[i], base + a)
    ensures Roots(js[..i + 1], base) == Roots(js[..i], base) + [base + a + Size(js[i]) - 1]
  {
    LayoutSeqStep(js, i, base);
  }

  /** Parsing a prefix of a child list fills a prefix of the slots. */
  lemma {:induction false} LayoutSeqPrefix(js: seq<JsonNode>, m: nat, base: nat)
    requires m <= |js|
    ensures |LayoutSeq(js, base)| == SizeSum(js)
    ensures SizeSum(js[..m]) <= SizeSum(js)
    ensures LayoutSeq(js[..m], base) == LayoutSeq(js, base)[..SizeSum(js[..m])]
    decreases |js|
  {
    LayoutSeqIsPostOrder(js, base);
    LayoutSeqIsPostOrder(js[..m], base);
    if m < |js| {
      var init := js[..|js| - 1];
      assert init[..m] == js[..m];
      LayoutSeqPrefix(init, m, base);
      LayoutSeqIsPostOrder(init, base);
    } else {
      assert js[..m] == js;
    }
  }

  /** Root `i` lands at the last slot of the `i`-th subtree. */
  lemma {:induction false} RootsAt(js: seq<JsonNode>, base: nat)
    ensures |Roots(js, base)| == |js|
    ensures forall i :: 0 <= i < |js| ==>
      Roots(js, base)[i] == base + SizeSum(js[..i + 1]) - 1 && base <= Roots(js, base)[i] < base + SizeSum(js)
    decreases |js|
  {
    if js != [] {
      var init := js[..|js| - 1];
      RootsAt(init, base);
      forall i | 0 <= i < |js|
        ensures Roots(js, base)[i] == base + SizeSum(js[..i + 1]) - 1
        ensures base <= Roots(js, base)[i] < base + SizeSum(js)
      {
        if i < |init| {
          assert init[..i + 1] == js[..i + 1];
          assert js[..i + 1][..i] == js[..i];
        } else {
          assert js[..i + 1] == js;
        }
      }
    }
  }

  /** The slot a root lands on holds that root. */
  lemma RootEntry(js: seq<JsonNode>, base: nat, i: nat)
    requires i < |js|
    ensures |Roots(js, base)| == |js| && |LayoutSeq(js, base)| == SizeSum(js)
    ensures base <= Roots(js, base)[i] < base + SizeSum(js)
    ensures LayoutSeq(js, base)[Roots(js, base)[i] - base].json == js[i]
  {
    RootsAt(js, base);
    var at := SizeSum(js[..i + 1]) - 1;
    assert Roots(js, base)[i] - base == at;
    LastOfPrefix(js, base, i);
    LayoutSeqPrefix(js, i + 1, base);
    assert LayoutSeq(js, base)[at] == LayoutSeq(js[..i + 1], base)[at];
  }

  /** The last slot filled by the first `i + 1` subtrees holds root `i`. */
  lemma LastOfPrefix(js: seq<JsonNode>, base: nat, i: nat)
    requires i < |js|
    ensures |LayoutSeq(js[..i + 1], base)| == SizeSum(js[..i + 1]) > 0
    ensures LayoutSeq(js[..i + 1], base)[SizeSum(js[..i + 1]) - 1].json == js[i]
  {
    var pre := js[..i + 1];
    assert pre[..|pre| - 1] == js[..i];
    var front := LayoutSeq(js[..i], base);
    var sub := Layout(js[i], base + SizeSum(js[..i]));
    assert LayoutSeq(pre, base) == front + sub;
    LayoutSeqIsPostOrder(js[..i], base);
    LayoutIsPostOrder(js[i], base + SizeSum(js[..i]));
    LayoutSeqIsPostOrder(pre, base);
    assert (front + sub)[|front| + |sub| - 1] == sub[|sub| - 1];
  }

  /**
   * Slot `k` is wired as a tree laid out in post-order: it lists one
   * position per child of its node, every such position is earlier than
   * `k`, and the slot there holds that child.
   */
  ghost predicate SlotWired(es: seq<Entry>, base: nat, k: nat)
    requires k < |es|
  {
    |es[k].childPos| == |es[k].json.children| &&
    forall i :: 0 <= i < |es[k].childPos| ==>
      base <= es[k].childPos[i] < base + k &&
      es[es[k].childPos[i] - base].json == es[k].json.children[i]
  }

  ghost predicate Wired(es: seq<Entry>, base: nat) {
    forall k :: 0 <= k < |es| ==> SlotWired(es, base, k)
  }

  lemma {:induction false} LayoutWired(j: JsonNode, base: nat)
    ensures Wired(Layout(j, base), base)
    decreases j
  {
    var cs := j.children;
    var front := LayoutSeq(cs, base);
    LayoutSeqWired(cs, base);
    LayoutSeqIsPostOrder(cs, base);
    var es := front + [Entry(j, Roots(cs, base))];
    forall k | 0 <= k < |front|
      ensures SlotWired(es, base, k)
    {
      assert SlotWired(front, base, k);
      PrefixSlotWired(front, [Entry(j, Roots(cs, base))], base, k);
    }
    ParentSlotWired(j, base);
  }

  /** Appending slots leaves the wiring of the earlier slots as it was. */
  lemma PrefixSlotWired(a: seq<Entry>, b: seq<Entry>, base: nat, k: nat)
    requires k < |a| && SlotWired(a, base, k)
    ensures SlotWired(a + b, base, k)
  {
    var es := a + b;
    assert es[k] == a[k];
    forall i | 0 <= i < |a[k].childPos|
      ensures es[a[k].childPos[i] - base] == a[a[k].childPos[i] - base]
    {
    }
  }

  /** Prepending slots shifts the wiring of the later slots along with them. */
  lemma ShiftSlotWired(a: seq<Entry>, b: seq<Entry>, base: nat, k: nat)
    requires k < |b| && SlotWired(b, base + |a|, k)
    ensures SlotWired(a + b, base, |a| + k)
  {
    var es := a + b;
    assert es[|a| + k] == b[k];
    forall i | 0 <= i < |b[k].childPos|
      ensures es[b[k].childPos[i] - base] == b[b[k].childPos[i] - (base + |a|)]
    {
    }
  }

  /** A subtree's last slot lists exactly the slots of its children's roots. */
  lemma ParentSlotWired(j: JsonNode, base: nat)
    ensures |Layout(j, base)| == Size(j)
    ensures SlotWired(Layout(j, base), base, Size(j) - 1)
  {
    var cs := j.children;
    var front := LayoutSeq(cs, base);
    var roots := Roots(cs, base);
    if cs != [] {
      RootEntry(cs, base, 0);
    }
    forall i | 0 <= i < |roots|
      ensures base <= roots[i] < base + |front| && front[roots[i] - base].json == cs[i]
    {
      RootEntry(cs, base, i);
    }
    ParentEntryWired(front, j, roots, base);
    assert Layout(j, base) == front + [Entry(j, roots)];
  }

  /** The slot appended after `front` lists the slots holding its node's children. */
  lemma ParentEntryWired(front: seq<Entry>, j: JsonNode, roots: seq<nat>, base: nat)
    requires |roots| == |j.children|
    requires forall i :: 0 <= i < |roots| ==>
      base <= roots[i] < base + |front| && front[roots[i] - base].json == j.children[i]
    ensures SlotWired(front + [Entry(j, roots)], base, |front|)
  {
    var es := front + [Entry(j, roots)];
    forall i | 0 <= i < |roots|
      ensures es[roots[i] - base] == front[roots[i] - base]
    {
    }
  }

  lemma {:induction false} LayoutSeqWired(js: seq<JsonNode>, base: nat)
    ensures Wired(LayoutSeq(js, base), base)
    decreases js
  {
    if js != [] {
      var init := js[..|js| - 1];
      var a := LayoutSeq(init, base);
      var b := Layout(js[|js| - 1], base + SizeSum(init));
      LayoutSeqWired(init, base);
      LayoutWired(js[|js| - 1], base + SizeSum(init));
      LayoutSeqIsPostOrder(init, base);
      forall k | 0 <= k < |a| + |b|
        ensures SlotWired(a + b, base, k)
      {
        if k < |a| {
          assert SlotWired(a, base, k);
          PrefixSlotWired(a, b, base, k);
        } else {
          assert SlotWired(b, base + |a|, k - |a|);
          ShiftSlotWired(a, b, base, k - |a|);
        }
      }
    }
  }

  /** Every node of a subtree is laid out after all the nodes below it. */
  lemma DescendantsFirst(j: JsonNode, base: nat, k: nat, i: nat)
    requires k < Size(j)
    ensures |Layout(j, base)| == Size(j)
    ensures i < |Layout(j, base)[k].childPos| ==>
      base <= Layout(j, base)[k].childPos[i] < base + k
  {
    LayoutIsPostOrder(j, base);
    LayoutWired(j, base);
    assert SlotWired(Layout(j, base), base, k);
  }
}
