/**
 * complex1.cpp's `Node::DrawLegacy` as the sequence of matrix-stack events it
 * issues, and the GL modelview stack as a small machine that executes them.
 * Matrices are never computed: the current matrix is the list of ops applied
 * to it, in call order.
 */
module DrawTrace {
  import opened Optional
  import opened Transforms

  datatype Op =
    | Translate(x: real, y: real, z: real)
    | RotateZ(angle: real)
    | RotateY(angle: real)
    | RotateX(angle: real)
    | Scale(x: real, y: real, z: real)

  datatype Event = Push | Matrix(op: Op) | Draw(model: string, highlighted: bool) | Pop

  /**
   * A node subtree as the drawing code reads it: its transform, the model it
   * draws (present only for a loaded model), its selection flag and children.
   */
  datatype NodeTree = NodeTree(pose: Transform, mesh: Option<string>, selected: bool, children: seq<NodeTree>)

  /** The transform of one node: translate, then rotate about Z, Y and X, then scale. */
  function LocalOps(t: Transform): seq<Op> {
    [Translate(t.x, t.y, t.z), RotateZ(t.rz), RotateY(t.ry), RotateX(t.rx), Scale(t.sx, t.sy, t.sz)]
  }

  function Applies(ops: seq<Op>): seq<Event>
    decreases |ops|
  {
    if ops == [] then [] else [Matrix(ops[0])] + Applies(ops[1..])
  }

  /** The five matrix calls of one node, in call order. */
  lemma LocalEvents(t: Transform)
    ensures Applies(LocalOps(t)) ==
      [Matrix(Translate(t.x, t.y, t.z)), Matrix(RotateZ(t.rz)), Matrix(RotateY(t.ry)), Matrix(RotateX(t.rx)),
       Matrix(Scale(t.sx, t.sy, t.sz))]
  {
    var ops := LocalOps(t);
    assert Applies(ops[4..]) == [Matrix(ops[4])];
    assert Applies(ops[3..]) == [Matrix(ops[3])] + Applies(ops[4..]);
    assert Applies(ops[2..]) == [Matrix(ops[2])] + Applies(ops[3..]);
    assert Applies(ops[1..]) == [Matrix(ops[1])] + Applies(ops[2..]);
  }

  function MeshEvents(n: NodeTree): seq<Event> {
    if n.mesh.Some? then [Draw(n.mesh.value, n.selected)] else []
  }

  /** The events one call of `DrawLegacy` issues on a subtree. */
  function Trace(n: NodeTree): seq<Event>
    decreases n
  {
    [Push] + Applies(LocalOps(n.pose)) + MeshEvents(n) + TraceSeq(n.children) + [Pop]
  }

  function TraceSeq(ns: seq<NodeTree>): seq<Event>
    decreases ns
  {
    if ns == [] then [] else TraceSeq(ns[..|ns| - 1]) + Trace(ns[|ns| - 1])
  }

  /** A model that reached the screen, its highlight, and the ops of the matrix it was drawn under. */
  datatype Drawn = Drawn(model: string, highlighted: bool, ops: seq<Op>)

  /**
   * What a subtree should put on screen under the matrix `outer`: the nodes
   * in pre-order, each under its ancestors' ops followed by its own.
   */
  function Draws(n: NodeTree, outer: seq<Op>): seq<Drawn>
    decreases n
  {
    var here := outer + LocalOps(n.pose);
    (if n.mesh.Some? then [Drawn(n.mesh.value, n.selected, here)] else []) + DrawsSeq(n.children, here)
  }

  function DrawsSeq(ns: seq<NodeTree>, outer: seq<Op>): seq<Drawn>
    decreases ns
  {
    if ns == [] then [] else DrawsSeq(ns[..|ns| - 1], outer) + Draws(ns[|ns| - 1], outer)
  }

  // ---------------------------------------------------------------------
  // The matrix stack
  // ---------------------------------------------------------------------

  /** The modelview stack (its last element is the current matrix) and what was drawn so far. */
  datatype Machine = Machine(stack: seq<seq<Op>>, drawn: seq<Drawn>)

  /** One event; `None` is a stack error (popping the bottom matrix). */
  function Step(m: Machine, e: Event): Option<Machine> {
    if m.stack == [] then None
    else
      var top := m.stack[|m.stack| - 1];
      var below := m.stack[..|m.stack| - 1];
      match e
      case Push => Some(m.(stack := m.stack + [top]))
      case Matrix(op) => Some(m.(stack := below + [top + [op]]))
      case Draw(name, highlighted) => Some(m.(drawn := m.drawn + [Drawn(name, highlighted, top)]))
      case Pop => if below == [] then None else Some(m.(stack := below))
  }

  function Run(m: Machine, es: seq<Event>): Option<Machine>
    decreases |es|
  {
    if es == [] then Some(m)
    else
      match Step(m, es[0])
      case None => None
      case Some(m') => Run(m', es[1..])
  }

  /** Running two event lists one after the other. */
  lemma {:induction false} RunAppend(m: Machine, a: seq<Event>, b: seq<Event>)
    ensures Run(m, a + b) == (match Run(m, a) case None => None case Some(m') => Run(m', b))
    decreases |a|
  {
    if a != [] {
      assert (a + b)[0] == a[0] && (a + b)[1..] == a[1..] + b;
      match Step(m, a[0])
      case None =>
      case Some(m') => RunAppend(m', a[1..], b);
    } else {
      assert a + b == b;
    }
  }

  /** Applying ops extends the current matrix by them, in order. */
  lemma {:induction false} RunApplies(below: seq<seq<Op>>, top: seq<Op>, drawn: seq<Drawn>, ops: seq<Op>)
    ensures Run(Machine(below + [top], drawn), Applies(ops)) == Some(Machine(below + [top + ops], drawn))
    decreases |ops|
  {
    if ops == [] {
      assert top + ops == top;
    } else {
      ApplyFirst(below, top, drawn, ops);
      RunApplies(below, top + [ops[0]], drawn, ops[1..]);
      assert top + [ops[0]] + ops[1..] == top + ops;
    }
  }

  /** The first matrix call extends the current matrix by its op; the rest run from there. */
  lemma ApplyFirst(below: seq<seq<Op>>, top: seq<Op>, drawn: seq<Drawn>, ops: seq<Op>)
    requires ops != []
    ensures Run(Machine(below + [top], drawn), Applies(ops)) ==
            Run(Machine(below + [top + [ops[0]]], drawn), Applies(ops[1..]))
  {
    var m := Machine(below + [top], drawn);
    var es := Applies(ops);
    assert es[0] == Matrix(ops[0]) && es[1..] == Applies(ops[1..]);
    assert (below + [top])[..|below|] == below;
    assert Step(m, es[0]) == Some(Machine(below + [top + [ops[0]]], drawn));
  }

  /** The models a node draws itself, under the matrix `here`. */
  function OwnDraws(n: NodeTree, here: seq<Op>): seq<Drawn> {
    if n.mesh.Some? then [Drawn(n.mesh.value, n.selected, here)] else []
  }

  /** The events before a node's children: push, its five ops, its own model. */
  lemma EnterNode(n: NodeTree, below: seq<seq<Op>>, top: seq<Op>, drawn: seq<Drawn>)
    ensures Run(Machine(below + [top], drawn), [Push] + Applies(LocalOps(n.pose)) + MeshEvents(n)) ==
      Some(Machine(below + [top] + [top + LocalOps(n.pose)], drawn + OwnDraws(n, top + LocalOps(n.pose))))
  {
    var m := Machine(below + [top], drawn);
    var ops := LocalOps(n.pose);
    var here := top + ops;
    var pushed := below + [top];
    var m1 := Machine(pushed + [top], drawn);
    assert Step(m, Push) == Some(m1);
    assert Run(m, [Push]) == Some(m1);
    RunApplies(pushed, top, drawn, ops);
    var m2 := Machine(pushed + [here], drawn);
    RunAppend(m, [Push], Applies(ops));
    var m3 := Machine(pushed + [here], drawn + OwnDraws(n, here));
    if n.mesh.Some? {
      var d := Draw(n.mesh.value, n.selected);
      assert MeshEvents(n) == [d] && [d][1..] == [];
      assert Step(m2, d) == Some(m3);
    } else {
      assert MeshEvents(n) == [] && drawn + OwnDraws(n, here) == drawn;
    }
    assert Run(m2, MeshEvents(n)) == Some(m3);
    RunAppend(m, [Push] + Applies(ops), MeshEvents(n));
  }

  /**
   * Drawing a subtree leaves the stack exactly as it found it, never pops
   * the bottom matrix, and draws the subtree's models in pre-order, each
   * under the current matrix followed by its ancestors' and its own ops.
   */
  lemma {:induction false} TraceBalanced(n: NodeTree, below: seq<seq<Op>>, top: seq<Op>, drawn: seq<Drawn>)
    ensures Run(Machine(below + [top], drawn), Trace(n)) == Some(Machine(below + [top], drawn + Draws(n, top)))
    decreases n
  {
    var m := Machine(below + [top], drawn);
    var here := top + LocalOps(n.pose);
    var pushed := below + [top];
    var head := [Push] + Applies(LocalOps(n.pose)) + MeshEvents(n);
    var own := drawn + OwnDraws(n, here);
    EnterNode(n, below, top, drawn);
    TraceSeqBalanced(n.children, pushed, here, own);
    RunAppend(m, head, TraceSeq(n.children));
    var m4 := Machine(pushed + [here], own + DrawsSeq(n.children, here));
    assert (pushed + [here])[..|pushed|] == pushed;
    assert Run(m4, [Pop]) == Some(Machine(pushed, m4.drawn));
    RunAppend(m, head + TraceSeq(n.children), [Pop]);
    assert own + DrawsSeq(n.children, here) == drawn + Draws(n, top);
  }

  lemma {:induction false} TraceSeqBalanced(ns: seq<NodeTree>, below: seq<seq<Op>>, top: seq<Op>, drawn: seq<Drawn>)
    ensures Run(Machine(below + [top], drawn), TraceSeq(ns)) == Some(Machine(below + [top], drawn + DrawsSeq(ns, top)))
    decreases ns
  {
    if ns != [] {
      var init := ns[..|ns| - 1];
      var m := Machine(below + [top], drawn);
      TraceSeqBalanced(init, below, top, drawn);
      TraceBalanced(ns[|ns| - 1], below, top, drawn + DrawsSeq(init, top));
      RunAppend(m, TraceSeq(init), Trace(ns[|ns| - 1]));
      assert drawn + DrawsSeq(init, top) + Draws(ns[|ns| - 1], top) == drawn + DrawsSeq(ns, top);
    } else {
      assert drawn + DrawsSeq(ns, top) == drawn;
    }
  }

  /**
   * Drawing a list of roots from a stack holding one empty matrix leaves that
   * stack as it was and draws every model under its ancestors' ops, in pre-order.
   */
  lemma SceneBalanced(roots: seq<NodeTree>)
    ensures Run(Machine([[]], []), TraceSeq(roots)) == Some(Machine([[]], DrawsSeq(roots, [])))
  {
    var empty: seq<Op> := [];
    var none: seq<Drawn> := [];
    TraceSeqBalanced(roots, [], empty, none);
    assert [] + [empty] == [empty] && none + DrawsSeq(roots, empty) == DrawsSeq(roots, empty);
  }

  /** Every model drawn in a subtree is drawn under the matrix that was current on entry, extended. */
  lemma {:induction false} AncestorsFirst(n: NodeTree, outer: seq<Op>)
    ensures forall d :: d in Draws(n, outer) ==> |outer| + 5 <= |d.ops| && d.ops[..|outer| + 5] == outer + LocalOps(n.pose)
    decreases n
  {
    var here := outer + LocalOps(n.pose);
    AncestorsFirstSeq(n.children, here);
  }

  lemma {:induction false} AncestorsFirstSeq(ns: seq<NodeTree>, outer: seq<Op>)
    ensures forall d :: d in DrawsSeq(ns, outer) ==> |outer| <= |d.ops| && d.ops[..|outer|] == outer
    decreases ns
  {
    if ns != [] {
      var init := ns[..|ns| - 1];
      var last := ns[|ns| - 1];
      AncestorsFirstSeq(init, outer);
      AncestorsFirst(last, outer);
      forall d | d in Draws(last, outer)
        ensures |outer| <= |d.ops| && d.ops[..|outer|] == outer
      {
        assert d.ops[..|outer|] == d.ops[..|outer| + 5][..|outer|];
      }
    }
  }
}
