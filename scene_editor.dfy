/**
 * versions/complex1.cpp: a scene tree read from a JSON file. Every node is
 * also appended to a flat list, in post-order, which TAB walks; an
 * `isSelected` flag marks the selected node. Models come from a name-keyed
 * cache, as in main.cpp but without textures.
 *
 * The globals become the fields of `Editor`; `Node` and `Model` become
 * classes. The OBJ loader is a deterministic function handed to the editor,
 * and a ghost log records every path passed to it. The shape of the tree is
 * kept beside `flatList` as ghost slot numbers: for each slot, the slots of
 * its node's children, and the slots of the roots in `sceneGraph`.
 */
module SceneEditor {
  import opened Optional
  import opened Transforms
  import opened Cycling
  import opened ObjMesh
  import opened SceneJson
  import opened DrawTrace
  import opened Sequences

  const ModelDir := "models/"

  /** The path `GetModel` hands to the OBJ loader. */
  function ModelPath(filename: string): string {
    ModelDir + filename
  }

  /** Distinct names give distinct loader paths. */
  lemma ModelPathInjective(a: string, b: string)
    ensures ModelPath(a) == ModelPath(b) ==> a == b
  {
    if ModelPath(a) == ModelPath(b) {
      assert a == ModelPath(a)[|ModelDir|..];
    }
  }

  class Model {
    const name: string
    const vertices: seq<real>
    const normals: seq<real>
    const loaded: bool

    constructor (name: string, vertices: seq<real>, normals: seq<real>)
      ensures this.name == name && this.vertices == vertices && this.normals == normals && loaded
    {
      this.name := name;
      this.vertices := vertices;
      this.normals := normals;
      this.loaded := true;
    }
  }

  /** The position of the first cached model called `name`. */
  function Find(models: seq<Model>, name: string): (r: Option<nat>)
    ensures r.None? <==> forall i :: 0 <= i < |models| ==> models[i].name != name
    ensures r.Some? ==> r.value < |models| && models[r.value].name == name
    ensures r.Some? ==> forall i :: 0 <= i < r.value ==> models[i].name != name
  {
    if models == [] then None
    else if models[0].name == name then Some(0)
    else
      match Find(models[1..], name)
      case None => None
      case Some(i) => Some(i + 1)
  }

  /** The loader path of every cache entry, in cache order. */
  function CachedPaths(models: seq<Model>): (r: seq<string>)
    ensures |r| == |models| && forall k :: 0 <= k < |models| ==> r[k] == ModelPath(models[k].name)
  {
    if models == [] then []
    else CachedPaths(models[..|models| - 1]) + [ModelPath(models[|models| - 1].name)]
  }

  /** `path` is the path of an entry of `models`. */
  ghost predicate Cached(path: string, models: seq<Model>) {
    path in CachedPaths(models)
  }

  // ---------------------------------------------------------------------
  // Keys and the animation step, on values
  // ---------------------------------------------------------------------

  /** What the keys and `idle` read and write of a node. */
  datatype NodeState = NodeState(pose: Transform, selected: bool, speed: real)

  const Esc := '\U{1B}'
  const Tab := '\t'

  /** `speed` and `rotSpeed` in `keyboard`, and the `[`/`]` step. */
  const Move := 0.1
  const Turn := 2.0
  const SpeedStep := 0.1

  /** The transform edit bound to a key: q/a, w/s, e/d move along X, Y, Z; r/f, t/g, y/h turn about them. */
  function KeyEdit(key: char): Option<Edit> {
    match key
    case 'q' => Some(Edit({X}, Move))
    case 'a' => Some(Edit({X}, -Move))
    case 'w' => Some(Edit({Y}, Move))
    case 's' => Some(Edit({Y}, -Move))
    case 'e' => Some(Edit({Z}, Move))
    case 'd' => Some(Edit({Z}, -Move))
    case 'r' => Some(Edit({RX}, Turn))
    case 'f' => Some(Edit({RX}, -Turn))
    case 't' => Some(Edit({RY}, Turn))
    case 'g' => Some(Edit({RY}, -Turn))
    case 'y' => Some(Edit({RZ}, Turn))
    case 'h' => Some(Edit({RZ}, -Turn))
    case _ => None
  }

  function ApplyKey(key: char, t: Transform): Transform {
    match KeyEdit(key)
    case None => t
    case Some(e) => Apply(t, e)
  }

  /** `[` slows the selected node's animation and `]` speeds it up. */
  function SpeedDelta(key: char): real {
    if key == '[' then -SpeedStep else if key == ']' then SpeedStep else 0.0
  }

  /** What a key other than TAB, ESC and `/` does to the selected node. */
  function EditNode(key: char, s: NodeState): NodeState {
    s.(pose := ApplyKey(key, s.pose), speed := s.speed + SpeedDelta(key))
  }

  /** The key that undoes another: each pair of edit keys, and `[` with `]`. */
  function UndoKey(key: char): char {
    match key
    case 'q' => 'a' case 'a' => 'q'
    case 'w' => 's' case 's' => 'w'
    case 'e' => 'd' case 'd' => 'e'
    case 'r' => 'f' case 'f' => 'r'
    case 't' => 'g' case 'g' => 't'
    case 'y' => 'h' case 'h' => 'y'
    case '[' => ']' case ']' => '['
    case _ => key
  }

  /** An edit key changes one field of the pose by its delta and leaves the other eight and the speed alone. */
  lemma EditChangesOneField(key: char, s: NodeState)
    requires KeyEdit(key).Some?
    ensures |KeyEdit(key).value.fields| == 1
    ensures EditNode(key, s).speed == s.speed && EditNode(key, s).selected == s.selected
    ensures forall f :: f !in KeyEdit(key).value.fields ==> Get(EditNode(key, s).pose, f) == Get(s.pose, f)
    ensures forall f :: f in KeyEdit(key).value.fields ==> Get(EditNode(key, s).pose, f) == Get(s.pose, f) + KeyEdit(key).value.delta
  {
  }

  /** `[` and `]` change only the speed. */
  lemma SpeedKeysOnlySpeed(s: NodeState)
    ensures EditNode('[', s) == s.(speed := s.speed - SpeedStep)
    ensures EditNode(']', s) == s.(speed := s.speed + SpeedStep)
  {
  }

  /** Pressing a key and then its partner restores the node. */
  lemma UndoKeyRestores(key: char, s: NodeState)
    requires KeyEdit(key).Some? || key == '[' || key == ']'
    ensures EditNode(UndoKey(key), EditNode(key, s)) == s
  {
    if KeyEdit(key).Some? {
      ApplyOpposite(s.pose, KeyEdit(key).value);
      assert KeyEdit(UndoKey(key)) == Some(Opposite(KeyEdit(key).value));
    }
  }

  /** One `idle` call for one node: while the clock runs, an animated node turns about Z by its speed. */
  function Tick(s: NodeState, animated: bool, running: bool): NodeState {
    if running && animated then s.(pose := s.pose.(rz := s.pose.rz + s.speed)) else s
  }

  function Ticks(s: NodeState, animated: bool, running: bool, n: nat): NodeState
    decreases n
  {
    if n == 0 then s else Tick(Ticks(s, animated, running, n - 1), animated, running)
  }

  /** With the clock stopped, or for a node that is not animated, `idle` changes nothing. */
  lemma {:induction false} IdleWithoutEffect(s: NodeState, animated: bool, running: bool, n: nat)
    requires !running || !animated
    ensures Ticks(s, animated, running, n) == s
    decreases n
  {
    if n > 0 {
      IdleWithoutEffect(s, animated, running, n - 1);
    }
  }

  /** `n` calls with the clock running turn an animated node by `n` times its speed, and change nothing else. */
  lemma {:induction false} TicksAccumulate(s: NodeState, n: nat)
    ensures Ticks(s, true, true, n) == s.(pose := s.pose.(rz := s.pose.rz + n as real * s.speed))
    decreases n
  {
    if n > 0 {
      TicksAccumulate(s, n - 1);
    }
  }

  /** The camera eye, moved by the arrow keys and page up/down. */
  datatype Eye = Eye(x: real, y: real, z: real)

  /** GLUT's codes for the special keys. */
  const KeyLeft := 100
  const KeyUp := 101
  const KeyRight := 102
  const KeyDown := 103
  const KeyPageUp := 104
  const KeyPageDown := 105
  const CamSpeed := 0.5

  function EyeKey(key: int, e: Eye): Eye {
    if key == KeyUp then e.(y := e.y + CamSpeed)
    else if key == KeyDown then e.(y := e.y - CamSpeed)
    else if key == KeyLeft then e.(x := e.x - CamSpeed)
    else if key == KeyRight then e.(x := e.x + CamSpeed)
    else if key == KeyPageUp then e.(z := e.z + CamSpeed)
    else if key == KeyPageDown then e.(z := e.z - CamSpeed)
    else e
  }

  /** Opposite camera keys undo each other, each moves one coordinate, and any other key does nothing. */
  lemma EyeKeysUndo(e: Eye, key: int)
    ensures EyeKey(KeyDown, EyeKey(KeyUp, e)) == e && EyeKey(KeyUp, EyeKey(KeyDown, e)) == e
    ensures EyeKey(KeyRight, EyeKey(KeyLeft, e)) == e && EyeKey(KeyLeft, EyeKey(KeyRight, e)) == e
    ensures EyeKey(KeyPageDown, EyeKey(KeyPageUp, e)) == e && EyeKey(KeyPageUp, EyeKey(KeyPageDown, e)) == e
    ensures !(100 <= key <= 105) ==> EyeKey(key, e) == e
  {
  }

  // ---------------------------------------------------------------------
  // The scene tree
  // ---------------------------------------------------------------------

  class Node {
    const name: string
    /** The C++ field `type`. */
    const kind: string
    var x: real, y: real, z: real
    var rx: real, ry: real, rz: real
    var sx: real, sy: real, sz: real
    const modelData: Model?
    var children: seq<Node>
    var isSelected: bool
    const isAnimated: bool
    var animSpeed: real
    /** The node's position in `flatList`, fixed when `parseNode` appends it. */
    ghost const slot: nat

    function Pose(): Transform
      reads this`x, this`y, this`z, this`rx, this`ry, this`rz, this`sx, this`sy, this`sz
    {
      Transform(x, y, z, rx, ry, rz, sx, sy, sz)
    }

    function State(): NodeState
      reads this`x, this`y, this`z, this`rx, this`ry, this`rz, this`sx, this`sy, this`sz, this`isSelected, this`animSpeed
    {
      NodeState(Pose(), isSelected, animSpeed)
    }

    constructor (name: string, kind: string, pose: Transform, isAnimated: bool, animSpeed: real,
                 modelData: Model?, children: seq<Node>, ghost slot: nat)
      ensures this.name == name && this.kind == kind && Pose() == pose
      ensures this.isAnimated == isAnimated && this.animSpeed == animSpeed && this.modelData == modelData
      ensures this.children == children && !isSelected && this.slot == slot
    {
      this.name := name;
      this.kind := kind;
      x, y, z := pose.x, pose.y, pose.z;
      rx, ry, rz := pose.rx, pose.ry, pose.rz;
      sx, sy, sz := pose.sx, pose.sy, pose.sz;
      this.modelData := modelData;
      this.children := children;
      isSelected := false;
      this.isAnimated := isAnimated;
      this.animSpeed := animSpeed;
      this.slot := slot;
    }
  }

  /** The selection flags of a list of nodes. */
  function Flags(ns: seq<Node>): (r: seq<bool>)
    reads set n | n in ns
    ensures |r| == |ns| && forall k :: 0 <= k < |ns| ==> r[k] == ns[k].isSelected
  {
    if ns == [] then [] else Flags(ns[..|ns| - 1]) + [ns[|ns| - 1].isSelected]
  }

  /** What drawing reads of one node: its transform, its model when loaded, its flag. */
  datatype NodeView = NodeView(pose: Transform, mesh: Option<string>, selected: bool)

  function View(n: Node): NodeView
    reads n
  {
    NodeView(n.Pose(), if n.modelData != null && n.modelData.loaded then Some(n.modelData.name) else None, n.isSelected)
  }

  function Views(ns: seq<Node>): (r: seq<NodeView>)
    reads set n | n in ns
    ensures |r| == |ns| && forall k :: 0 <= k < |ns| ==> r[k] == View(ns[k])
  {
    if ns == [] then [] else Views(ns[..|ns| - 1]) + [View(ns[|ns| - 1])]
  }

  /** Every child slot is earlier than its parent's: the measure drawing descends on. */
  ghost predicate Below(pos: seq<seq<nat>>) {
    forall j, i :: 0 <= j < |pos| && 0 <= i < |pos[j]| ==> pos[j][i] < j
  }

  /** The subtree under slot `k` of a flat list whose slot `j` shows `views[j]` and has children at `pos[j]`. */
  function Tree(views: seq<NodeView>, pos: seq<seq<nat>>, k: nat): NodeTree
    requires |pos| == |views| && Below(pos) && k < |views|
    decreases k, 1
  {
    NodeTree(views[k].pose, views[k].mesh, views[k].selected, Trees(views, pos, k, pos[k]))
  }

  /** The subtrees under the slots `ps`, all below `bound`. */
  function Trees(views: seq<NodeView>, pos: seq<seq<nat>>, bound: nat, ps: seq<nat>): (r: seq<NodeTree>)
    requires |pos| == |views| && Below(pos) && bound <= |views|
    requires forall i :: 0 <= i < |ps| ==> ps[i] < bound
    ensures |r| == |ps| && forall i :: 0 <= i < |ps| ==> r[i] == Tree(views, pos, ps[i])
    decreases bound, 0, |ps|
  {
    if ps == [] then [] else Trees(views, pos, bound, ps[..|ps| - 1]) + [Tree(views, pos, ps[|ps| - 1])]
  }

  /** One more subtree drawn after the first `i`. */
  lemma TraceSeqStep(ns: seq<NodeTree>, i: nat)
    requires i < |ns|
    ensures TraceSeq(ns[..i + 1]) == TraceSeq(ns[..i]) + Trace(ns[i])
  {
    assert ns[..i + 1][..i] == ns[..i];
  }

  class Editor {
    /** `tinyobj::LoadObj` on a path: the parsed file, or None when it fails. */
    const objLoader: string -> Option<ObjData<real>>

    var sceneGraph: seq<Node>
    var flatList: seq<Node>
    var loadedModels: seq<Model>
    var selectedNode: Node?
    var selectionIndex: int
    var clockRunning: bool
    var camX: real, camY: real, camZ: real

    /** Every path handed to the OBJ loader, in call order. */
    ghost var objLoads: seq<string>
    /** For each slot of `flatList`, the slots of its node's children. */
    ghost var childPos: seq<seq<nat>>
    /** The slots of the nodes in `sceneGraph`. */
    ghost var rootPos: seq<nat>

    /** A cache entry holds exactly what loading its name yields. */
    ghost predicate LoadedFrom(m: Model) {
      m.loaded &&
      objLoader(ModelPath(m.name)).Some? &&
      var d := objLoader(ModelPath(m.name)).value;
      m.vertices == Positions(d) && m.normals == Normals(d)
    }

    /**
     * Cached names are distinct and every entry holds what loading its name
     * yields; a path the OBJ loader succeeds on was handed to it at most once,
     * and, once handed, its name is cached.
     */
    ghost predicate CacheValid()
      reads this`loadedModels, this`objLoads
    {
      Entries(loadedModels) && LoggedOnce(objLoads, loadedModels)
    }

    /** The names of `models` are distinct and every entry holds what loading its name yields. */
    ghost predicate Entries(models: seq<Model>) {
      (forall i, j :: 0 <= i < j < |models| ==> models[i].name != models[j].name) &&
      (forall i :: 0 <= i < |models| ==> LoadedFrom(models[i]))
    }

    /** Caching a model loaded from its own name, under a name not cached yet, keeps the entries valid. */
    lemma CachingKeepsEntries(models: seq<Model>, m: Model)
      requires Entries(models) && LoadedFrom(m) && Find(models, m.name).None?
      ensures Entries(models + [m])
    {
      var all := models + [m];
      forall i, j | 0 <= i < j < |all|
        ensures all[i].name != all[j].name
      {
        assert all[i] == models[i];
      }
      forall i | 0 <= i < |all|
        ensures LoadedFrom(all[i])
      {
        if i < |models| {
          assert all[i] == models[i];
        }
      }
    }

    /** Each path of `log` the OBJ loader succeeds on occurs in it once, and belongs to an entry of `models`. */
    ghost predicate LoggedOnce(log: seq<string>, models: seq<Model>) {
      (forall i :: 0 <= i < |log| && objLoader(log[i]).Some? ==> Cached(log[i], models)) &&
      (forall i, j :: 0 <= i < j < |log| && log[i] == log[j] ==> objLoader(log[i]).None?)
    }

    /** Caching another model keeps the log valid. */
    lemma CachingKeepsLog(log: seq<string>, models: seq<Model>, m: Model)
      requires LoggedOnce(log, models)
      ensures LoggedOnce(log, models + [m])
    {
      forall i | 0 <= i < |log| && objLoader(log[i]).Some?
        ensures Cached(log[i], models + [m])
      {
        var k :| 0 <= k < |models| && CachedPaths(models)[k] == log[i];
        assert CachedPaths(models + [m])[k] == log[i];
      }
    }

    /** Handing the loader a path it fails on keeps the log valid. */
    lemma LoggingFailure(log: seq<string>, models: seq<Model>, path: string)
      requires LoggedOnce(log, models) && objLoader(path).None?
      ensures LoggedOnce(log + [path], models)
    {
    }

    /**
     * Handing the loader the path of the last cache entry keeps the log valid,
     * when that entry's name was not cached before.
     */
    lemma LoggingSuccess(log: seq<string>, models: seq<Model>, m: Model)
      requires LoggedOnce(log, models) && Find(models, m.name).None?
      ensures LoggedOnce(log + [ModelPath(m.name)], models + [m])
    {
      var path := ModelPath(m.name);
      var log' := log + [path];
      var paths' := CachedPaths(models + [m]);
      UncachedNotLoaded(log, models, m.name);
      CachingKeepsLog(log, models, m);
      assert paths'[|models|] == path;
      forall i | 0 <= i < |log'| && objLoader(log'[i]).Some?
        ensures Cached(log'[i], models + [m])
      {
        if i < |log| {
          assert log'[i] == log[i];
        }
      }
      forall i, j | 0 <= i < j < |log'| && log'[i] == log'[j]
        ensures objLoader(log'[i]).None?
      {
        assert log'[i] == log[i];
        if j < |log| {
          assert log'[j] == log[j];
        }
      }
    }

    /** The loader succeeded on no logged path of a name missing from the cache. */
    lemma UncachedNotLoaded(log: seq<string>, models: seq<Model>, name: string)
      requires LoggedOnce(log, models) && Find(models, name).None?
      ensures forall i :: 0 <= i < |log| && log[i] == ModelPath(name) ==> objLoader(log[i]).None?
    {
      var paths := CachedPaths(models);
      forall k | 0 <= k < |models|
        ensures paths[k] != ModelPath(name)
      {
        ModelPathInjective(models[k].name, name);
      }
      assert ModelPath(name) !in paths;
    }

    /** In every valid state, a path that loads occurs at most once in the loader log, and its name is cached. */
    lemma LoadedAtMostOnce(path: string)
      requires CacheValid()
      ensures objLoader(path).Some? ==> multiset(objLoads)[path] <= 1
      ensures objLoader(path).Some? && path in objLoads ==> path in CachedPaths(loadedModels)
    {
      if objLoader(path).Some? {
        OnceIfNeverRepeated(objLoads, path);
      }
    }

    /**
     * What one `GetModel(name)` call returning `m` does: a cached name yields its
     * entry and changes nothing; otherwise the path is handed to the OBJ loader
     * once, a failure yields null and caches nothing, and a success yields a new
     * entry appended to the cache.
     */
    twostate predicate Resolved(name: string, new m: Model?)
      reads this`loadedModels, this`objLoads
    {
      (m != null <==> objLoader(ModelPath(name)).Some?) &&
      (m != null ==> m.name == name && m.loaded && m in loadedModels) &&
      (old(Find(loadedModels, name)).Some? ==>
        m == old(loadedModels[Find(loadedModels, name).value]) &&
        loadedModels == old(loadedModels) && objLoads == old(objLoads)) &&
      (old(Find(loadedModels, name)).None? ==>
        objLoads == old(objLoads) + [ModelPath(name)] &&
        (m == null ==> loadedModels == old(loadedModels)) &&
        (m != null ==> fresh(m) && loadedModels == old(loadedModels) + [m]))
    }

    /** The children of the node at slot `k` are the nodes at its child slots, all earlier than `k`. */
    ghost predicate ChildrenAt(nodes: seq<Node>, pos: seq<seq<nat>>, k: nat)
      requires k < |nodes| && k < |pos|
      reads (nodes[k] as Node)`children
    {
      |nodes[k].children| == |pos[k]| &&
      forall i :: 0 <= i < |pos[k]| ==>
        pos[k][i] < k && nodes[k].children[i] == nodes[pos[k][i]]
    }

    /**
     * `flatList` holds distinct nodes (each knows its slot) wired as a tree (`ChildrenAt`),
     * `sceneGraph` holds the nodes at the root slots, and every node's model
     * is cached.
     */
    ghost predicate TreeValid()
      reads this`flatList, this`childPos, this`sceneGraph, this`rootPos, this`loadedModels, flatList`children
    {
      |childPos| == |flatList| &&
      (forall k :: 0 <= k < |flatList| ==> flatList[k].slot == k) &&
      (forall k :: 0 <= k < |flatList| ==> ChildrenAt(flatList, childPos, k)) &&
      |sceneGraph| == |rootPos| &&
      (forall i :: 0 <= i < |rootPos| ==> rootPos[i] < |flatList| && sceneGraph[i] == flatList[rootPos[i]]) &&
      (forall k :: 0 <= k < |flatList| ==> flatList[k].modelData == null || flatList[k].modelData in loadedModels)
    }

    /** Exactly the node at `selectionIndex` carries the flag, and only while a node is selected. */
    ghost predicate SelectionValid()
      reads this`selectionIndex, this`selectedNode, this`flatList, flatList`isSelected
    {
      0 <= selectionIndex &&
      (selectedNode == null ==>
        selectionIndex == 0 && forall k :: 0 <= k < |flatList| ==> !flatList[k].isSelected) &&
      (selectedNode != null ==>
        selectionIndex < |flatList| && flatList[selectionIndex] == selectedNode &&
        forall k :: 0 <= k < |flatList| ==> (flatList[k].isSelected <==> k == selectionIndex))
    }

    ghost predicate Valid()
      reads this, flatList`children, flatList`isSelected
    {
      CacheValid() && TreeValid() && SelectionValid()
    }

    function Cam(): Eye
      reads this
    {
      Eye(camX, camY, camZ)
    }

    /** The globals' initial values. */
    constructor (objLoader: string -> Option<ObjData<real>>)
      ensures Valid()
      ensures this.objLoader == objLoader
      ensures sceneGraph == [] && flatList == [] && loadedModels == [] && selectedNode == null && selectionIndex == 0
      ensures clockRunning && Cam() == Eye(0.0, -5.0, 2.0)
      ensures objLoads == [] && childPos == [] && rootPos == []
    {
      this.objLoader := objLoader;
      sceneGraph, flatList, loadedModels := [], [], [];
      selectedNode, selectionIndex := null, 0;
      clockRunning := true;
      camX, camY, camZ := 0.0, -5.0, 2.0;
      objLoads, childPos, rootPos := [], [], [];
    }

    /** Exactly one node is flagged while a node is selected, and none before. */
    lemma SelectionIsExclusive()
      requires Valid()
      ensures CountTrue(Flags(flatList)) == (if selectedNode == null then 0 else 1)
    {
      var flags := Flags(flatList);
      if selectedNode == null {
        NoFlags(flags);
      } else {
        SingleFlag(flags, selectionIndex);
      }
    }

    // -------------------------------------------------------------------
    // The model cache
    // -------------------------------------------------------------------

    /** The linear search at the top of `GetModel`. */
    method FindLoaded(filename: string) returns (m: Model?)
      ensures m == null <==> Find(loadedModels, filename).None?
      ensures m != null ==> m == loadedModels[Find(loadedModels, filename).value]
    {
      var i := 0;
      while i < |loadedModels|
        invariant i <= |loadedModels|
        invariant forall k :: 0 <= k < i ==> loadedModels[k].name != filename
      {
        if loadedModels[i].name == filename {
          return loadedModels[i];
        }
        i := i + 1;
      }
      return null;
    }

    /**
     * `GetModel`: a cached entry of that name is returned as it is and nothing
     * is loaded; otherwise the OBJ loader is asked, a failure returns null and
     * caches nothing, and a success is de-indexed, cached once and returned.
     */
    method GetModel(filename: string) returns (m: Model?)
      requires CacheValid()
      modifies this`loadedModels, this`objLoads
      ensures CacheValid() && Resolved(filename, m)
      ensures old(loadedModels) <= loadedModels && old(objLoads) <= objLoads
    {
      m := FindLoaded(filename);
      if m != null {
        return;
      }
      m := LoadModel(filename);
    }

    /** The cache-miss path of `GetModel`: ask the OBJ loader, and on success de-index and cache the model. */
    method LoadModel(filename: string) returns (m: Model?)
      requires CacheValid() && Find(loadedModels, filename).None?
      modifies this`loadedModels, this`objLoads
      ensures CacheValid()
      ensures objLoads == old(objLoads) + [ModelPath(filename)]
      ensures m != null <==> objLoader(ModelPath(filename)).Some?
      ensures m == null ==> loadedModels == old(loadedModels)
      ensures m != null ==> fresh(m) && m.name == filename && m.loaded && loadedModels == old(loadedModels) + [m]
    {
      var fullPath := ModelPath(filename);
      var ret := objLoader(fullPath);
      if ret.None? {
        LoggingFailure(objLoads, loadedModels, fullPath);
        objLoads := objLoads + [fullPath];
        return null;
      }
      var vertices, normals, _ := Deindex(ret.value);
      m := new Model(filename, vertices, normals);
      LoggingSuccess(objLoads, loadedModels, m);
      CacheModel(m);
      objLoads := objLoads + [fullPath];
    }

    /** `loadedModels.push_back(m)` for a freshly loaded model whose name is not cached yet. */
    method CacheModel(m: Model)
      requires CacheValid() && LoadedFrom(m) && Find(loadedModels, m.name).None?
      modifies this`loadedModels
      ensures CacheValid() && loadedModels == old(loadedModels) + [m]
    {
      CachingKeepsEntries(loadedModels, m);
      CachingKeepsLog(objLoads, loadedModels, m);
      loadedModels := loadedModels + [m];
    }

    /**
     * Two requests for one name return the same entry, and a name that loads is
     * loaded at most once; a name that fails is handed to the loader again.
     */
    method RepeatedGetModel(filename: string) returns (first: Model?, second: Model?)
      requires CacheValid()
      modifies this`loadedModels, this`objLoads
      ensures CacheValid()
      ensures first == second
      ensures first != null ==> |objLoads| <= |old(objLoads)| + 1
      ensures first == null ==> objLoads == old(objLoads) + [ModelPath(filename), ModelPath(filename)]
    {
      first := GetModel(filename);
      second := GetModel(filename);
    }

    // -------------------------------------------------------------------
    // Reading the scene file
    // -------------------------------------------------------------------

    /** A node as `parseNode` builds it from `j`, before any key or `idle` call changes it. */
    ghost predicate Built(n: Node, j: JsonNode)
      reads n`x, n`y, n`z, n`rx, n`ry, n`rz, n`sx, n`sy, n`sz, n`animSpeed
    {
      n.name == NameOf(j) && n.kind == KindOf(j) && n.Pose() == PoseOf(j) &&
      n.isAnimated == AnimatedOf(j) && n.animSpeed == SpeedOf(j) &&
      (n.modelData != null <==> MeshRequest(j).Some? && objLoader(ModelPath(MeshRequest(j).value)).Some?) &&
      (n.modelData != null ==> n.modelData.name == MeshRequest(j).value && n.modelData.loaded)
    }

    /** A slot holding the laid-out entry `e`: its built node and its child slots. */
    ghost predicate SlotLaid(node: Node, pos: seq<nat>, e: Entry)
      reads node`x, node`y, node`z, node`rx, node`ry, node`rz, node`sx, node`sy, node`sz, node`animSpeed
    {
      pos == e.childPos && Built(node, e.json)
    }

    /** Consecutive slots holding the laid-out entries `es`. */
    ghost predicate Laid(nodes: seq<Node>, pos: seq<seq<nat>>, es: seq<Entry>)
      reads set n | n in nodes
    {
      |nodes| == |pos| == |es| &&
      forall k {:trigger SlotLaid(nodes[k], pos[k], es[k])} :: 0 <= k < |es| ==> SlotLaid(nodes[k], pos[k], es[k])
    }

    lemma LaidAppend(n1: seq<Node>, p1: seq<seq<nat>>, a: seq<Entry>, n2: seq<Node>, p2: seq<seq<nat>>, b: seq<Entry>)
      requires Laid(n1, p1, a) && Laid(n2, p2, b)
      ensures Laid(n1 + n2, p1 + p2, a + b)
    {
      forall k | 0 <= k < |a| + |b|
        ensures SlotLaid((n1 + n2)[k], (p1 + p2)[k], (a + b)[k])
      {
        if k < |a| {
          assert SlotLaid(n1[k], p1[k], a[k]);
        } else {
          assert SlotLaid(n2[k - |a|], p2[k - |a|], b[k - |a|]);
        }
      }
    }

    /** Slots laid out from `roots` hold the file's nodes in post-order, each built from its JSON node. */
    lemma LaidInPostOrder(nodes: seq<Node>, pos: seq<seq<nat>>, roots: seq<JsonNode>, base: nat)
      requires Laid(nodes, pos, LayoutSeq(roots, base))
      ensures |nodes| == SizeSum(roots) == |PostOrderSeq(roots)|
      ensures forall k :: 0 <= k < |nodes| ==> Built(nodes[k], PostOrderSeq(roots)[k])
    {
      var es := LayoutSeq(roots, base);
      LayoutSeqIsPostOrder(roots, base);
      forall k | 0 <= k < |nodes|
        ensures Built(nodes[k], PostOrderSeq(roots)[k])
      {
        assert SlotLaid(nodes[k], pos[k], es[k]);
      }
    }

    /**
     * `parseNode`: read the node's fields (defaults for absent keys, a model
     * only for a `"mesh"` node that names one), parse the children in order,
     * then append the node, holding those children, to `flatList`. The slots
     * appended are the subtree's layout: its nodes in post-order.
     */
    method ParseNode(j: JsonNode) returns (n: Node, ghost added: seq<Node>, ghost addedPos: seq<seq<nat>>)
      requires Valid()
      modifies this`flatList, this`childPos, this`loadedModels, this`objLoads
      ensures Valid()
      ensures flatList == old(flatList) + added && childPos == old(childPos) + addedPos
      ensures Laid(added, addedPos, Layout(j, |old(flatList)|))
      ensures fresh(set m | m in added)
      ensures n == flatList[|flatList| - 1]
      ensures old(loadedModels) <= loadedModels && old(objLoads) <= objLoads
      decreases j, 1
    {
      var modelData := MeshFor(j);
      ghost var base := |flatList|;
      var children;
      ghost var kids;
      children, kids, added, addedPos := ParseChildren(j.children);
      n := BuildNode(j, modelData, children, base, kids, added, addedPos);
      added, addedPos := added + [n], addedPos + [kids];
    }

    /**
     * The end of `parseNode`: the node, with its fields read from `j` and its
     * children already parsed into the slots `kids`, goes in the slot after
     * theirs, completing the subtree's layout.
     */
    method BuildNode(j: JsonNode, modelData: Model?, children: seq<Node>, ghost base: nat, ghost kids: seq<nat>,
                     ghost added: seq<Node>, ghost addedPos: seq<seq<nat>>)
      returns (n: Node)
      requires Valid() && |flatList| == base + |added|
      requires Laid(added, addedPos, LayoutSeq(j.children, base)) && kids == Roots(j.children, base)
      requires |kids| == |children| && forall t :: 0 <= t < |kids| ==> kids[t] < |flatList| && children[t] == flatList[kids[t]]
      requires modelData != null <==> MeshRequest(j).Some? && objLoader(ModelPath(MeshRequest(j).value)).Some?
      requires modelData != null ==> modelData.name == MeshRequest(j).value && modelData.loaded && modelData in loadedModels
      modifies this`flatList, this`childPos
      ensures Valid()
      ensures fresh(n) && flatList == old(flatList) + [n] && childPos == old(childPos) + [kids]
      ensures Laid(added + [n], addedPos + [kids], Layout(j, base))
    {
      n := new Node(NameOf(j), KindOf(j), PoseOf(j), AnimatedOf(j), SpeedOf(j), modelData, children, |flatList|);
      assert SlotLaid(n, kids, Entry(j, kids));
      LaidAppend(added, addedPos, LayoutSeq(j.children, base), [n], [kids], [Entry(j, kids)]);
      assert Layout(j, base) == LayoutSeq(j.children, base) + [Entry(j, kids)];
      AppendNode(n, kids);
    }

    /** The model a node gets: only a `"mesh"` node that names a model asks the cache, and may get null. */
    method MeshFor(j: JsonNode) returns (modelData: Model?)
      requires Valid()
      modifies this`loadedModels, this`objLoads
      ensures Valid()
      ensures old(loadedModels) <= loadedModels && old(objLoads) <= objLoads
      ensures modelData != null <==> MeshRequest(j).Some? && objLoader(ModelPath(MeshRequest(j).value)).Some?
      ensures modelData != null ==> modelData.name == MeshRequest(j).value && modelData.loaded && modelData in loadedModels
      ensures MeshRequest(j).None? ==> loadedModels == old(loadedModels) && objLoads == old(objLoads)
      ensures MeshRequest(j).Some? ==> Resolved(MeshRequest(j).value, modelData)
    {
      modelData := null;
      if KindOf(j) == "mesh" && j.model.Some? {
        modelData := GetModel(j.model.value);
      }
    }

    /** The loop over `children` in `parseNode`: parse each child in order and collect the results. */
    method ParseChildren(cs: seq<JsonNode>)
      returns (children: seq<Node>, ghost kids: seq<nat>, ghost added: seq<Node>, ghost addedPos: seq<seq<nat>>)
      requires Valid()
      modifies this`flatList, this`childPos, this`loadedModels, this`objLoads
      ensures Valid()
      ensures flatList == old(flatList) + added && childPos == old(childPos) + addedPos
      ensures Laid(added, addedPos, LayoutSeq(cs, |old(flatList)|))
      ensures fresh(set m | m in added)
      ensures kids == Roots(cs, |old(flatList)|) && |kids| == |cs| == |children|
      ensures forall t :: 0 <= t < |cs| ==> kids[t] < |flatList| && children[t] == flatList[kids[t]]
      ensures old(loadedModels) <= loadedModels && old(objLoads) <= objLoads
      decreases cs, 1
    {
      ghost var base := |flatList|;
      kids, added, addedPos := [], [], [];
      children := [];
      var i := 0;
      while i < |cs|
        invariant i <= |cs|
        invariant Valid()
        invariant flatList == old(flatList) + added && childPos == old(childPos) + addedPos
        invariant Collected(cs, i, base, children, kids, added)
        invariant Laid(added, addedPos, LayoutSeq(cs[..i], base))
        invariant fresh(set m | m in added)
        invariant old(loadedModels) <= loadedModels && old(objLoads) <= objLoads
      {
        ghost var more;
        children, kids, added, addedPos, more :=
          ParseChild(cs, i, old(flatList), old(childPos), children, kids, added, addedPos);
        i := i + 1;
      }
      assert cs[..i] == cs;
    }

    /**
     * The roots collected by the loop over `children` after `i` of them, whose
     * subtrees fill the `added` slots from `base` on: `children` holds them,
     * found at the slots `kids`.
     */
    ghost predicate Collected(cs: seq<JsonNode>, i: nat, base: nat, children: seq<Node>, kids: seq<nat>, added: seq<Node>)
      requires i <= |cs|
      reads this`flatList
    {
      |flatList| == base + |added| &&
      kids == Roots(cs[..i], base) && |kids| == i == |children| &&
      forall t :: 0 <= t < i ==> kids[t] < |flatList| && children[t] == flatList[kids[t]]
    }

    /** One pass of the loop over `children`: parse child `i`, whose slots follow those of the children before it. */
    method ParseChild(cs: seq<JsonNode>, i: nat, ghost flat0: seq<Node>, ghost pos0: seq<seq<nat>>,
                      children: seq<Node>, ghost kids: seq<nat>, ghost added: seq<Node>, ghost addedPos: seq<seq<nat>>)
      returns (children': seq<Node>, ghost kids': seq<nat>, ghost added': seq<Node>, ghost addedPos': seq<seq<nat>>,
               ghost more: seq<Node>)
      requires i < |cs| && Valid() && Collected(cs, i, |flat0|, children, kids, added)
      requires Laid(added, addedPos, LayoutSeq(cs[..i], |flat0|))
      requires flatList == flat0 + added && childPos == pos0 + addedPos
      modifies this`flatList, this`childPos, this`loadedModels, this`objLoads
      ensures Valid() && Collected(cs, i + 1, |flat0|, children', kids', added')
      ensures Laid(added', addedPos', LayoutSeq(cs[..i + 1], |flat0|))
      ensures flatList == flat0 + added' && childPos == pos0 + addedPos'
      ensures added' == added + more && fresh(set m | m in more)
      ensures old(loadedModels) <= loadedModels && old(objLoads) <= objLoads
      decreases cs, 0, i
    {
      ghost var front := flatList;
      var c;
      ghost var morePos;
      c, more, morePos := ParseNode(cs[i]);
      ChildStep(cs, i, |flat0|, added, addedPos, more, morePos, kids);
      ChildrenExtend(front, more, kids, children, c);
      Associative(flat0, added, more);
      Associative(pos0, addedPos, morePos);
      children' := children + [c];
      kids', added', addedPos' := kids + [|flatList| - 1], added + more, addedPos + morePos;
    }

    /** The children collected so far stay at their slots when a new subtree is appended, and its root joins them. */
    lemma ChildrenExtend(front: seq<Node>, more: seq<Node>, kids: seq<nat>, children: seq<Node>, c: Node)
      requires |kids| == |children| && forall t :: 0 <= t < |kids| ==> kids[t] < |front| && children[t] == front[kids[t]]
      requires more != [] && c == more[|more| - 1]
      ensures var all := front + more; var kids' := kids + [|all| - 1];
        forall t :: 0 <= t < |kids'| ==> kids'[t] < |all| && (children + [c])[t] == all[kids'[t]]
    {
      var all := front + more;
      var kids' := kids + [|all| - 1];
      forall t | 0 <= t < |kids'|
        ensures kids'[t] < |all| && (children + [c])[t] == all[kids'[t]]
      {
        if t < |kids| {
          assert all[kids[t]] == front[kids[t]];
        }
      }
    }

    /** Child `i`'s slots follow those of the children before it, and its root is the last of them. */
    lemma ChildStep(cs: seq<JsonNode>, i: nat, base: nat, added: seq<Node>, addedPos: seq<seq<nat>>,
                    more: seq<Node>, morePos: seq<seq<nat>>, kids: seq<nat>)
      requires i < |cs|
      requires Laid(added, addedPos, LayoutSeq(cs[..i], base))
      requires Laid(more, morePos, Layout(cs[i], base + |added|))
      requires kids == Roots(cs[..i], base)
      ensures |more| == Size(cs[i]) > 0
      ensures Laid(added + more, addedPos + morePos, LayoutSeq(cs[..i + 1], base))
      ensures kids + [base + |added| + |more| - 1] == Roots(cs[..i + 1], base)
    {
      var pre := LayoutSeq(cs[..i], base);
      assert |added| == |pre|;
      LayoutSeqIsPostOrder(cs[..i], base);
      SlotsStep(cs, i, base, |added|);
      var lay := Layout(cs[i], base + |added|);
      assert |more| == |lay|;
      LaidAppend(added, addedPos, pre, more, morePos, lay);
    }

    /** `flatList.push_back(n)`: the new node goes in the next slot, its children at `kids`. */
    method AppendNode(n: Node, ghost kids: seq<nat>)
      requires Valid()
      requires n.slot == |flatList| && !n.isSelected
      requires n.modelData == null || n.modelData in loadedModels
      requires |n.children| == |kids| && forall t :: 0 <= t < |kids| ==> kids[t] < |flatList| && n.children[t] == flatList[kids[t]]
      modifies this`flatList, this`childPos
      ensures Valid()
      ensures flatList == old(flatList) + [n] && childPos == old(childPos) + [kids]
    {
      flatList := flatList + [n];
      childPos := childPos + [kids];
      forall k | 0 <= k < |flatList|
        ensures ChildrenAt(flatList, childPos, k)
      {
        if k < |flatList| - 1 {
          assert old(ChildrenAt(flatList, childPos, k));
        }
      }
    }

    /** `sceneGraph.push_back(n)` for the node just appended to `flatList`. */
    method AddRoot(n: Node)
      requires Valid() && |flatList| > 0 && n == flatList[|flatList| - 1]
      modifies this`sceneGraph, this`rootPos
      ensures Valid()
      ensures sceneGraph == old(sceneGraph) + [n] && rootPos == old(rootPos) + [|flatList| - 1]
    {
      sceneGraph := sceneGraph + [n];
      rootPos := rootPos + [|flatList| - 1];
    }

    /**
     * One pass of the loop over `data["root"]`: `sceneGraph.push_back(parseNode(item))`
     * for root `i`, whose slots follow those of the roots before it.
     */
    method ParseRoot(roots: seq<JsonNode>, i: nat, ghost base: nat, ghost added: seq<Node>, ghost addedPos: seq<seq<nat>>,
                     ghost kids: seq<nat>)
      returns (ghost more: seq<Node>, ghost morePos: seq<seq<nat>>)
      requires i < |roots| && Valid() && |flatList| == base + |added|
      requires Laid(added, addedPos, LayoutSeq(roots[..i], base)) && kids == Roots(roots[..i], base)
      modifies this`sceneGraph, this`flatList, this`childPos, this`rootPos, this`loadedModels, this`objLoads
      ensures Valid()
      ensures flatList == old(flatList) + more && childPos == old(childPos) + morePos
      ensures fresh(set m | m in more)
      ensures Laid(added + more, addedPos + morePos, LayoutSeq(roots[..i + 1], base))
      ensures kids + [|flatList| - 1] == Roots(roots[..i + 1], base)
      ensures |flatList| > 0 && sceneGraph == old(sceneGraph) + [flatList[|flatList| - 1]] && rootPos == old(rootPos) + [|flatList| - 1]
      ensures old(loadedModels) <= loadedModels && old(objLoads) <= objLoads
    {
      var n;
      n, more, morePos := ParseNode(roots[i]);
      ChildStep(roots, i, base, added, addedPos, more, morePos, kids);
      AddRoot(n);
    }

    /** The loop over `data["root"]` in `LoadScene`: parse each root in order and add it to `sceneGraph`. */
    method ParseRoots(roots: seq<JsonNode>) returns (ghost added: seq<Node>, ghost addedPos: seq<seq<nat>>)
      requires Valid()
      modifies this`sceneGraph, this`flatList, this`childPos, this`rootPos, this`loadedModels, this`objLoads
      ensures Valid()
      ensures flatList == old(flatList) + added && childPos == old(childPos) + addedPos
      ensures Laid(added, addedPos, LayoutSeq(roots, |old(flatList)|))
      ensures fresh(set m | m in added)
      ensures rootPos == old(rootPos) + Roots(roots, |old(flatList)|)
      ensures old(sceneGraph) <= sceneGraph && |sceneGraph| == |old(sceneGraph)| + |roots|
      ensures old(loadedModels) <= loadedModels && old(objLoads) <= objLoads
    {
      ghost var base := |flatList|;
      ghost var kids: seq<nat> := [];
      added, addedPos := [], [];
      var i := 0;
      while i < |roots|
        invariant i <= |roots|
        invariant Valid()
        invariant flatList == old(flatList) + added && childPos == old(childPos) + addedPos
        invariant Laid(added, addedPos, LayoutSeq(roots[..i], base))
        invariant fresh(set m | m in added)
        invariant kids == Roots(roots[..i], base) && rootPos == old(rootPos) + kids
        invariant old(sceneGraph) <= sceneGraph && |sceneGraph| == |old(sceneGraph)| + i
        invariant old(loadedModels) <= loadedModels && old(objLoads) <= objLoads
      {
        var more, morePos := ParseRoot(roots, i, base, added, addedPos, kids);
        Associative(old(flatList), added, more);
        Associative(old(childPos), addedPos, morePos);
        added, addedPos := added + more, addedPos + morePos;
        kids := kids + [|flatList| - 1];
        i := i + 1;
      }
      assert roots[..i] == roots;
    }

    /**
     * `LoadScene`: a missing file changes nothing. Otherwise every root is
     * parsed in order, so `flatList` gains the post-order of the scene, and
     * then the first node of `flatList`, if any, becomes the one selected node.
     */
    method LoadScene(file: Option<SceneFile>) returns (ghost added: seq<Node>, ghost addedPos: seq<seq<nat>>)
      requires Valid() && selectedNode == null
      modifies this`sceneGraph, this`flatList, this`childPos, this`rootPos, this`loadedModels, this`objLoads
      modifies this`selectedNode, flatList`isSelected
      ensures Valid() && selectionIndex == 0
      ensures file.None? ==>
        flatList == old(flatList) && sceneGraph == old(sceneGraph) && loadedModels == old(loadedModels) &&
        objLoads == old(objLoads) && selectedNode == null && unchanged(flatList)
      ensures old(flatList) <= flatList
      ensures forall k :: 0 <= k < |old(flatList)| ==>
        flatList[k].Pose() == old(flatList[k].Pose()) &&
        flatList[k].animSpeed == old(flatList[k].animSpeed) && flatList[k].children == old(flatList[k].children)
      ensures file.Some? ==>
        flatList == old(flatList) + added && childPos == old(childPos) + addedPos &&
        Laid(added, addedPos, LayoutSeq(file.value.root, |old(flatList)|)) &&
        rootPos == old(rootPos) + Roots(file.value.root, |old(flatList)|) &&
        old(sceneGraph) <= sceneGraph && |sceneGraph| == |old(sceneGraph)| + |file.value.root| &&
        old(loadedModels) <= loadedModels && old(objLoads) <= objLoads &&
        selectedNode == (if flatList == [] then null else flatList[0])
      ensures selectedNode != null ==>
        flatList[0].isSelected && forall k :: 0 < k < |flatList| ==> !flatList[k].isSelected
    {
      added, addedPos := [], [];
      if file.None? {
        return;
      }
      added, addedPos := ParseRoots(file.value.root);
      if flatList != [] {
        SelectFirst(added, addedPos, LayoutSeq(file.value.root, |old(flatList)|));
      }
    }

    /** The end of `LoadScene`: select and flag the first node of `flatList`; the slots stay as laid out. */
    method SelectFirst(ghost added: seq<Node>, ghost addedPos: seq<seq<nat>>, ghost es: seq<Entry>)
      requires Valid() && selectedNode == null && flatList != []
      requires Laid(added, addedPos, es)
      modifies this`selectedNode, (flatList[0] as Node)`isSelected
      ensures Valid() && selectionIndex == 0 && selectedNode == flatList[0]
      ensures Laid(added, addedPos, es)
      ensures flatList[0].isSelected && forall k :: 0 < k < |flatList| ==> !flatList[k].isSelected
    {
      label before:
      selectedNode := flatList[0];
      selectedNode.isSelected := true;
      forall k | 0 <= k < |added|
        ensures SlotLaid(added[k], addedPos[k], es[k])
      {
        assert old@before(SlotLaid(added[k], addedPos[k], es[k]));
      }
      forall k | 0 <= k < |flatList|
        ensures ChildrenAt(flatList, childPos, k)
      {
        assert old@before(ChildrenAt(flatList, childPos, k));
      }
      forall k | 0 < k < |flatList|
        ensures !flatList[k].isSelected
      {
        assert flatList[k].slot != flatList[0].slot;
      }
    }

    // -------------------------------------------------------------------
    // Keys and the animation step
    // -------------------------------------------------------------------

    /**
     * TAB: clear the old flag, advance the index (back to 0 at the end of
     * `flatList`), select that node and flag it; every other node keeps its
     * state.
     */
    method SelectNext()
      requires Valid() && flatList != []
      modifies this`selectedNode, this`selectionIndex, flatList`isSelected
      ensures Valid()
      ensures selectionIndex == NextWrap(old(selectionIndex), |flatList|) && selectedNode == flatList[selectionIndex]
      ensures forall k :: 0 <= k < |flatList| ==>
        flatList[k].State() == old(flatList[k].State()).(selected := k == selectionIndex)
    {
      MoveSelection();
    }

    /** The flag and index updates of `SelectNext`, which keep the selection invariant. */
    method MoveSelection()
      requires SelectionValid() && flatList != []
      requires forall k :: 0 <= k < |flatList| ==> flatList[k].slot == k
      modifies this`selectedNode, this`selectionIndex, flatList`isSelected
      ensures SelectionValid()
      ensures selectionIndex == NextWrap(old(selectionIndex), |flatList|) && selectedNode == flatList[selectionIndex]
      ensures forall k :: 0 <= k < |flatList| ==>
        flatList[k].State() == old(flatList[k].State()).(selected := k == selectionIndex)
    {
      if selectedNode != null {
        selectedNode.isSelected := false;
      }
      selectionIndex := selectionIndex + 1;
      if selectionIndex >= |flatList| {
        selectionIndex := 0;
      }
      selectedNode := flatList[selectionIndex];
      selectedNode.isSelected := true;
      forall k | 0 <= k < |flatList| && k != selectionIndex
        ensures !flatList[k].isSelected
      {
        assert flatList[k].slot != selectedNode.slot;
      }
    }

    /**
     * `keyboard`: ESC asks to exit, TAB moves the selection, `/` starts or
     * stops the clock, and every other key edits the selected node alone, if
     * there is one: an edit key moves or turns it by a fixed step, `[` and
     * `]` change its speed, and any other key does nothing.
     */
    method Keyboard(key: char) returns (exit: bool)
      requires Valid()
      requires key == Tab ==> flatList != []
      modifies this`selectedNode, this`selectionIndex, this`clockRunning, flatList`isSelected
      modifies flatList`x, flatList`y, flatList`z, flatList`rx, flatList`ry, flatList`rz, flatList`animSpeed
      ensures Valid()
      ensures exit == (key == Esc)
      ensures clockRunning == (old(clockRunning) != (key == '/'))
      ensures key == Tab ==>
        selectionIndex == NextWrap(old(selectionIndex), |flatList|) && selectedNode == flatList[selectionIndex] &&
        forall k :: 0 <= k < |flatList| ==>
          flatList[k].State() == old(flatList[k].State()).(selected := k == selectionIndex)
      ensures key != Tab ==>
        selectedNode == old(selectedNode) && selectionIndex == old(selectionIndex) &&
        forall k :: 0 <= k < |flatList| ==>
          flatList[k].State() ==
            if selectedNode != null && k == selectionIndex then EditNode(key, old(flatList[k].State()))
            else old(flatList[k].State())
    {
      exit := false;
      if key == Esc {
        exit := true;
      } else if key == Tab {
        SelectNext();
      } else if key == '/' {
        clockRunning := !clockRunning;
      } else if selectedNode != null {
        EditSelection(key);
      }
    }

    /** The edit cases of `keyboard` while a node is selected: that node changes as `EditNode` says, and no other. */
    method EditSelection(key: char)
      requires Valid() && selectedNode != null
      modifies selectedNode`x, selectedNode`y, selectedNode`z, selectedNode`rx, selectedNode`ry, selectedNode`rz
      modifies selectedNode`animSpeed
      ensures Valid()
      ensures forall k :: 0 <= k < |flatList| ==>
        flatList[k].State() ==
          if k == selectionIndex then EditNode(key, old(flatList[k].State())) else old(flatList[k].State())
    {
      EditSelected(selectedNode, key);
      forall k | 0 <= k < |flatList| && k != selectionIndex
        ensures flatList[k] != selectedNode
      {
        assert flatList[k].slot != selectedNode.slot;
      }
    }

    /** The `[`, `]` and transform cases of `keyboard`'s switch, applied to the selected node. */
    static method EditSelected(n: Node, key: char)
      modifies n`x, n`y, n`z, n`rx, n`ry, n`rz, n`animSpeed
      ensures n.State() == EditNode(key, old(n.State()))
    {
      match key {
        case '[' => n.animSpeed := n.animSpeed - SpeedStep;
        case ']' => n.animSpeed := n.animSpeed + SpeedStep;
        case _ => MovePose(n, key);
      }
    }

    /** The twelve transform cases: q/a, w/s, e/d move by `speed`; the rotation keys go to `TurnPose`. */
    static method MovePose(n: Node, key: char)
      modifies n`x, n`y, n`z, n`rx, n`ry, n`rz
      ensures n.Pose() == ApplyKey(key, old(n.Pose()))
    {
      var speed := Move;
      match key {
        case 'q' => n.x := n.x + speed;
        case 'a' => n.x := n.x - speed;
        case 'w' => n.y := n.y + speed;
        case 's' => n.y := n.y - speed;
        case 'e' => n.z := n.z + speed;
        case 'd' => n.z := n.z - speed;
        case _ => TurnPose(n, key);
      }
    }

    /** The rotation cases: r/f, t/g, y/h turn about X, Y, Z by `rotSpeed`; any other key changes nothing. */
    static method TurnPose(n: Node, key: char)
      requires key !in {'q', 'a', 'w', 's', 'e', 'd'}
      modifies n`rx, n`ry, n`rz
      ensures n.Pose() == ApplyKey(key, old(n.Pose()))
    {
      var rotSpeed := Turn;
      match key {
        case 'r' => n.rx := n.rx + rotSpeed;
        case 'f' => n.rx := n.rx - rotSpeed;
        case 't' => n.ry := n.ry + rotSpeed;
        case 'g' => n.ry := n.ry - rotSpeed;
        case 'y' => n.rz := n.rz + rotSpeed;
        case 'h' => n.rz := n.rz - rotSpeed;
        case _ =>
      }
    }

    /** `specialKeys`: the arrow keys and page up/down move the camera eye; nothing else changes. */
    method SpecialKeys(key: int)
      modifies this`camX, this`camY, this`camZ
      ensures Cam() == EyeKey(key, old(Cam()))
    {
      var camSpeed := CamSpeed;
      if key == KeyUp {
        camY := camY + camSpeed;
      } else if key == KeyDown {
        camY := camY - camSpeed;
      } else if key == KeyLeft {
        camX := camX - camSpeed;
      } else if key == KeyRight {
        camX := camX + camSpeed;
      } else if key == KeyPageUp {
        camZ := camZ + camSpeed;
      } else if key == KeyPageDown {
        camZ := camZ - camSpeed;
      }
    }

    /** `idle`: while the clock runs, every animated node turns about Z by its speed. */
    method Idle()
      requires Valid()
      modifies flatList`rz
      ensures Valid()
      ensures forall k :: 0 <= k < |flatList| ==>
        flatList[k].State() == Tick(old(flatList[k].State()), flatList[k].isAnimated, clockRunning)
    {
      if clockRunning {
        var i := 0;
        while i < |flatList|
          invariant i <= |flatList|
          invariant forall k :: 0 <= k < i ==>
            flatList[k].State() == Tick(old(flatList[k].State()), flatList[k].isAnimated, true)
          invariant forall k :: i <= k < |flatList| ==> flatList[k].State() == old(flatList[k].State())
        {
          var n := flatList[i];
          if n.isAnimated {
            n.rz := n.rz + n.animSpeed;
          }
          forall k | 0 <= k < |flatList| && k != i
            ensures flatList[k] != n
          {
            assert flatList[k].slot != n.slot;
          }
          i := i + 1;
        }
      }
    }

    // -------------------------------------------------------------------
    // Drawing
    // -------------------------------------------------------------------

    /** Every slot's node holds the nodes at its child slots: what drawing relies on. */
    ghost predicate Wired()
      reads this, set n | n in flatList
    {
      |childPos| == |flatList| && forall k :: 0 <= k < |flatList| ==> ChildrenAt(flatList, childPos, k)
    }

    lemma ValidIsWired()
      requires Valid()
      ensures Wired() && Below(childPos)
    {
      forall j, i | 0 <= j < |childPos| && 0 <= i < |childPos[j]|
        ensures childPos[j][i] < j
      {
        assert ChildrenAt(flatList, childPos, j);
      }
    }

    /**
     * `Node::DrawLegacy` on the node at slot `k`: push, translate, rotate
     * about Z, Y and X, scale, draw the model only when there is one and it
     * is loaded (highlighted when selected), draw the children in order,
     * pop. `views` and `pos` name the scene as it stands while it is drawn.
     */
    method DrawLegacy(n: Node, ghost k: nat, ghost views: seq<NodeView>, ghost pos: seq<seq<nat>>)
      returns (trace: seq<Event>)
      requires Wired() && views == Views(flatList) && pos == childPos && Below(pos)
      requires k < |flatList| && flatList[k] == n
      ensures trace == Trace(Tree(views, pos, k))
      decreases k, 1
    {
      ghost var node := Tree(views, pos, k);
      trace := [Push];
      trace := trace + [Matrix(Translate(n.x, n.y, n.z))];
      trace := trace + [Matrix(RotateZ(n.rz))];
      trace := trace + [Matrix(RotateY(n.ry))];
      trace := trace + [Matrix(RotateX(n.rx))];
      trace := trace + [Matrix(Scale(n.sx, n.sy, n.sz))];
      LocalEvents(node.pose);
      assert trace == [Push] + Applies(LocalOps(node.pose));
      if n.modelData != null && n.modelData.loaded {
        trace := trace + [Draw(n.modelData.name, n.isSelected)];
      }
      assert trace == [Push] + Applies(LocalOps(node.pose)) + MeshEvents(node);
      var rest := DrawChildren(n, k, views, pos);
      trace := trace + rest;
      trace := trace + [Pop];
    }

    /** The loop over `children` in `DrawLegacy`: draw each child of the node at slot `k` in order. */
    method DrawChildren(n: Node, ghost k: nat, ghost views: seq<NodeView>, ghost pos: seq<seq<nat>>)
      returns (trace: seq<Event>)
      requires Wired() && views == Views(flatList) && pos == childPos && Below(pos)
      requires k < |flatList| && flatList[k] == n
      ensures trace == TraceSeq(Trees(views, pos, k, pos[k]))
      decreases k, 0
    {
      assert ChildrenAt(flatList, childPos, k);
      ghost var ps := pos[k];
      ghost var kids := Trees(views, pos, k, ps);
      trace := [];
      var i := 0;
      while i < |n.children|
        invariant i <= |n.children| == |ps|
        invariant forall t :: 0 <= t < |ps| ==> ps[t] < k && n.children[t] == flatList[ps[t]]
        invariant trace == TraceSeq(kids[..i])
      {
        var t := DrawLegacy(n.children[i], ps[i], views, pos);
        TraceSeqStep(kids, i);
        trace := trace + t;
        i := i + 1;
      }
      assert kids[..i] == kids;
    }

    /**
     * The scene loop of `display`: draw every root of `sceneGraph` in order.
     * From a stack holding one matrix, the events leave that stack as they
     * found it, and every model is drawn in pre-order under its ancestors' ops.
     */
    method DrawScene() returns (trace: seq<Event>)
      requires Valid()
      ensures Below(childPos)
      ensures trace == TraceSeq(Trees(Views(flatList), childPos, |flatList|, rootPos))
      ensures Run(Machine([[]], []), trace) ==
        Some(Machine([[]], DrawsSeq(Trees(Views(flatList), childPos, |flatList|, rootPos), [])))
    {
      ValidIsWired();
      ghost var views := Views(flatList);
      ghost var roots := Trees(views, childPos, |flatList|, rootPos);
      trace := [];
      var i := 0;
      while i < |sceneGraph|
        invariant i <= |sceneGraph|
        invariant trace == TraceSeq(roots[..i])
      {
        var t := DrawLegacy(sceneGraph[i], rootPos[i], views, childPos);
        TraceSeqStep(roots, i);
        trace := trace + t;
        i := i + 1;
      }
      assert roots[..i] == roots;
      SceneBalanced(roots);
    }
  }
}
