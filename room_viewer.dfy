/**
 * main.cpp: a flat list of scene objects, each optionally pointing at a mesh
 * held by a name-keyed model cache; TAB cycles a selection cursor, letter keys
 * edit the selected object, and `idle` spins the animated objects.
 *
 * The global variables become the fields of `Viewer`; `Object` and `Model`
 * become classes. The OBJ loader and the texture loader are deterministic
 * functions handed to the viewer, and ghost logs record every path passed to them.
 */
module RoomViewer {
  import opened Optional
  import opened Transforms
  import opened Cycling
  import opened ObjMesh
  import opened Sequences

  const ModelDir := "models/"
  const TextureDir := "models/textures/"

  /** The path `GetModel` hands to the OBJ loader. */
  function ModelPath(filename: string): string {
    ModelDir + filename
  }

  /** Distinct names give distinct loader paths. */
  lemma ModelPathInjective(a: string, b: string)
    ensures ModelPath(a) == ModelPath(b) ==> a == b
  {
    if ModelPath(a) == ModelPath(b) {
      assert a == ModelPath(a)[|ModelDir|..];
    }
  }

  /** The path `LoadTextureFromFile` hands to the image loader. */
  function TexturePath(filename: string): (path: string)
    ensures |path| == |TextureDir| + |filename|
    ensures path[..|TextureDir|] == TextureDir && path[|TextureDir|..] == filename
  {
    TextureDir + filename
  }

  predicate IsSeparator(c: char) {
    c == '/' || c == '\\'
  }

  /**
   * The texture file name taken from a material's texture path: the part after
   * the last `/` or `\`, or the whole name when it has neither.
   */
  function TextureFileName(raw: string): (name: string)
    ensures |name| <= |raw| && name == raw[|raw| - |name|..]
    ensures forall k :: 0 <= k < |name| ==> !IsSeparator(name[k])
    ensures |name| < |raw| ==> IsSeparator(raw[|raw| - |name| - 1])
    ensures (forall k :: 0 <= k < |raw| ==> !IsSeparator(raw[k])) ==> name == raw
  {
    if raw == [] then []
    else if IsSeparator(raw[|raw| - 1]) then []
    else TextureFileName(raw[..|raw| - 1]) + [raw[|raw| - 1]]
  }

  /** A texture name given as a GL texture object: never 0, which stands for "no texture". */
  type TextureId = n: nat | n > 0 witness 1

  /** The material's texture file, when the first material names one. */
  function TextureRequest(d: ObjData<real>): Option<string> {
    if |d.materials| > 0 && d.materials[0].diffuseTexname != [] then
      Some(TexturePath(TextureFileName(d.materials[0].diffuseTexname)))
    else None
  }

  /** The paths the image loader is handed while a parsed file is cached: its texture, if it names one. */
  function TextureLog(d: ObjData<real>): (log: seq<string>)
    ensures |log| <= 1 && (log == [] <==> TextureRequest(d).None?)
    ensures TextureRequest(d).Some? ==> log == [TextureRequest(d).value]
  {
    match TextureRequest(d)
    case None => []
    case Some(path) => [path]
  }

  /** The texture id a load yields: 0 (the white fallback) when the image cannot be read. */
  function TextureOrFallback(r: Option<TextureId>): nat {
    match r
    case None => 0
    case Some(id) => id
  }

  /** A mesh payload. Its fields are written only before it enters the cache. */
  class Model {
    const name: string
    const vertices: seq<real>
    const normals: seq<real>
    const texcoords: seq<real>
    const textureID: nat
    const loaded: bool

    constructor (name: string, vertices: seq<real>, normals: seq<real>, texcoords: seq<real>, textureID: nat)
      ensures this.name == name && this.vertices == vertices && this.normals == normals
      ensures this.texcoords == texcoords && this.textureID == textureID && loaded
    {
      this.name := name;
      this.vertices := vertices;
      this.normals := normals;
      this.texcoords := texcoords;
      this.textureID := textureID;
      this.loaded := true;
    }
  }

  /** What `idle` and the edit keys read and write of an object. */
  datatype ObjectState = ObjectState(pose: Transform, spin: bool, speed: real)

  class SceneObject {
    const name: string
    const model: Model?
    var x: real, y: real, z: real
    var rx: real, ry: real, rz: real
    var sx: real, sy: real, sz: real
    var spinAnimation: bool
    var spinSpeed: real

    function Pose(): Transform
      reads this
    {
      Transform(x, y, z, rx, ry, rz, sx, sy, sz)
    }

    function State(): ObjectState
      reads this
    {
      ObjectState(Pose(), spinAnimation, spinSpeed)
    }

    /** `AddObj`'s field assignments: animated objects spin at speed 1, others do not spin. */
    constructor (name: string, model: Model?, t: Transform, isAnimated: bool)
      ensures this.name == name && this.model == model && Pose() == t
      ensures spinAnimation == isAnimated
      ensures spinSpeed == if isAnimated then 1.0 else 0.0
    {
      this.name := name;
      this.model := model;
      x, y, z := t.x, t.y, t.z;
      rx, ry, rz := t.rx, t.ry, t.rz;
      sx, sy, sz := t.sx, t.sy, t.sz;
      if isAnimated {
        spinAnimation, spinSpeed := true, 1.0;
      } else {
        spinAnimation, spinSpeed := false, 0.0;
      }
    }
  }

  /** The index of the cache entry called `name`, if there is one. */
  function Find(models: seq<Model>, name: string): (r: Option<nat>)
    ensures r.None? <==> forall i :: 0 <= i < |models| ==> models[i].name != name
    ensures r.Some? ==> r.value < |models| && models[r.value].name == name
    ensures r.Some? ==> forall i :: 0 <= i < r.value ==> models[i].name != name
  {
    if models == [] then None
    else if models[0].name == name then Some(0)
    else
      match Find(models[1..], name)
      case None => None
      case Some(i) => Some(i + 1)
  }

  /** The loader path of every cache entry, in cache order. */
  function CachedPaths(models: seq<Model>): (r: seq<string>)
    ensures |r| == |models| && forall k :: 0 <= k < |models| ==> r[k] == ModelPath(models[k].name)
  {
    if models == [] then []
    else CachedPaths(models[..|models| - 1]) + [ModelPath(models[|models| - 1].name)]
  }

  /** `path` is the path of an entry of `models`. */
  ghost predicate Cached(path: string, models: seq<Model>) {
    path in CachedPaths(models)
  }

  // ---------------------------------------------------------------------
  // Animation step and key bindings, on values
  // ---------------------------------------------------------------------

  /** One `idle` call for one object: while the clock animates, a spinning object's `rx` drops by its speed. */
  function SpinStep(s: ObjectState, animating: bool): ObjectState {
    if animating && s.spin then s.(pose := s.pose.(rx := s.pose.rx - s.speed)) else s
  }

  /** `n` consecutive `idle` calls. */
  function SpinTicks(s: ObjectState, animating: bool, n: nat): ObjectState {
    if n == 0 then s else SpinStep(SpinTicks(s, animating, n - 1), animating)
  }

  /** While paused, any number of `idle` calls change nothing. */
  lemma {:induction false} PausedIdleChangesNothing(s: ObjectState, n: nat)
    ensures SpinTicks(s, false, n) == s
  {
    if n > 0 {
      PausedIdleChangesNothing(s, n - 1);
    }
  }

  /** While animating, `n` calls lower a spinning object's `rx` by `n` times its speed and touch nothing else. */
  lemma {:induction false} SpinAccumulates(s: ObjectState, n: nat)
    ensures SpinTicks(s, true, n) ==
      if s.spin then s.(pose := s.pose.(rx := s.pose.rx - (n as real) * s.speed)) else s
  {
    if n > 0 {
      SpinAccumulates(s, n - 1);
    }
  }

  const Esc: char := '\U{1B}'
  const Tab: char := '\t'
  const Enter: char := '\r'

  /** The transform edit bound to a key: 0.2 per position step, 5 degrees per rotation step, 0.05 per scale step. */
  function KeyEdit(key: char): Option<Edit> {
    match key
    case 'w' => Some(Edit({Y}, 0.2))
    case 's' => Some(Edit({Y}, -0.2))
    case 'a' => Some(Edit({X}, -0.2))
    case 'd' => Some(Edit({X}, 0.2))
    case 'q' => Some(Edit({Z}, 0.2))
    case 'e' => Some(Edit({Z}, -0.2))
    case 'r' => Some(Edit({RX}, 5.0))
    case 'f' => Some(Edit({RX}, -5.0))
    case 't' => Some(Edit({RY}, 5.0))
    case 'g' => Some(Edit({RY}, -5.0))
    case 'y' => Some(Edit({RZ}, 5.0))
    case 'h' => Some(Edit({RZ}, -5.0))
    case 'u' => Some(Edit({SX, SY, SZ}, 0.05))
    case 'j' => Some(Edit({SX, SY, SZ}, -0.05))
    case _ => None
  }

  function ApplyKey(key: char, t: Transform): Transform {
    match KeyEdit(key)
    case None => t
    case Some(e) => Apply(t, e)
  }

  /** The key that undoes a key's edit. */
  function UndoKey(key: char): char {
    match key
    case 'w' => 's' case 's' => 'w'
    case 'a' => 'd' case 'd' => 'a'
    case 'q' => 'e' case 'e' => 'q'
    case 'r' => 'f' case 'f' => 'r'
    case 't' => 'g' case 'g' => 't'
    case 'y' => 'h' case 'h' => 'y'
    case 'u' => 'j' case 'j' => 'u'
    case _ => key
  }

  /** Every edit key has a partner key that restores the transform exactly. */
  lemma UndoKeyRestores(key: char, t: Transform)
    requires KeyEdit(key).Some?
    ensures KeyEdit(UndoKey(key)) == Some(Opposite(KeyEdit(key).value))
    ensures ApplyKey(UndoKey(key), ApplyKey(key, t)) == t
  {
    ApplyOpposite(t, KeyEdit(key).value);
  }

  datatype Camera = Camera(angle: real, height: real, dist: real)

  /** GLUT's codes for the arrow keys. */
  const KeyLeft := 100
  const KeyUp := 101
  const KeyRight := 102
  const KeyDown := 103

  /** `specialKeys`: left/right orbit by 0.1 radians, up/down move 0.5 closer or further. */
  function CameraKey(key: int, c: Camera): Camera {
    if key == KeyLeft then c.(angle := c.angle - 0.1)
    else if key == KeyRight then c.(angle := c.angle + 0.1)
    else if key == KeyUp then c.(dist := c.dist - 0.5)
    else if key == KeyDown then c.(dist := c.dist + 0.5)
    else c
  }

  /** Left undoes right and up undoes down; no camera key touches the height. */
  lemma CameraKeysUndo(c: Camera)
    ensures CameraKey(KeyRight, CameraKey(KeyLeft, c)) == c
    ensures CameraKey(KeyLeft, CameraKey(KeyRight, c)) == c
    ensures CameraKey(KeyDown, CameraKey(KeyUp, c)) == c
    ensures CameraKey(KeyUp, CameraKey(KeyDown, c)) == c
    ensures forall k :: CameraKey(k, c).height == c.height
  {
  }

  /** One row of the hard-coded room in `LoadScene`; rotation is 0 and scale 1 for every row. */
  datatype Placement = Placement(name: string, model: string, x: real, y: real, z: real, animated: bool)

  const Room: seq<Placement> := [
    Placement("big_sofa", "big_sofa.obj", -1.854, 0.030, 0.198, false),
    Placement("bookshelf", "bookshelf.obj", -2.053, -1.771, 0.030, false),
    Placement("cactus", "cactus.obj", -0.155, -0.131, 0.503, false),
    Placement("carpet", "carpet.obj", -0.039, 0.244, 0.046, false),
    Placement("clock", "clock.obj", -2.262, -1.811, 2.082, true),
    Placement("lamp", "lamp.obj", -1.829, 1.863, 0.088, false),
    Placement("shelf", "shelf.obj", -2.181, 0.072, 1.499, false),
    Placement("sofa", "sofa.obj", -0.077, 1.839, 0.336, false),
    Placement("table", "table.obj", -0.285, -0.104, 0.048, false),
    Placement("tv", "tv.obj", 2.026, 0.132, 0.720, false),
    Placement("walls", "walls.obj", -0.178, 2.213, 1.590, false)
  ]

  /** Only the clock spins. */
  lemma OnlyClockAnimated()
    ensures forall k :: 0 <= k < |Room| ==> (Room[k].animated <==> Room[k].name == "clock")
  {
  }

  // ---------------------------------------------------------------------
  // The program state
  // ---------------------------------------------------------------------

  class Viewer {
    /** `tinyobj::LoadObj` on a path: the parsed file, or None when it fails. */
    const objLoader: string -> Option<ObjData<real>>
    /** `stbi_load` followed by `glGenTextures` on a path: a texture, or None when the image cannot be read. */
    const textureLoader: string -> Option<TextureId>

    var sceneObjects: seq<SceneObject>
    var loadedModels: seq<Model>
    var selectedObject: SceneObject?
    var selectionIndex: int

    var cameraAngle: real
    var cameraHeight: real
    var cameraDist: real

    var isClockAnimating: bool
    var isRoomSpinning: bool

    /** Every path handed to the OBJ loader, and to the image loader, in call order. */
    ghost var objLoads: seq<string>
    ghost var textureLoads: seq<string>

    /** The texture id `GetModel` stores for a parsed file. */
    function TextureIdFor(d: ObjData<real>): nat {
      match TextureRequest(d)
      case None => 0
      case Some(path) => TextureOrFallback(textureLoader(path))
    }

    /** A cache entry holds exactly what loading its name yields. */
    ghost predicate LoadedFrom(m: Model) {
      m.loaded &&
      objLoader(ModelPath(m.name)).Some? &&
      var d := objLoader(ModelPath(m.name)).value;
      m.vertices == Positions(d) && m.normals == Normals(d) && m.texcoords == Texcoords(d) &&
      m.textureID == TextureIdFor(d)
    }

    /**
     * Cached names are distinct and every entry holds what loading its name
     * yields; a path the OBJ loader succeeds on was handed to it at most once,
     * and, once handed, its name is cached.
     */
    ghost predicate CacheValid()
      reads this`loadedModels, this`objLoads
    {
      Entries(loadedModels) && LoggedOnce(objLoads, loadedModels)
    }

    /** The names of `models` are distinct and every entry holds what loading its name yields. */
    ghost predicate Entries(models: seq<Model>) {
      (forall i, j :: 0 <= i < j < |models| ==> models[i].name != models[j].name) &&
      (forall i :: 0 <= i < |models| ==> LoadedFrom(models[i]))
    }

    /** Caching a model loaded from its own name, under a name not cached yet, keeps the entries valid. */
    lemma CachingKeepsEntries(models: seq<Model>, m: Model)
      requires Entries(models) && LoadedFrom(m) && Find(models, m.name).None?
      ensures Entries(models + [m])
    {
      var all := models + [m];
      forall i, j | 0 <= i < j < |all|
        ensures all[i].name != all[j].name
      {
        assert all[i] == models[i];
      }
      forall i | 0 <= i < |all|
        ensures LoadedFrom(all[i])
      {
        if i < |models| {
          assert all[i] == models[i];
        }
      }
    }

    /** Each path of `log` the OBJ loader succeeds on occurs in it once, and belongs to an entry of `models`. */
    ghost predicate LoggedOnce(log: seq<string>, models: seq<Model>) {
      (forall i :: 0 <= i < |log| && objLoader(log[i]).Some? ==> Cached(log[i], models)) &&
      (forall i, j :: 0 <= i < j < |log| && log[i] == log[j] ==> objLoader(log[i]).None?)
    }

    /** Caching another model keeps the log valid. */
    lemma CachingKeepsLog(log: seq<string>, models: seq<Model>, m: Model)
      requires LoggedOnce(log, models)
      ensures LoggedOnce(log, models + [m])
    {
      forall i | 0 <= i < |log| && objLoader(log[i]).Some?
        ensures Cached(log[i], models + [m])
      {
        var k :| 0 <= k < |models| && CachedPaths(models)[k] == log[i];
        assert CachedPaths(models + [m])[k] == log[i];
      }
    }

    /** Handing the loader a path it fails on keeps the log valid. */
    lemma LoggingFailure(log: seq<string>, models: seq<Model>, path: string)
      requires LoggedOnce(log, models) && objLoader(path).None?
      ensures LoggedOnce(log + [path], models)
    {
    }

    /**
     * Handing the loader the path of the last cache entry keeps the log valid,
     * when that entry's name was not cached before.
     */
    lemma LoggingSuccess(log: seq<string>, models: seq<Model>, m: Model)
      requires LoggedOnce(log, models) && Find(models, m.name).None?
      ensures LoggedOnce(log + [ModelPath(m.name)], models + [m])
    {
      var path := ModelPath(m.name);
      var log' := log + [path];
      var paths' := CachedPaths(models + [m]);
      UncachedNotLoaded(log, models, m.name);
      CachingKeepsLog(log, models, m);
      assert paths'[|models|] == path;
      forall i | 0 <= i < |log'| && objLoader(log'[i]).Some?
        ensures Cached(log'[i], models + [m])
      {
        if i < |log| {
          assert log'[i] == log[i];
        }
      }
      forall i, j | 0 <= i < j < |log'| && log'[i] == log'[j]
        ensures objLoader(log'[i]).None?
      {
        assert log'[i] == log[i];
        if j < |log| {
          assert log'[j] == log[j];
        }
      }
    }

    /** The loader succeeded on no logged path of a name missing from the cache. */
    lemma UncachedNotLoaded(log: seq<string>, models: seq<Model>, name: string)
      requires LoggedOnce(log, models) && Find(models, name).None?
      ensures forall i :: 0 <= i < |log| && log[i] == ModelPath(name) ==> objLoader(log[i]).None?
    {
      var paths := CachedPaths(models);
      forall k | 0 <= k < |models|
        ensures paths[k] != ModelPath(name)
      {
        ModelPathInjective(models[k].name, name);
      }
      assert ModelPath(name) !in paths;
    }

    /** In every valid state, a path that loads occurs at most once in the loader log, and its name is cached. */
    lemma LoadedAtMostOnce(path: string)
      requires CacheValid()
      ensures objLoader(path).Some? ==> multiset(objLoads)[path] <= 1
      ensures objLoader(path).Some? && path in objLoads ==> path in CachedPaths(loadedModels)
    {
      if objLoader(path).Some? {
        OnceIfNeverRepeated(objLoads, path);
      }
    }

    /**
     * What one `GetModel(name)` call returning `m` does: a cached name yields its
     * entry and changes nothing; otherwise the path is handed to the OBJ loader
     * once, a failure yields null and caches nothing, and a success yields a new
     * entry appended to the cache, after the texture load its material asks for.
     */
    twostate predicate Resolved(name: string, new m: Model?)
      reads this`loadedModels, this`objLoads, this`textureLoads
    {
      (m != null <==> objLoader(ModelPath(name)).Some?) &&
      (m != null ==> m.name == name && m.loaded && m in loadedModels) &&
      (old(Find(loadedModels, name)).Some? ==>
        m == old(loadedModels[Find(loadedModels, name).value]) &&
        loadedModels == old(loadedModels) && objLoads == old(objLoads) && textureLoads == old(textureLoads)) &&
      (old(Find(loadedModels, name)).None? ==>
        objLoads == old(objLoads) + [ModelPath(name)] &&
        (m == null ==> loadedModels == old(loadedModels) && textureLoads == old(textureLoads)) &&
        (m != null ==>
           fresh(m) && loadedModels == old(loadedModels) + [m] &&
           textureLoads == old(textureLoads) + TextureLog(objLoader(ModelPath(name)).value)))
    }

    ghost predicate Valid()
      reads this`loadedModels, this`objLoads, this`sceneObjects, this`selectedObject, this`selectionIndex
    {
      CacheValid() &&
      (forall i, j :: 0 <= i < j < |sceneObjects| ==> sceneObjects[i] != sceneObjects[j]) &&
      (forall i :: 0 <= i < |sceneObjects| ==> sceneObjects[i].model == null || sceneObjects[i].model in loadedModels) &&
      0 <= selectionIndex &&
      (selectedObject != null ==> selectionIndex < |sceneObjects| && sceneObjects[selectionIndex] == selectedObject)
    }

    function Cam(): Camera
      reads this
    {
      Camera(cameraAngle, cameraHeight, cameraDist)
    }

    /** The globals' initial values. */
    constructor (objLoader: string -> Option<ObjData<real>>, textureLoader: string -> Option<TextureId>)
      ensures Valid()
      ensures this.objLoader == objLoader && this.textureLoader == textureLoader
      ensures sceneObjects == [] && loadedModels == [] && selectedObject == null && selectionIndex == 0
      ensures Cam() == Camera(0.0, 5.0, 15.0)
      ensures isClockAnimating && !isRoomSpinning
      ensures objLoads == [] && textureLoads == []
    {
      this.objLoader := objLoader;
      this.textureLoader := textureLoader;
      sceneObjects, loadedModels := [], [];
      selectedObject, selectionIndex := null, 0;
      cameraAngle, cameraHeight, cameraDist := 0.0, 5.0, 15.0;
      isClockAnimating, isRoomSpinning := true, false;
      objLoads, textureLoads := [], [];
    }

    /** The linear search at the top of `GetModel`. */
    method FindLoaded(filename: string) returns (m: Model?)
      ensures m == null <==> Find(loadedModels, filename).None?
      ensures m != null ==> m == loadedModels[Find(loadedModels, filename).value]
    {
      var i := 0;
      while i < |loadedModels|
        invariant i <= |loadedModels|
        invariant forall k :: 0 <= k < i ==> loadedModels[k].name != filename
      {
        if loadedModels[i].name == filename {
          return loadedModels[i];
        }
        i := i + 1;
      }
      return null;
    }

    /** `LoadTextureFromFile`: load `models/textures/<filename>`, 0 on failure. */
    method LoadTextureFromFile(filename: string) returns (id: nat)
      modifies this`textureLoads
      ensures textureLoads == old(textureLoads) + [TexturePath(filename)]
      ensures id == TextureOrFallback(textureLoader(TexturePath(filename)))
    {
      var fullPath := TexturePath(filename);
      textureLoads := textureLoads + [fullPath];
      id := TextureOrFallback(textureLoader(fullPath));
    }

    /** The texture block of `GetModel`: load the first material's texture, by its bare file name. */
    method MaterialTexture(d: ObjData<real>) returns (textureID: nat)
      modifies this`textureLoads
      ensures textureID == TextureIdFor(d)
      ensures textureLoads == old(textureLoads) + TextureLog(d)
    {
      textureID := 0;
      if |d.materials| > 0 && d.materials[0].diffuseTexname != [] {
        var rawName := d.materials[0].diffuseTexname;
        var fileName := TextureFileName(rawName);
        textureID := LoadTextureFromFile(fileName);
      }
    }

    /**
     * `GetModel`: a cached entry of that name is returned as it is and nothing
     * is loaded; otherwise the OBJ loader is asked, a failure returns null and
     * caches nothing, and a success is de-indexed, cached once and returned.
     */
    method GetModel(filename: string) returns (m: Model?)
      requires Valid()
      modifies this`loadedModels, this`objLoads, this`textureLoads
      ensures Valid() && Resolved(filename, m)
    {
      m := FindLoaded(filename);
      if m != null {
        return;
      }
      m := LoadModel(filename);
    }

    /** The cache-miss path of `GetModel`: ask the OBJ loader, and on success de-index, texture and cache the model. */
    method LoadModel(filename: string) returns (m: Model?)
      requires CacheValid() && Find(loadedModels, filename).None?
      modifies this`loadedModels, this`objLoads, this`textureLoads
      ensures CacheValid()
      ensures objLoads == old(objLoads) + [ModelPath(filename)]
      ensures m != null <==> objLoader(ModelPath(filename)).Some?
      ensures m == null ==> loadedModels == old(loadedModels) && textureLoads == old(textureLoads)
      ensures m != null ==> fresh(m) && m.name == filename && m.loaded && loadedModels == old(loadedModels) + [m]
      ensures m != null ==> textureLoads == old(textureLoads) + TextureLog(objLoader(ModelPath(filename)).value)
    {
      var fullPath := ModelPath(filename);
      var ret := objLoader(fullPath);
      if ret.None? {
        LoggingFailure(objLoads, loadedModels, fullPath);
        objLoads := objLoads + [fullPath];
        return null;
      }
      var d := ret.value;
      var textureID := MaterialTexture(d);
      var vertices, normals, texcoords := Deindex(d);
      m := new Model(filename, vertices, normals, texcoords, textureID);
      LoggingSuccess(objLoads, loadedModels, m);
      CacheModel(m);
      objLoads := objLoads + [fullPath];
    }

    /** `loadedModels.push_back(m)` for a freshly loaded model whose name is not cached yet. */
    method CacheModel(m: Model)
      requires CacheValid() && LoadedFrom(m) && Find(loadedModels, m.name).None?
      modifies this`loadedModels
      ensures CacheValid() && loadedModels == old(loadedModels) + [m]
    {
      CachingKeepsEntries(loadedModels, m);
      CachingKeepsLog(objLoads, loadedModels, m);
      loadedModels := loadedModels + [m];
    }

    /**
     * Two requests for one name return the same entry, and a name that loads is
     * loaded at most once; a name that fails is handed to the loader again.
     */
    method RepeatedGetModel(filename: string) returns (first: Model?, second: Model?)
      requires Valid()
      modifies this`loadedModels, this`objLoads, this`textureLoads
      ensures Valid()
      ensures first == second
      ensures first != null ==> |objLoads| <= |old(objLoads)| + 1
      ensures first == null ==> objLoads == old(objLoads) + [ModelPath(filename), ModelPath(filename)]
    {
      first := GetModel(filename);
      second := GetModel(filename);
    }

    /** `AddObj`: append one object with the given transform, its model resolved through the cache. */
    method AddObj(name: string, modelName: string,
                  x: real, y: real, z: real,
                  rx: real, ry: real, rz: real,
                  sx: real, sy: real, sz: real,
                  isAnimated: bool)
      requires Valid()
      modifies this`sceneObjects, this`loadedModels, this`objLoads, this`textureLoads
      ensures Valid()
      ensures |sceneObjects| == |old(sceneObjects)| + 1
      ensures sceneObjects == old(sceneObjects) + [sceneObjects[|sceneObjects| - 1]]
      ensures fresh(sceneObjects[|sceneObjects| - 1])
      ensures Added(sceneObjects[|sceneObjects| - 1], name, modelName, Transform(x, y, z, rx, ry, rz, sx, sy, sz), isAnimated)
      ensures Resolved(modelName, sceneObjects[|sceneObjects| - 1].model)
    {
      var model := GetModel(modelName);
      var obj := new SceneObject(name, model, Transform(x, y, z, rx, ry, rz, sx, sy, sz), isAnimated);
      AppendObject(obj);
    }

    /** `sceneObjects.push_back(obj)` for a new object whose model, if any, is cached. */
    method AppendObject(obj: SceneObject)
      requires Valid() && obj !in sceneObjects && (obj.model == null || obj.model in loadedModels)
      modifies this`sceneObjects
      ensures Valid() && sceneObjects == old(sceneObjects) + [obj]
    {
      sceneObjects := sceneObjects + [obj];
    }

    /** What `AddObj` promises of the object it appends. */
    ghost predicate Added(o: SceneObject, name: string, modelName: string, t: Transform, isAnimated: bool)
      reads o
    {
      o.name == name && o.Pose() == t &&
      o.spinAnimation == isAnimated && o.spinSpeed == (if isAnimated then 1.0 else 0.0) &&
      (o.model != null <==> objLoader(ModelPath(modelName)).Some?) &&
      (o.model != null ==> o.model.name == modelName)
    }

    /** `LoadScene`: the eleven objects of the room, in table order, then the first object selected. */
    method LoadScene() returns (ghost added: seq<SceneObject>)
      requires Valid() && selectionIndex == 0
      modifies this`sceneObjects, this`loadedModels, this`objLoads, this`textureLoads, this`selectedObject
      ensures Valid()
      ensures sceneObjects == old(sceneObjects) + added
      ensures AllPlaced(added, Room)
      ensures selectedObject == sceneObjects[0]
      ensures old(loadedModels) <= loadedModels && old(objLoads) <= objLoads && old(textureLoads) <= textureLoads
    {
      added := [];
      for k := 0 to |Room|
        invariant Valid() && selectionIndex == 0 && selectedObject == old(selectedObject)
        invariant old(loadedModels) <= loadedModels && old(objLoads) <= objLoads && old(textureLoads) <= textureLoads
        invariant sceneObjects == old(sceneObjects) + added
        invariant AllPlaced(added, Room[..k])
      {
        ghost var prev := added;
        added := PlaceRow(k, added);
        Associative(old(sceneObjects), prev, [added[k]]);
      }
      if sceneObjects != [] {
        selectedObject := sceneObjects[0];
      }
    }

    /** One pass of `LoadScene`'s table: `AddObj` for row `k`, unrotated and at unit scale. */
    method PlaceRow(k: nat, ghost added: seq<SceneObject>) returns (ghost more: seq<SceneObject>)
      requires k < |Room| && Valid() && AllPlaced(added, Room[..k])
      modifies this`sceneObjects, this`loadedModels, this`objLoads, this`textureLoads
      ensures Valid()
      ensures |more| == k + 1 && sceneObjects == old(sceneObjects) + [more[k]] && more == added + [more[k]]
      ensures AllPlaced(more, Room[..k + 1])
      ensures Resolved(Room[k].model, more[k].model)
    {
      var p := Room[k];
      AddObj(p.name, p.model, p.x, p.y, p.z, 0.0, 0.0, 0.0, 1.0, 1.0, 1.0, p.animated);
      var o := sceneObjects[|sceneObjects| - 1];
      more := added + [o];
      assert Room[..k + 1] == Room[..k] + [p];
      forall i | 0 <= i < k
        ensures Placed(more[i], Room[..k + 1][i])
      {
        assert Placed(added[i], Room[..k][i]);
      }
    }

    /** Each object of `objs` stands where the row of `rows` at the same position puts it. */
    ghost predicate AllPlaced(objs: seq<SceneObject>, rows: seq<Placement>)
      reads set o | o in objs
    {
      |objs| == |rows| && forall k :: 0 <= k < |objs| ==> Placed(objs[k], rows[k])
    }

    /** An object stands where its row of the room puts it. */
    ghost predicate Placed(o: SceneObject, p: Placement)
      reads o
    {
      Added(o, p.name, p.model, Transform(p.x, p.y, p.z, 0.0, 0.0, 0.0, 1.0, 1.0, 1.0), p.animated)
    }

    /**
     * `keyboard`: nothing happens without a selection (not even ESC); TAB
     * advances the cursor modulo the object count; space and ENTER toggle the
     * clock and the room spin; an edit key changes the selected object's
     * transform by its fixed step and no other object.
     */
    method Keyboard(key: char) returns (exit: bool)
      requires Valid()
      modifies this`selectionIndex, this`selectedObject, this`isClockAnimating, this`isRoomSpinning, selectedObject
      ensures Valid()
      ensures old(selectedObject) == null ==>
        !exit && selectedObject == null && selectionIndex == old(selectionIndex) &&
        isClockAnimating == old(isClockAnimating) && isRoomSpinning == old(isRoomSpinning)
      ensures old(selectedObject) != null ==>
        exit == (key == Esc) &&
        selectionIndex == (if key == Tab then NextMod(old(selectionIndex), |sceneObjects|) else old(selectionIndex)) &&
        selectedObject == sceneObjects[selectionIndex] &&
        isClockAnimating == (old(isClockAnimating) != (key == ' ')) &&
        isRoomSpinning == (old(isRoomSpinning) != (key == Enter)) &&
        old(selectedObject).State() == old(selectedObject.State()).(pose := ApplyKey(key, old(selectedObject.Pose())))
    {
      exit := false;
      if selectedObject == null {
        return;
      }
      assert KeyEdit(key).Some? ==> key !in {Esc, Tab, ' ', Enter};
      match key {
        case '\U{1B}' => exit := true;
        case '\t' => SelectNext();
        case ' ' => isClockAnimating := !isClockAnimating;
        case '\r' => isRoomSpinning := !isRoomSpinning;
        case _ => EditSelection(key);
      }
    }

    /** The edit cases of `keyboard`: the selected object's transform changes as `ApplyKey` says. */
    method EditSelection(key: char)
      requires Valid() && selectedObject != null
      modifies selectedObject`x, selectedObject`y, selectedObject`z, selectedObject`rx, selectedObject`ry, selectedObject`rz
      modifies selectedObject`sx, selectedObject`sy, selectedObject`sz
      ensures Valid()
      ensures selectedObject.State() == old(selectedObject.State()).(pose := ApplyKey(key, old(selectedObject.Pose())))
    {
      EditObject(selectedObject, key);
    }

    /** The TAB case of `keyboard`: advance the cursor modulo the object count and select that object. */
    method SelectNext()
      requires Valid() && selectedObject != null
      modifies this`selectionIndex, this`selectedObject
      ensures Valid()
      ensures selectionIndex == NextMod(old(selectionIndex), |sceneObjects|) && selectedObject == sceneObjects[selectionIndex]
    {
      selectionIndex := (selectionIndex + 1) % |sceneObjects|;
      selectedObject := sceneObjects[selectionIndex];
    }

    /** The position, rotation and scale cases of `keyboard`'s switch, applied to the selected object. */
    static method EditObject(obj: SceneObject, key: char)
      modifies obj`x, obj`y, obj`z, obj`rx, obj`ry, obj`rz, obj`sx, obj`sy, obj`sz
      ensures obj.State() == old(obj.State()).(pose := ApplyKey(key, old(obj.Pose())))
    {
      if key == 'u' || key == 'j' {
        var step := if key == 'u' then 0.05 else -0.05;
        obj.sx := obj.sx + step;
        obj.sy := obj.sy + step;
        obj.sz := obj.sz + step;
      } else {
        MoveObject(obj, key);
      }
    }

    /** The position and rotation cases: 0.2 per position step, 5 degrees per rotation step. */
    static method MoveObject(obj: SceneObject, key: char)
      requires key != 'u' && key != 'j'
      modifies obj`x, obj`y, obj`z, obj`rx, obj`ry, obj`rz
      ensures obj.Pose() == ApplyKey(key, old(obj.Pose()))
    {
      var speed := 0.2;
      var rSpeed := 5.0;
      match key {
        case 'w' => obj.y := obj.y + speed;
        case 's' => obj.y := obj.y - speed;
        case 'a' => obj.x := obj.x - speed;
        case 'd' => obj.x := obj.x + speed;
        case 'q' => obj.z := obj.z + speed;
        case 'e' => obj.z := obj.z - speed;
        case 'r' => obj.rx := obj.rx + rSpeed;
        case 'f' => obj.rx := obj.rx - rSpeed;
        case 't' => obj.ry := obj.ry + rSpeed;
        case 'g' => obj.ry := obj.ry - rSpeed;
        case 'y' => obj.rz := obj.rz + rSpeed;
        case 'h' => obj.rz := obj.rz - rSpeed;
        case _ =>
      }
    }

    /** `specialKeys`: the arrow keys move the orbit camera; nothing else changes. */
    method SpecialKeys(key: int)
      modifies this`cameraAngle, this`cameraDist
      ensures Cam() == CameraKey(key, old(Cam()))
    {
      if key == KeyLeft {
        cameraAngle := cameraAngle - 0.1;
      } else if key == KeyRight {
        cameraAngle := cameraAngle + 0.1;
      } else if key == KeyUp {
        cameraDist := cameraDist - 0.5;
      } else if key == KeyDown {
        cameraDist := cameraDist + 0.5;
      }
    }

    /**
     * `idle`: while the clock animates, every spinning object's `rx` drops by
     * its speed; while the room spins, the camera orbits by 0.005.
     */
    method Idle()
      requires Valid()
      modifies this`cameraAngle, sceneObjects
      ensures forall k :: 0 <= k < |sceneObjects| ==>
        sceneObjects[k].State() == SpinStep(old(sceneObjects[k].State()), isClockAnimating)
      ensures cameraAngle == old(cameraAngle) + (if isRoomSpinning then 0.005 else 0.0)
    {
      if isClockAnimating {
        var i := 0;
        while i < |sceneObjects|
          invariant i <= |sceneObjects|
          invariant forall k :: 0 <= k < i ==>
            sceneObjects[k].State() == SpinStep(old(sceneObjects[k].State()), true)
          invariant forall k :: i <= k < |sceneObjects| ==> sceneObjects[k].State() == old(sceneObjects[k].State())
          modifies sceneObjects
        {
          var obj := sceneObjects[i];
          if obj.spinAnimation {
            obj.rx := obj.rx - obj.spinSpeed;
          }
          i := i + 1;
        }
      }
      if isRoomSpinning {
        cameraAngle := cameraAngle + 0.005;
      }
    }
  }
}
