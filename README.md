# Room viewer scene bookkeeping, in Dafny

A model of the scene bookkeeping in two OpenGL/GLUT viewers and the proofs that go with it.

- `main.cpp` is the room viewer: a flat list of furniture objects.
- `versions/complex1.cpp` is the scene editor: a tree read from a JSON scene file.

Both keep a name-keyed cache of OBJ models, a TAB-driven selection cursor, letter keys that edit the selected item, and an `idle` step that spins animated items. The editor also draws its tree through the GL matrix stack. That drawing is modelled as the sequence of stack events it issues, which a small stack machine runs.

The model is split into modules:

| module | file | models |
|---|---|---|
| `Optional` | `optional.dfy` | the null pointer / absent JSON key |
| `Transforms` | `transforms.dfy` | the nine transform fields and a key's edit of them |
| `Cycling` | `cycling.dfy` | the two TAB index rules and the count of selection flags |
| `ObjMesh` | `obj_mesh.dfy` | the de-indexing loops of `GetModel` (both files) |
| `RoomViewer` | `room_viewer.dfy` | `main.cpp`: `Model`, `Object`, the globals, `GetModel`, `AddObj`, `LoadScene`, `keyboard`, `specialKeys`, `idle` |
| `SceneJson` | `scene_json.dfy` | the decoded scene file, `parseNode`'s defaults, and the post-order in which nodes reach `flatList` |
| `DrawTrace` | `draw_trace.dfy` | `Node::DrawLegacy` as push / matrix / draw / pop events, and the modelview stack that runs them |
| `SceneEditor` | `scene_editor.dfy` | `versions/complex1.cpp`: `Node`, the globals, `GetModel`, `parseNode`, `LoadScene`, `DrawLegacy`, `keyboard`, `specialKeys`, `idle` |
| `Sequences` | `sequences.dfy` | two facts about sequences that the loader-log proofs use |

## How the model maps to the code

- The code changes state in place, so the model does too.
  - Each program's globals are the fields of a class: `RoomViewer.Viewer` and `SceneEditor.Editor`.
  - `Object`, `Node` and `Model` are classes.
  - The methods carry `modifies` clauses, and each states its effect on every field it modifies. The scene-building methods state only that the cache and the loader logs grow; each model request inside them is stated in full by `Resolved`, the effect of one `GetModel` call.
  - Each method is tied to a value-level function, and the lemmas are proved about those functions. Examples: `ApplyKey`, `EditNode`, `Tick`, `SpinStep`, `Positions`, `Layout`, `Trace`.
- The OBJ loader (`tinyobj::LoadObj`) and the image loader (`stbi_load` with `glGenTextures`) are deterministic functions given to the constructor (for the texture id this is a simplification; see "## Left out").
  - A ghost log records every path handed to each loader. This is what makes "the loader is not called on a cache hit" a provable statement.
  - The cache invariant says every cached entry holds exactly what loading its name yields. It also says that every path the OBJ loader succeeds on occurs at most once in the loader log, and that its name is then cached. Every method keeps this invariant, so it holds over all calls, not just two.
- The editor keeps the shape of its tree as ghost slot numbers beside `flatList`: for each slot, the slots of its children, and the slots of the roots.
  - Every child's slot is earlier than its parent's. This is what the post-order `flatList` provides.
  - Drawing terminates on this ordering.
- Each program keeps its own `Model`, `Find`, `FindLoaded`, `ModelPath` and key constants, as the two source files do. They are separate programs, and the editor's `Model` has no texture coordinates or texture id.
- Several operations are split into step methods (`ParseChild`, `ParseRoot`, `BuildNode`, `TurnPose`, `DeindexShape`, `LoadModel`, `CacheModel`, `PlaceRow`, `AppendObject`, `SelectFirst`, `SelectNext`, `MoveSelection`, `EditSelection`, `MovePose`, `MoveObject`, `DrawChildren`). Each one is a part of the C++ function it names: one loop body, one branch, one loop (`DrawChildren` is `DrawLegacy`'s children loop), or the statements at its end.

Notes on what the code does:

- **`flatList` order.** `flatList` is a post-order list, not a pre-order one: `parseNode` appends a node after its children (`versions/complex1.cpp:153-160`).
- **TAB on an empty scene.** The editor's TAB on an empty `flatList` indexes out of range. It is not a no-op.
- **Failed loads.** A model that fails to load is handed to the loader again on every request. A path that loads is handed to the loader at most once over the program's whole run (`LoadedAtMostOnce`).
- **Normals and texture coordinates.** A de-indexed model has normals and texture coordinates only for corners whose index is non-negative. Those arrays can be shorter than the position array.

## Model

| member | source | states |
|---|---|---|
| Transforms.Apply | main.cpp:304-321 | an edit adds its delta to every field it names and leaves every other field as it was |
| Transforms.ApplyOpposite | main.cpp:304-321 | applying an edit and then the opposite edit restores the transform exactly |
| Cycling.NextMod | main.cpp:290 | main.cpp's next cursor is always inside the list |
| Cycling.NextWrap | versions/complex1.cpp:239-240 | the editor's next cursor is the next index, or 0 once the end is reached, and is always inside the list |
| Cycling.WrapIsMod | versions/complex1.cpp:239-240 | for a cursor inside the list, the editor's increment-and-reset rule equals main.cpp's modulo rule |
| Cycling.PressesCompose | main.cpp:289-291 | `a` TAB presses followed by `b` presses are `a + b` presses |
| Cycling.PressesWithinList | main.cpp:289-291 | before the end of the list, each press moves the cursor one entry on |
| Cycling.FullCycle | main.cpp:289-291 | as many TAB presses as there are entries return the cursor to where it started |
| ObjMesh.CornersSize | main.cpp:131-132 | the corners walked are as many as the index lists' total length |
| ObjMesh.CornerListed | main.cpp:131-132 | every index of every shape is one of the corners walked |
| ObjMesh.PositionsSize | main.cpp:133-135 | the flat position array holds exactly three values per corner |
| ObjMesh.PositionAt | main.cpp:133-135 | corner `k`'s position is the `k`-th triple, copied from the vertex its index names |
| ObjMesh.NormalsSize | main.cpp:137-141 | the flat normal array holds three values for each corner whose normal index is non-negative, and none for the others |
| ObjMesh.NormalAt | main.cpp:137-141 | a corner with a normal owns the triple after those of the earlier corners with normals, copied from the normal its index names |
| ObjMesh.TexcoordsSize | main.cpp:143-146 | the flat texture-coordinate array holds two values for each corner whose texture index is non-negative |
| ObjMesh.TexcoordAt | main.cpp:143-146 | a corner with a texture coordinate owns the pair after those of the earlier such corners |
| ObjMesh.AppendCorner | main.cpp:132-147 | one more corner appends its position triple, its normal triple only when it has one, and its pair only when it has one |
| ObjMesh.CornerFits | main.cpp:131-135 | every corner of every shape the loader returns refers to attributes that exist |
| ObjMesh.Deindex | main.cpp:131-148 | the nested loops produce exactly the positions, normals and texture coordinates of all corners, shape after shape |
| ObjMesh.DeindexShape | main.cpp:132-147 | the inner loop appends one shape's corners' data, in order, after the data of the shapes before it |
| RoomViewer.TexturePath | main.cpp:66 | the texture path is `models/textures/` followed by the file name, unchanged |
| RoomViewer.TextureFileName | main.cpp:123-125 | the texture name is the suffix of the raw name after its last `/` or `\`: it contains neither separator, is preceded by one when shorter, and is the raw name when there is none |
| RoomViewer.TextureLog | main.cpp:122-129 | a model load asks the image loader for at most one file, exactly when its first material names a texture, and then for that bare file name |
| RoomViewer.Find | main.cpp:97-99 | the search finds the first cached model with that name, or reports that none has it |
| RoomViewer.ModelPathInjective | main.cpp:111 | two names with the same loader path are the same name |
| RoomViewer.CachedPaths | main.cpp:110-152 | the cache order lists, entry by entry, the loader path `models/<name>` each entry was loaded from |
| RoomViewer.PausedIdleChangesNothing | main.cpp:336-344 | while the clock is paused, any number of `idle` calls change no object |
| RoomViewer.SpinAccumulates | main.cpp:336-344 | `n` calls while animating lower a spinning object's `rx` by `n` times its speed and change nothing else |
| RoomViewer.UndoKeyRestores | main.cpp:303-321 | every edit key has a partner with the opposite edit, and pressing both restores the transform |
| RoomViewer.CameraKeysUndo | main.cpp:326-332 | left and right undo each other, up and down undo each other, and no camera key changes the height |
| RoomViewer.OnlyClockAnimated | main.cpp:183-193 | of the eleven objects of the room, only the clock spins |
| RoomViewer.SceneObject.constructor | main.cpp:165-176 | a new object has the given name, model and transform, and spins at speed 1 exactly when animated (speed 0 otherwise) |
| RoomViewer.Viewer.constructor | main.cpp:47-59 | the globals start empty, with no selection, the camera at angle 0, height 5 and distance 15, the clock running and the room not spinning |
| RoomViewer.Viewer.FindLoaded | main.cpp:97-99 | the loop returns the cached entry of that name exactly when there is one |
| RoomViewer.Viewer.LoadTextureFromFile | main.cpp:64-75 | the image loader is asked for `models/textures/<name>`, and a failure yields texture 0 |
| RoomViewer.Viewer.MaterialTexture | main.cpp:122-129 | only a first material with a texture name triggers an image load, of that name's bare file name; the model otherwise keeps texture 0 |
| RoomViewer.Viewer.CachingKeepsEntries | main.cpp:150-152 | caching a model loaded from its own name, under a name not cached yet, keeps names distinct and entries faithful to their files |
| RoomViewer.Viewer.LoggingFailure | main.cpp:111-119 | handing the loader a path it fails on keeps the loader-log invariant |
| RoomViewer.Viewer.LoggingSuccess | main.cpp:111-153 | handing the loader the path of a name not cached before, and caching the result, keeps the loader-log invariant |
| RoomViewer.Viewer.CachingKeepsLog | main.cpp:152 | appending to the cache keeps every successfully loaded path of the log cached |
| RoomViewer.Viewer.UncachedNotLoaded | main.cpp:96-119 | no path of a name missing from the cache is one the loader has succeeded on |
| RoomViewer.Viewer.LoadedAtMostOnce | main.cpp:96-154 | in every valid state a path that loads occurs at most once in the loader log, and its name is cached |
| RoomViewer.Viewer.GetModel | main.cpp:96-154 | a hit returns the cached entry and loads nothing; a miss asks the loader for `models/<name>` once; a failure returns null and caches nothing; a success returns a new entry named after the request, marked loaded, appended once, after its material's texture load; names stay distinct and the loader-log invariant is kept |
| RoomViewer.Viewer.LoadModel | main.cpp:101-153 | on a miss, the loader is called once, and only a successful load adds an entry, holding the de-indexed data and the material's texture |
| RoomViewer.Viewer.CacheModel | main.cpp:150-152 | appending a freshly loaded model under a new name keeps names distinct and entries faithful to their files |
| RoomViewer.Viewer.RepeatedGetModel | main.cpp:96-119 | two requests for one name return the same entry; a name that loads is loaded at most once, and one that fails is handed to the loader twice |
| RoomViewer.Viewer.AddObj | main.cpp:159-179 | exactly one new object is appended, with the given name and nine transform fields, the spin set by `isAnimated`, and the cache's answer for its model, with the cache and the loader logs changed exactly as one `GetModel` call changes them |
| RoomViewer.Viewer.AppendObject | main.cpp:178 | the new object is appended to the scene list, which keeps distinct objects whose models are cached |
| RoomViewer.Viewer.PlaceRow | main.cpp:183-193 | one row of the room becomes one appended object, unrotated and at unit scale, its model resolved as one `GetModel` call |
| RoomViewer.Viewer.LoadScene | main.cpp:181-198 | the eleven objects are appended in table order, each placed by its row, and then the first object is selected; the cache and the loader logs only grow |
| RoomViewer.Viewer.Keyboard | main.cpp:282-324 | with no selection every key is ignored; otherwise ESC asks to exit, TAB advances the cursor modulo the object count and selects that object, space and ENTER toggle the clock and the room spin, and any other key applies its edit to the selected object only |
| RoomViewer.Viewer.SelectNext | main.cpp:289-291 | TAB moves the cursor to the next index modulo the object count and selects that object |
| RoomViewer.Viewer.EditSelection | main.cpp:303-321 | an edit key changes the selected object as `ApplyKey` says, and the viewer invariant is kept |
| RoomViewer.Viewer.EditObject | main.cpp:303-321 | the selected object's transform changes by exactly the key's edit, and its spin does not change |
| RoomViewer.Viewer.MoveObject | main.cpp:303-317 | the position and rotation keys move by 0.2 and turn by 5 degrees along their one field |
| RoomViewer.Viewer.SpecialKeys | main.cpp:326-334 | the arrow keys move the orbit camera as `CameraKey` says, and nothing else changes |
| RoomViewer.Viewer.Idle | main.cpp:336-352 | every object takes one spin step under the clock flag, and the camera orbits by 0.005 only while the room spins |
| SceneJson.KeysAndDefaults | versions/complex1.cpp:139-151 | an absent key takes its default ("Unnamed", "group", origin, no rotation, unit scale, not animated, speed 1), and a present key is used as given; only a `"mesh"` node with a `model` key asks for a model |
| SceneJson.NameOnlyNode | versions/complex1.cpp:139-147 | a node giving only its name is a group at the origin, unrotated, at unit scale, not animated, with speed 1 and no model |
| SceneJson.LayoutIsPostOrder | versions/complex1.cpp:153-160 | a subtree fills as many slots as it has nodes, in post-order, and its own node comes last |
| SceneJson.LayoutSeqIsPostOrder | versions/complex1.cpp:169-171 | consecutive subtrees fill their slots in post-order, in declaration order |
| SceneJson.LayoutSeqStep | versions/complex1.cpp:154-156 | parsing one more child appends its subtree's slots, and its root slot, after those of the children before it |
| SceneJson.SlotsStep | versions/complex1.cpp:154-156 | the same step, with the number of slots already filled given explicitly |
| SceneJson.LayoutSeqPrefix | versions/complex1.cpp:154-156 | parsing a prefix of a child list fills a prefix of the slots |
| SceneJson.RootsAt | versions/complex1.cpp:169-171 | root `i` lands at the last slot of the `i`-th subtree, inside the block the subtrees fill |
| SceneJson.RootEntry | versions/complex1.cpp:169-171 | the slot a root lands on holds that root |
| SceneJson.LastOfPrefix | versions/complex1.cpp:154-160 | the last slot filled by the first `i + 1` subtrees holds root `i` |
| SceneJson.ParentEntryWired | versions/complex1.cpp:156-160 | a node appended after its children lists slots that hold exactly those children, in order |
| SceneJson.ParentSlotWired | versions/complex1.cpp:153-160 | a subtree's last slot lists the slots of its children's roots, in order, all earlier than itself |
| SceneJson.LayoutWired | versions/complex1.cpp:153-160 | every slot of a subtree lists one earlier slot per child, holding that child |
| SceneJson.LayoutSeqWired | versions/complex1.cpp:169-171 | the same holds for the slots of consecutive subtrees |
| SceneJson.DescendantsFirst | versions/complex1.cpp:153-160 | every node is laid out after all of its children |
| DrawTrace.LocalEvents | versions/complex1.cpp:46-51 | a node's matrix calls are translate, rotate about Z, then Y, then X, then scale, in that order |
| DrawTrace.RunApplies | versions/complex1.cpp:47-51 | the matrix calls extend the current matrix by their ops, in call order, and leave the rest of the stack alone |
| DrawTrace.ApplyFirst | versions/complex1.cpp:47 | the first matrix call extends the current matrix by its op, and the remaining calls run from there |
| DrawTrace.EnterNode | versions/complex1.cpp:46-65 | push, the five ops and the node's own draw leave a new top matrix holding the node's ops, and draw the node's model under it only when it has one |
| DrawTrace.TraceBalanced | versions/complex1.cpp:45-69 | drawing a subtree leaves the stack as it found it, never pops the bottom matrix, and draws its models in pre-order, each under its ancestors' ops and then its own |
| DrawTrace.TraceSeqBalanced | versions/complex1.cpp:67 | drawing children one after another keeps the stack balanced and draws them in order |
| DrawTrace.SceneBalanced | versions/complex1.cpp:213-215 | drawing all roots from a one-matrix stack leaves that stack and draws every model under its ancestors' ops, in pre-order |
| DrawTrace.AncestorsFirst | versions/complex1.cpp:45-69 | every model drawn in a subtree is drawn under the entry matrix extended by the subtree root's own ops |
| DrawTrace.AncestorsFirstSeq | versions/complex1.cpp:67 | every model drawn by a list of children is drawn under the parent's matrix, extended |
| Sequences.OnceIfNeverRepeated | main.cpp:96-154 | an entry that no two positions of a log share occurs in it at most once, which turns the loader-log invariant into a count |
| SceneEditor.Find | versions/complex1.cpp:90-92 | the search finds the first cached model with that name, or reports that none has it |
| SceneEditor.ModelPathInjective | versions/complex1.cpp:103 | two names with the same loader path are the same name |
| SceneEditor.CachedPaths | versions/complex1.cpp:102-130 | the cache order lists, entry by entry, the loader path `models/<name>` each entry was loaded from |
| SceneEditor.EditChangesOneField | versions/complex1.cpp:250-263 | an edit key changes exactly one transform field by its fixed delta, and leaves the other eight fields, the speed and the flag alone |
| SceneEditor.SpeedKeysOnlySpeed | versions/complex1.cpp:247-248 | `[` lowers and `]` raises only the speed, by 0.1 |
| SceneEditor.UndoKeyRestores | versions/complex1.cpp:247-263 | each edit key and `[`/`]` has a partner that restores the node |
| SceneEditor.IdleWithoutEffect | versions/complex1.cpp:281-288 | with the clock stopped, or for a node that is not animated, any number of `idle` calls change nothing |
| SceneEditor.TicksAccumulate | versions/complex1.cpp:281-288 | `n` calls with the clock running turn an animated node about Z by `n` times its speed and change nothing else |
| SceneEditor.EyeKeysUndo | versions/complex1.cpp:268-279 | opposite camera keys undo each other, and any key other than the six does nothing |
| SceneEditor.Node.constructor | versions/complex1.cpp:28-43 | a new node has the given fields and is not selected |
| SceneEditor.Editor.constructor | versions/complex1.cpp:75-84 | the globals start empty, with no selection, index 0, the clock running and the eye at (0, -5, 2) |
| SceneEditor.Editor.SelectionIsExclusive | versions/complex1.cpp:172-175 | while a node is selected exactly one node carries the flag, and none before any selection |
| SceneEditor.Editor.FindLoaded | versions/complex1.cpp:90-92 | the loop returns the cached entry of that name exactly when there is one |
| SceneEditor.Editor.LoggingFailure | versions/complex1.cpp:103-111 | handing the loader a path it fails on keeps the loader-log invariant |
| SceneEditor.Editor.LoggingSuccess | versions/complex1.cpp:103-131 | handing the loader the path of a name not cached before, and caching the result, keeps the loader-log invariant |
| SceneEditor.Editor.CachingKeepsLog | versions/complex1.cpp:130 | appending to the cache keeps every successfully loaded path of the log cached |
| SceneEditor.Editor.UncachedNotLoaded | versions/complex1.cpp:89-111 | no path of a name missing from the cache is one the loader has succeeded on |
| SceneEditor.Editor.CachingKeepsEntries | versions/complex1.cpp:130 | caching a model loaded from its own name, under a name not cached yet, keeps names distinct and entries faithful to their files |
| SceneEditor.Editor.LoadedAtMostOnce | versions/complex1.cpp:89-132 | in every valid state a path that loads occurs at most once in the loader log, and its name is cached |
| SceneEditor.Editor.GetModel | versions/complex1.cpp:89-132 | a hit returns the cached entry and loads nothing; a miss asks the loader for `models/<name>` once; a failure returns null and caches nothing; a success appends one new entry named after the request, marked loaded, holding the de-indexed data; the loader-log invariant is kept |
| SceneEditor.Editor.LoadModel | versions/complex1.cpp:94-131 | on a miss, the loader is called once, and only a successful load adds an entry, holding the de-indexed data |
| SceneEditor.Editor.CacheModel | versions/complex1.cpp:130 | appending a freshly loaded model under a new name keeps names distinct and entries faithful to their files |
| SceneEditor.Editor.RepeatedGetModel | versions/complex1.cpp:89-111 | two requests for one name return the same entry; a name that loads is loaded at most once, and one that fails is handed to the loader twice |
| SceneEditor.Editor.LaidInPostOrder | versions/complex1.cpp:137-171 | the nodes appended while loading are the file's nodes in post-order, each built from its JSON node with its defaults |
| SceneEditor.Editor.MeshFor | versions/complex1.cpp:149-151 | a node has a model exactly when it is a `"mesh"` node naming a model that loads, and that model is cached under that name; a node that asks for no model changes neither the cache nor the loader log, and one that does changes them exactly as one `GetModel` call |
| SceneEditor.Editor.ParseNode | versions/complex1.cpp:137-162 | `parseNode` appends its subtree to `flatList` in post-order, each new node built from its JSON node and holding its children's nodes, and returns the subtree's root; the cache and the loader log only grow |
| SceneEditor.Editor.ParseChildren | versions/complex1.cpp:153-158 | the children are parsed in declaration order, and the collected nodes are the roots of their subtrees |
| SceneEditor.Editor.ParseChild | versions/complex1.cpp:154-156 | child `i`'s subtree is appended after the earlier children's, and its root comes last |
| SceneEditor.Editor.ChildStep | versions/complex1.cpp:154-156 | child `i`'s slots follow the earlier children's, and its root slot is the last of them |
| SceneEditor.Editor.ChildrenExtend | versions/complex1.cpp:154-156 | after one more child subtree is appended, every collected child, the new one included, is the node at its recorded slot |
| SceneEditor.Editor.BuildNode | versions/complex1.cpp:138-160 | the node built from its JSON node, holding its already parsed children, takes the slot after theirs and completes the subtree's post-order layout |
| SceneEditor.Editor.AppendNode | versions/complex1.cpp:160 | the new node takes the next slot, with its children at earlier slots |
| SceneEditor.Editor.AddRoot | versions/complex1.cpp:170 | the node just appended becomes the next root |
| SceneEditor.Editor.ParseRoot | versions/complex1.cpp:169-171 | one root's subtree is appended in post-order and its node is added to `sceneGraph` |
| SceneEditor.Editor.ParseRoots | versions/complex1.cpp:169-171 | every root is parsed in order: `flatList` gains the post-order of the scene and `sceneGraph` one node per root |
| SceneEditor.Editor.LoadScene | versions/complex1.cpp:164-176 | a missing file changes nothing, not even a node; otherwise the scene is appended in post-order, and when the list is not empty its first node becomes the one selected node; the nodes already in `flatList` keep their transform, speed and children, and at most their flag changes |
| SceneEditor.Editor.SelectFirst | versions/complex1.cpp:172-175 | the first node of `flatList` is selected and is the only node flagged |
| SceneEditor.Editor.SelectNext | versions/complex1.cpp:237-244 | TAB clears the old flag, advances the index (back to 0 at the end), selects and flags that node, and changes nothing else |
| SceneEditor.Editor.MoveSelection | versions/complex1.cpp:238-242 | the flag moves from the old selected node to the next one (0 after the last), so exactly the selected node carries it |
| SceneEditor.Editor.Keyboard | versions/complex1.cpp:229-266 | ESC asks to exit, TAB moves the selection, `/` toggles the clock, and any other key edits only the selected node, if there is one |
| SceneEditor.Editor.EditSelection | versions/complex1.cpp:247-263 | the selected node changes as `EditNode` says for the key, and every other node is unchanged |
| SceneEditor.Editor.EditSelected | versions/complex1.cpp:247-263 | the selected node changes exactly as `EditNode` says for the key |
| SceneEditor.Editor.MovePose | versions/complex1.cpp:250-263 | the twelve transform keys move by 0.1 along their one axis or turn as `TurnPose` says, matching `ApplyKey` |
| SceneEditor.Editor.TurnPose | versions/complex1.cpp:258-263 | the rotation keys turn by 2 degrees about their one axis, and any other key leaves the transform alone |
| SceneEditor.Editor.SpecialKeys | versions/complex1.cpp:268-279 | the arrow and page keys move the camera eye as `EyeKey` says, and nothing else changes |
| SceneEditor.Editor.Idle | versions/complex1.cpp:281-288 | every node takes exactly one `Tick`: animated nodes turn about Z by their speed while the clock runs, and nothing else changes |
| SceneEditor.Editor.ValidIsWired | versions/complex1.cpp:39-67 | every node's children sit at earlier slots of `flatList`, which is what drawing descends on |
| SceneEditor.Editor.DrawLegacy | versions/complex1.cpp:45-69 | the events drawing a node issues are the trace of the subtree as it stands: push, its five ops, its model only when present and loaded (highlighted when selected), its children in order, pop |
| SceneEditor.Editor.DrawChildren | versions/complex1.cpp:67 | the children are drawn in order, each as its own subtree |
| SceneEditor.Editor.DrawScene | versions/complex1.cpp:213-215 | drawing every root issues the scene's trace, which leaves a one-matrix stack as it found it and draws every model in pre-order under its ancestors' ops |

## Left out

- Rendering is left out because it is a GL side effect. This covers every OpenGL/GLU/GLUT call: `init`, `reshape`, `main`, `display` in `main.cpp`, the floor grid, lighting, `gluLookAt`, and the colours.
  - In `DrawLegacy`, the vertex loop becomes one `Draw` event carrying the model name and the selection highlight.
- Matrix and trigonometric arithmetic is not computed. A matrix is the list of ops applied to it, in call order.
- Floating-point rounding is not modelled. Transform, camera and speed fields are `real`, and the constants are the source's decimal literals.
- `tinyobj::LoadObj`, `stbi_load` and `nlohmann::json::parse` are foreign libraries. They are replaced by a loader function, an image-loader function and a decoded `SceneFile`.
  - The OBJ loader's result is assumed to hold only in-range indices, which the C++ reads unchecked.
- JSON that the library would reject or throw on is not modelled. This includes wrong types and `pos`/`rot`/`scale` arrays with fewer than three numbers.
- File I/O is a parameter: the scene file is `Option<SceneFile>`, and `None` stands for a file that cannot be opened.
- Console logging is left out because it is output only.
- Heap ownership and leaks (`new`, `delete`) are left out. Nodes, objects and models are Dafny references.
- `glutPostRedisplay` is left out because it only schedules a redraw.
- RoomViewer.Viewer.Keyboard and SceneEditor.Editor.Keyboard: ESC's `exit(0)` is the returned flag `exit`, because the process exit cannot be modelled.
- SceneEditor.Editor.Keyboard: TAB requires a non-empty `flatList`. The source indexes `flatList[0]` unchecked when the list is empty.
- RoomViewer.Viewer.LoadTextureFromFile, MaterialTexture and GetModel take the texture id to depend only on the image path. `glGenTextures` (`main.cpp:77-78`) hands out a new name on every call, so two models whose first materials name the same image get two different ids in the program but the same id in the model. Rendering, the only code that reads the id, is left out.
- SceneEditor.Editor.LoadScene requires that nothing is selected yet. RoomViewer.Viewer.LoadScene requires the cursor at 0. Both programs call `LoadScene` once, at startup, in that state.
- SceneEditor.Editor.ParseNode creates the node object after its children are parsed. The source creates it first, but nothing reads it before it is appended. The node's model is still requested before its children are parsed, as in the source (`MeshFor` comes first).
- SceneEditor.Editor.ParseNode, `ParseChildren`, `ParseChild`, `ParseRoot`, `ParseRoots` and `LoadScene` state that the cache and the loader log only grow, not which paths they append or in what order. Each request is stated exactly by `MeshFor`, and the at-most-once property by the cache invariant they keep.
- RoomViewer.Viewer.LoadScene states that the cache and the loader logs only grow, not which paths are appended. Each row's request is stated exactly by `PlaceRow`.
- SceneEditor.Editor.GetModel uses the shared de-indexing method and discards its texture coordinates. `versions/complex1.cpp` never copies them.
- SceneEditor.Editor.DrawLegacy is a method of the editor with a ghost slot argument. Its termination rests on children sitting at earlier slots, which the editor's invariant maintains.
- The per-node draw colour and the vertex count of a drawn model are not part of the trace.
