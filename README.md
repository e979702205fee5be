# Scene bookkeeping of a three.js scene editor, in Dafny

The editor lets a user pick a shape (cube, sphere, cylinder) and a size, click "create" to
add a mesh to a three.js scene, and delete meshes again from a list. This project models the
two pieces of logic in it that are more than calls into React or three.js:

- **Scene bookkeeping** (`src/App.js`). Three collections are kept side by side: the
  scene's children (owned by the engine), the module-level `objects` array, and the React
  item list of `{id, text}` records. `createNewObject` looks the shape up in the
  `geometryCreators` table, builds a mesh with the one shared material, pushes it onto
  `objects`, adds it to the scene and appends an item. `handleDeleteObject` filters the item
  list by id, finds the mesh by uuid in `objects` and removes it from the scene, but never
  shrinks `objects`.
- **Lazy memoised getter** (`src/hooks/useStaticRefCurrentGetter.js`). `getCurrent` fills
  `ref.current` from `initialize()` when the slot is falsy and returns the slot.

Modules:

- `Wrappers`: `Option`, the result of a lookup that may find nothing.
- `Geometry`: the `geometryCreators` table. `LookupCreator` is the keyed lookup.
  `CreateGeometry` gives the constructor arguments of BoxGeometry, SphereGeometry or
  CylinderGeometry, in real arithmetic on `size`.
- `Scene`: the values and the pure updates. Meshes, items and the shared `Material`.
  `Find` is `objects.find`. `WithoutId` and `WithItem` are the two `setObjects` updaters.
  `IndexOf` and `SceneRemove` are the engine's `scene.remove`. `Alive` and `ItemsOf` are the
  views the invariant is stated with. The lemmas relate all of these.
- `App`: the `Editor` class. It has the three collections as `seq` fields, the shared
  material, and a uuid counter standing for the engine's uuid generator.
  `CreateNewObject` and `HandleDeleteObject` are methods that keep `Valid()`.
- `RefCurrentGetter`: `Ref` (the mutable slot), `Initializer` (the callback, with a call
  counter), the `GetCurrent` method, and a value-level model (`Get`, `Run`) with the
  initialise-once lemmas.

The engine is treated as a contract. Uuids are unique: the model hands out 0, 1, 2, … in
creation order. Children keep insertion order. `remove` of an absent object, or of
`undefined`, changes nothing. Meshes are values whose uuid is unique, so comparing two meshes
compares their identities. The material is a class instance, so "shared" means the same
reference.

`Editor.Valid()` states how the three collections relate after any sequence of creates and
deletes:

- the scene is `objects` without the deleted meshes, in creation order;
- the item list is exactly the list derived from the scene: one `{id, text}` per child,
  both fields its uuid, in child order;
- every mesh uses the shared material.

The source keeps the item list up to date step by step. A later design re-derives the list
from the scene's children after every change. The invariant shows that the two designs
agree, so the model follows the code. `DriftCount` states the drift: `objects` holds every
scene child plus one mesh per deleted uuid.

## Model

| member | source | states |
|---|---|---|
| `Geometry.LookupCreator` | src/App.js:38-42 | the table yields shape `k` for a key exactly when the key is `k`'s name ("CUBE", "SPHERE", "CYLINDER"); any other key yields nothing |
| `Geometry.CreateGeometry` | src/App.js:39-41 | the geometry has the requested kind and size (cube edge, sphere diameter, cylinder height) and the table's proportions: a box with all edges equal; a sphere with both segment counts 128 per unit of diameter; a cylinder with equal top and bottom radii of a quarter of its height and 128 radial segments per unit of height |
| `Geometry.CreateGeometryCharacterized` | src/App.js:38-42 | a geometry is the table's output for a kind and size if and only if it has that kind, that size and those proportions |
| `Scene.Material.constructor` | src/App.js:19-24 | the one material has colour `#ffb759` and smooth (not flat) shading |
| `Scene.Find` | src/App.js:108 | nothing is found exactly when no mesh has the uuid; otherwise the result has that uuid and sits at an index before which no mesh has it (the first match) |
| `Scene.WithoutId` | src/App.js:104-106 | an item stays exactly when it was in the list and its id differs; the list never grows; when no item matches, the list is unchanged |
| `Scene.WithItem` | src/App.js:129-135 | the earlier items are untouched and one item is appended last, with `id` and `text` both the new uuid |
| `Scene.IndexOf` | src/App.js:110 | the position of the first occurrence of the object in the children, or -1 exactly when it is absent |
| `Scene.SceneRemove` | src/App.js:110 | `undefined` or an absent object leaves the children unchanged; otherwise the first occurrence leaves, the list shrinks by one, and the other children keep their order |
| `Scene.WithoutIdAppend` | src/App.js:104-106 | the delete filter distributes over concatenation, so the kept items keep their relative order |
| `Scene.DeleteUndoesCreate` | src/App.js:129-135 | deleting the id of a freshly appended item gives back the list it was appended to |
| `Scene.RemoveUndoesAdd` | src/App.js:127 | removing a mesh just added to the scene gives back the previous children |
| `Scene.AliveAppend` | src/App.js:126-127 | a newly created mesh goes to the end of the scene unless its uuid was removed |
| `Scene.AliveIgnoresAbsent` | src/App.js:108-110 | marking as removed a uuid that no mesh carries changes nothing in the scene |
| `Scene.RemoveAlive` | src/App.js:108-110 | with unique uuids, removing a created mesh from the scene is the same as marking its uuid deleted |
| `Scene.WithoutIdItemsOf` | src/App.js:104-106 | filtering an id out of the derived item list gives the list derived with that uuid also deleted |
| `Scene.AliveMembers` | src/App.js:108-110 | a mesh is in the scene view exactly when it was created and its uuid was not deleted |
| `Scene.DeleteStep` | src/App.js:102-111 | with uuids handed out in creation order, the lookup finds the mesh exactly when its uuid was handed out. The filtered item list and the scene after `remove` are both the views with that uuid deleted; an unknown uuid changes neither. Afterwards no scene child carries the uuid |
| `Scene.AliveCount` | src/App.js:108-110 | with unique uuids, each deleted uuid that a mesh carries takes exactly one mesh out of the scene |
| `App.Editor.constructor` | src/App.js:16-24 | the editor starts with no meshes, no items and an empty scene, and has the single material |
| `App.Editor.CreateNewObject` | src/App.js:113-136 | an unknown shape changes nothing. Otherwise one new mesh, not in `objects` before, with the table's geometry and the shared material, is appended to `objects` and to the scene, and the item `{uuid, uuid}` is appended to the list. The invariant is kept |
| `App.Editor.HandleDeleteObject` | src/App.js:102-111 | the list loses every item with the id; the scene loses the first `objects` match, if any; `objects` is never shrunk; an id no mesh carries changes nothing; afterwards no scene child has the id. The invariant is kept |
| `App.DriftCount` | src/App.js:102-111 | `objects` holds every scene child plus one mesh per deleted uuid |
| `App.CreateAndDeleteCube` | src/App.js:102-136 | creating a cube of size 2 gives a 2×2×2 box; asking for "TORUS" adds nothing; deleting the cube empties the scene and the list, but `objects` still holds one mesh |
| `RefCurrentGetter.Truthy` | src/hooks/useStaticRefCurrentGetter.js:14 | a value fails the `!ref.current` guard's test, i.e. is falsy, exactly when it is `undefined`, `null`, `false`, the number 0 or the empty string; every object, every other number and string, and `true` are truthy |
| `RefCurrentGetter.Get` | src/hooks/useStaticRefCurrentGetter.js:13-19 | one call returns the slot's new content; a truthy slot is returned and nothing changes; a falsy slot costs exactly one `initialize` call, whose result is returned |
| `RefCurrentGetter.GetIdempotent` | src/hooks/useStaticRefCurrentGetter.js:14-18 | after a call that returned a truthy value, the next call returns the same value and changes nothing |
| `RefCurrentGetter.Initializer.Invoke` | src/hooks/useStaticRefCurrentGetter.js:15 | a call of `initialize` returns its next value and counts one call |
| `RefCurrentGetter.GetCurrent` | src/hooks/useStaticRefCurrentGetter.js:13-19 | it returns the slot's new content. A truthy slot is returned unchanged and `initialize` is not called. A falsy slot is filled with the next `initialize()` result, which is returned |
| `RefCurrentGetter.GetCurrentTwice` | src/hooks/useStaticRefCurrentGetter.js:13-19 | after a truthy result, the next call returns the same value and `initialize` ran at most once; after a falsy result, both calls ran `initialize` |
| `RefCurrentGetter.Run` | src/hooks/useStaticRefCurrentGetter.js:13-19 | `n` calls return `n` values and run `initialize` at most `n` times in all |
| `RefCurrentGetter.RunOnTruthy` | src/hooks/useStaticRefCurrentGetter.js:14-18 | with a truthy slot, any number of calls returns the slot and changes nothing, `initialize` included |
| `RefCurrentGetter.InitializeAtMostOnce` | src/hooks/useStaticRefCurrentGetter.js:14-18 | once a call returns a truthy value, every call in a run returns that value, and `initialize` has run once (none if the slot was already truthy) |
| `RefCurrentGetter.FalsyRetries` | src/hooks/useStaticRefCurrentGetter.js:14 | while `initialize` returns falsy values, every call runs it again and returns its fresh result |

## Left out

- `initTree` (camera, scene background, the three lights, renderer, orbit controls): these are engine and DOM calls. The model's scene children are only the created meshes. The lights are added once and never touched by create or delete.
- `animation`: a render loop that only calls `renderer.render`.
- `setRandomPosition` and `getRandomInRange`: these use `Math.random` and floating point. A mesh in the model has no position.
- React rendering, hooks, the `useCallback` memoisation in `useStaticRefCurrentGetter`, and batching of state updates. Each `setObjects` updater is applied at once, to the current list.
- The List, Button, Select and Input components, `handleOnShapeSelect`, and the `console.log` calls. Also left out: the list component is never given the items (App.js:92), which is UI wiring.
- Coercion of the size text field to a number: `size` is a real number here. So is every segment count. The engine's rounding of segment counts is not modelled.
- `LookupCreator`: a plain JavaScript object also answers inherited keys such as "constructor" or "toString". The model treats every key other than the three shapes as absent. The select only offers the three shapes.
- Uuid strings: three.js generates random uuid strings. The model uses a counter, which keeps only their uniqueness.
- JavaScript values in `RefCurrentGetter.JsValue`: NaN and BigInt zero `0n` (both falsy), other BigInts, ±Infinity, symbols and the falsy `document.all` object are not represented. Negative zero is the same value as `Number(0.0)` here, and is falsy as in JavaScript.
- RefCurrentGetter.Initializer.Invoke: always returns a value. In the source, `initialize()` can throw (useStaticRefCurrentGetter.js:15). Then `ref.current` is not assigned, the exception reaches the caller of `getCurrent`, and the next call tries again. The model does not capture this path.
