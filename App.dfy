/** The scene bookkeeping of src/App.js: the engine's scene children, the module-level
    `objects` array and the React item list, changed by `createNewObject` and
    `handleDeleteObject`. */
module App {
  import opened Wrappers
  import opened Geometry
  import opened Scene

  class Editor {
    /** The module-level `material`, shared by every mesh. */
    const material: Material
    /** `scene.children`, in insertion order (the engine's own list). */
    var sceneChildren: seq<Mesh>
    /** The module-level `objects` array: every mesh ever created. */
    var objects: seq<Mesh>
    /** The item-list state of the component, `[{id, text}]`. */
    var items: seq<Item>
    /** The engine's uuid source: the uuid the next mesh gets. */
    var nextUuid: Uuid
    /** The uuids of the meshes taken out of the scene so far. */
    ghost var removed: set<Uuid>

    /** The bookkeeping invariant: uuids are handed out in creation order, every mesh
        shares the one material, the scene holds exactly the created meshes not yet
        deleted (in creation order), and the item list is the one derived from the scene. */
    ghost predicate Valid()
      reads this
    {
      nextUuid == |objects| &&
      (forall i :: 0 <= i < |objects| ==> objects[i].uuid == i) &&
      (forall i :: 0 <= i < |objects| ==> objects[i].material == material) &&
      (forall u :: u in removed ==> u < nextUuid) &&
      sceneChildren == Alive(objects, removed) &&
      items == ItemsOf(sceneChildren)
    }

    /** The state after the module is loaded and the scene is built: nothing created yet. */
    constructor ()
      ensures Valid()
      ensures sceneChildren == [] && objects == [] && items == []
      ensures material.color == "#ffb759" && !material.flatShading
    {
      material := new Material();
      sceneChildren := [];
      objects := [];
      items := [];
      nextUuid := 0;
      removed := {};
    }

    /** `createNewObject(shape, size, setObjects)`: an unknown shape changes nothing;
        otherwise one new mesh with the table's geometry and the shared material is
        appended to `objects` and to the scene, and its item is appended to the list. */
    method CreateNewObject(shape: string, size: real)
      requires Valid()
      modifies this
      ensures Valid()
      ensures LookupCreator(shape).None? ==> unchanged(this)
      ensures LookupCreator(shape).Some? ==>
        var m := Mesh(old(nextUuid), CreateGeometry(LookupCreator(shape).value, size), material);
        m !in old(objects) &&
        objects == old(objects) + [m] &&
        sceneChildren == old(sceneChildren) + [m] &&
        items == WithItem(old(items), m.uuid)
    {
      var creator := LookupCreator(shape);
      if creator.None? {
        return;
      }
      var mesh := Mesh(nextUuid, CreateGeometry(creator.value, size), material);
      assert mesh !in objects;
      nextUuid := nextUuid + 1;
      AliveAppend(objects, mesh, removed);
      objects := objects + [mesh];
      sceneChildren := sceneChildren + [mesh];
      assert ItemsOf(sceneChildren) == ItemsOf(old(sceneChildren)) + [Item(mesh.uuid, mesh.uuid)];
      items := WithItem(items, mesh.uuid);
    }

    /** `handleDeleteObject(event, id, setObjects)`: every item with that id leaves the
        list; the first mesh in `objects` with that uuid, if any, leaves the scene;
        `objects` itself is never shrunk. */
    method HandleDeleteObject(id: Uuid)
      requires Valid()
      modifies this
      ensures Valid()
      ensures items == WithoutId(old(items), id)
      ensures sceneChildren == SceneRemove(old(sceneChildren), Find(old(objects), id))
      ensures objects == old(objects) && nextUuid == old(nextUuid)
      ensures (forall i :: 0 <= i < |objects| ==> objects[i].uuid != id) ==>
        sceneChildren == old(sceneChildren) && items == old(items)
      ensures forall i :: 0 <= i < |sceneChildren| ==> sceneChildren[i].uuid != id
    {
      DeleteStep(objects, removed, id);
      items := WithoutId(items, id);
      var target := Find(objects, id);
      sceneChildren := SceneRemove(sceneChildren, target);
      if target.Some? {
        removed := removed + {id};
      }
    }
  }

  /** The drift between the collections: `objects` holds every mesh in the scene and,
      beside them, one mesh for every uuid that was deleted. */
  lemma DriftCount(e: Editor)
    requires e.Valid()
    ensures |e.objects| == |e.sceneChildren| + |e.removed|
  {
    assert DistinctUuids(e.objects);
    assert forall u :: u in e.removed ==> exists i :: 0 <= i < |e.objects| && e.objects[i].uuid == u by {
      forall u | u in e.removed ensures exists i :: 0 <= i < |e.objects| && e.objects[i].uuid == u {
        assert e.objects[u].uuid == u;
      }
    }
    AliveCount(e.objects, e.removed);
  }

  /** A cube of size 2 is created, a shape without a creator is asked for, and the cube
      is deleted again: the scene and the list are empty while `objects` still holds it. */
  method CreateAndDeleteCube() returns (objectCount: nat, sceneCount: nat, itemCount: nat, cube: Geometry)
    ensures objectCount == 1 && sceneCount == 0 && itemCount == 0
    ensures cube == BoxGeometry(2.0, 2.0, 2.0)
  {
    var editor := new Editor();
    editor.CreateNewObject("CUBE", 2.0);
    cube := editor.objects[0].geometry;
    editor.CreateNewObject("TORUS", 2.0);
    editor.HandleDeleteObject(editor.objects[0].uuid);
    objectCount, sceneCount, itemCount := |editor.objects|, |editor.sceneChildren|, |editor.items|;
  }
}
