/** Values and pure updates behind the scene bookkeeping of src/App.js: meshes, list items,
    `objects.find`, the two `setObjects` updaters and the engine's `scene.remove`. */
module Scene {
  import opened Wrappers
  import opened Geometry

  /** The engine's identity of an object. The engine hands out a fresh one per mesh. */
  type Uuid = nat

  /** The single MeshPhysicalMaterial every mesh is built with. It is an object, so
      "shared" means the same reference. */
  class Material {
    const color: string
    const flatShading: bool

    constructor ()
      ensures color == "#ffb759" && !flatShading
    {
      color := "#ffb759";
      flatShading := false;
    }
  }

  /** A mesh. Its uuid is unique, so comparing meshes as values compares their identities. */
  datatype Mesh = Mesh(uuid: Uuid, geometry: Geometry, material: Material)

  /** An entry of the React item list, `{id, text}`. */
  datatype Item = Item(id: Uuid, text: Uuid)

  predicate DistinctUuids(s: seq<Mesh>)
  {
    forall i, j :: 0 <= i < j < |s| ==> s[i].uuid != s[j].uuid
  }

  /** `objects.find(o => o.uuid === id)`: the first mesh with that uuid, if any. */
  function Find(objects: seq<Mesh>, id: Uuid): (r: Option<Mesh>)
    ensures r.None? <==> forall i :: 0 <= i < |objects| ==> objects[i].uuid != id
    ensures r.Some? ==> r.value.uuid == id
    ensures r.Some? ==>
      exists i :: 0 <= i < |objects| && objects[i] == r.value &&
        (forall j :: 0 <= j < i ==> objects[j].uuid != id)
  {
    if objects == [] then None
    else if objects[0].uuid == id then Some(objects[0])
    else
      var r := Find(objects[1..], id);
      assert r.Some? ==>
        exists i :: 1 <= i < |objects| && objects[i] == r.value &&
          (forall j :: 1 <= j < i ==> objects[j].uuid != id);
      r
  }

  /** The delete updater, `prevState.filter(object => object.id !== id)`. */
  function WithoutId(items: seq<Item>, id: Uuid): (r: seq<Item>)
    ensures forall x :: x in r <==> x in items && x.id != id
    ensures |r| <= |items|
    ensures (forall i :: 0 <= i < |items| ==> items[i].id != id) ==> r == items
  {
    if items == [] then []
    else if items[0].id == id then WithoutId(items[1..], id)
    else [items[0]] + WithoutId(items[1..], id)
  }

  /** The create updater, `[...prevState, {id: uuid, text: uuid}]`. */
  function WithItem(items: seq<Item>, uuid: Uuid): (r: seq<Item>)
    ensures |r| == |items| + 1 && r[..|items|] == items
    ensures r[|items|].id == uuid && r[|items|].text == uuid
  {
    items + [Item(uuid, uuid)]
  }

  /** `children.indexOf(m)`: the position of the first occurrence of `m`, or -1. */
  function IndexOf(children: seq<Mesh>, m: Mesh): (r: int)
    ensures -1 <= r < |children|
    ensures r == -1 <==> m !in children
    ensures r >= 0 ==> children[r] == m && forall j :: 0 <= j < r ==> children[j] != m
  {
    if children == [] then -1
    else if children[0] == m then 0
    else
      var k := IndexOf(children[1..], m);
      if k == -1 then -1 else k + 1
  }

  /** The engine's `scene.remove(object)`: it splices out the first occurrence of
      `target`; an absent object, or `undefined`, leaves the children as they are. */
  function SceneRemove(children: seq<Mesh>, target: Option<Mesh>): (r: seq<Mesh>)
    ensures target.None? || target.value !in children ==> r == children
    ensures target.Some? && target.value in children ==>
      var k := IndexOf(children, target.value);
      |r| == |children| - 1 &&
      (forall i :: 0 <= i < k ==> r[i] == children[i]) &&
      (forall i :: k <= i < |r| ==> r[i] == children[i + 1])
  {
    if target.None? then children
    else
      var index := IndexOf(children, target.value);
      if index == -1 then children else children[..index] + children[index + 1..]
  }

  /** Removing from behind a different first child keeps that child in front. */
  lemma {:induction false} SceneRemoveCons(x: Mesh, children: seq<Mesh>, m: Mesh)
    requires x != m
    ensures SceneRemove([x] + children, Some(m)) == [x] + SceneRemove(children, Some(m))
  {
    var c := [x] + children;
    assert c[0] == x && c[1..] == children;
    var k := IndexOf(children, m);
    assert IndexOf(c, m) == if k == -1 then -1 else k + 1;
    if k != -1 {
      assert c[..k + 1] == [x] + children[..k];
      assert c[k + 2..] == children[k + 1..];
      assert SceneRemove(c, Some(m)) == c[..k + 1] + c[k + 2..];
      assert SceneRemove(children, Some(m)) == children[..k] + children[k + 1..];
    }
  }

  /** The meshes of `objects` that have not been removed, in the order they were made. */
  function Alive(objects: seq<Mesh>, removed: set<Uuid>): seq<Mesh>
  {
    if objects == [] then []
    else if objects[0].uuid in removed then Alive(objects[1..], removed)
    else [objects[0]] + Alive(objects[1..], removed)
  }

  /** The alive meshes are exactly the created ones whose uuid was not removed. */
  lemma {:induction false} AliveMembers(objects: seq<Mesh>, removed: set<Uuid>)
    ensures forall i :: 0 <= i < |Alive(objects, removed)| ==>
      Alive(objects, removed)[i] in objects && Alive(objects, removed)[i].uuid !in removed
    ensures forall i :: 0 <= i < |objects| && objects[i].uuid !in removed ==>
      objects[i] in Alive(objects, removed)
  {
    if objects != [] {
      AliveMembers(objects[1..], removed);
      assert forall i :: 1 <= i < |objects| ==> objects[i] == objects[1..][i - 1];
    }
  }

  /** The item list derived from scene children: one `{id, text}` per mesh, both its uuid,
      in child order. */
  function ItemsOf(children: seq<Mesh>): seq<Item>
  {
    seq(|children|, i requires 0 <= i < |children| => Item(children[i].uuid, children[i].uuid))
  }

  /** Filtering distributes over concatenation, so it keeps the relative order of the
      items it keeps. */
  lemma {:induction false} WithoutIdAppend(a: seq<Item>, b: seq<Item>, id: Uuid)
    ensures WithoutId(a + b, id) == WithoutId(a, id) + WithoutId(b, id)
  {
    if a == [] {
      assert a + b == b;
    } else {
      assert (a + b)[1..] == a[1..] + b;
      WithoutIdAppend(a[1..], b, id);
    }
  }

  /** Deleting a freshly appended item's id gives back the list it was appended to. */
  lemma {:induction false} DeleteUndoesCreate(items: seq<Item>, uuid: Uuid)
    requires forall i :: 0 <= i < |items| ==> items[i].id != uuid
    ensures WithoutId(WithItem(items, uuid), uuid) == items
  {
    WithoutIdAppend(items, [Item(uuid, uuid)], uuid);
    assert [Item(uuid, uuid)][1..] == [];
  }

  /** Removing a just-added mesh from the scene gives back the children it was added to. */
  lemma RemoveUndoesAdd(children: seq<Mesh>, m: Mesh)
    requires m !in children
    ensures SceneRemove(children + [m], Some(m)) == children
  {
  }

  /** A mesh made after all of `objects` is alive unless its uuid was removed. */
  lemma {:induction false} AliveAppend(objects: seq<Mesh>, m: Mesh, removed: set<Uuid>)
    ensures Alive(objects + [m], removed) ==
            Alive(objects, removed) + (if m.uuid in removed then [] else [m])
  {
    if objects == [] {
      assert objects + [m] == [m];
    } else {
      assert (objects + [m])[1..] == objects[1..] + [m];
      AliveAppend(objects[1..], m, removed);
    }
  }

  /** Adding a uuid that no mesh carries to the removed set changes nothing alive. */
  lemma {:induction false} AliveIgnoresAbsent(objects: seq<Mesh>, removed: set<Uuid>, id: Uuid)
    requires forall i :: 0 <= i < |objects| ==> objects[i].uuid != id
    ensures Alive(objects, removed + {id}) == Alive(objects, removed)
  {
    if objects != [] {
      AliveIgnoresAbsent(objects[1..], removed, id);
    }
  }

  /** Removing a mesh from the alive children is marking its uuid removed. */
  lemma {:induction false} RemoveAlive(objects: seq<Mesh>, removed: set<Uuid>, m: Mesh)
    requires DistinctUuids(objects) && m in objects
    ensures SceneRemove(Alive(objects, removed), Some(m)) == Alive(objects, removed + {m.uuid})
  {
    var x, t := objects[0], objects[1..];
    assert objects == [x] + t;
    assert DistinctUuids(t);
    if x == m {
      assert forall i :: 0 <= i < |t| ==> t[i].uuid != m.uuid by {
        forall i | 0 <= i < |t| ensures t[i].uuid != m.uuid {
          assert objects[i + 1] == t[i];
        }
      }
      AliveIgnoresAbsent(t, removed, m.uuid);
      var rest := Alive(t, removed);
      if m.uuid in removed {
        AliveMembers(t, removed);
        assert m !in rest;
      } else {
        assert Alive(objects, removed) == [m] + rest;
        assert IndexOf([m] + rest, m) == 0;
        assert ([m] + rest)[1..] == rest;
      }
    } else {
      assert m in t;
      assert x.uuid != m.uuid by {
        var k :| 0 <= k < |t| && t[k] == m;
        assert objects[k + 1] == m;
      }
      RemoveAlive(t, removed, m);
      if x.uuid in removed {
        assert Alive(objects, removed) == Alive(t, removed);
        assert Alive(objects, removed + {m.uuid}) == Alive(t, removed + {m.uuid});
      } else {
        assert Alive(objects, removed) == [x] + Alive(t, removed);
        assert Alive(objects, removed + {m.uuid}) == [x] + Alive(t, removed + {m.uuid});
        SceneRemoveCons(x, Alive(t, removed), m);
      }
    }
  }

  /** With distinct uuids, each removed uuid that some mesh carries takes exactly one mesh
      out of the alive ones. */
  lemma {:induction false} AliveCount(objects: seq<Mesh>, removed: set<Uuid>)
    requires DistinctUuids(objects)
    requires forall u :: u in removed ==> exists i :: 0 <= i < |objects| && objects[i].uuid == u
    ensures |Alive(objects, removed)| + |removed| == |objects|
  {
    if objects == [] {
      assert removed == {};
    } else {
      var x, t := objects[0], objects[1..];
      assert DistinctUuids(t);
      assert forall i :: 0 <= i < |t| ==> t[i].uuid != x.uuid by {
        forall i | 0 <= i < |t| ensures t[i].uuid != x.uuid {
          assert objects[i + 1] == t[i];
        }
      }
      var rest := removed - {x.uuid};
      assert forall u :: u in rest ==> exists i :: 0 <= i < |t| && t[i].uuid == u by {
        forall u | u in rest ensures exists i :: 0 <= i < |t| && t[i].uuid == u {
          var i :| 0 <= i < |objects| && objects[i].uuid == u;
          assert i != 0 && t[i - 1].uuid == u;
        }
      }
      AliveCount(t, rest);
      if x.uuid in removed {
        assert removed == rest + {x.uuid};
        AliveIgnoresAbsent(t, rest, x.uuid);
      } else {
        assert rest == removed;
      }
    }
  }

  /** Deriving the items of a list with a first child puts that child's item first. */
  lemma ItemsOfCons(x: Mesh, children: seq<Mesh>)
    ensures ItemsOf([x] + children) == [Item(x.uuid, x.uuid)] + ItemsOf(children)
  {
    var c := [x] + children;
    assert forall i :: 1 <= i < |c| ==> c[i] == children[i - 1];
  }

  /** Filtering an id out of the derived item list is deriving it with that id removed. */
  lemma {:induction false} WithoutIdItemsOf(objects: seq<Mesh>, removed: set<Uuid>, id: Uuid)
    ensures WithoutId(ItemsOf(Alive(objects, removed)), id) == ItemsOf(Alive(objects, removed + {id}))
  {
    if objects != [] {
      var x, t := objects[0], objects[1..];
      var before, after := Alive(t, removed), Alive(t, removed + {id});
      WithoutIdItemsOf(t, removed, id);
      assert WithoutId(ItemsOf(before), id) == ItemsOf(after);
      if x.uuid in removed {
        assert Alive(objects, removed) == before;
        assert Alive(objects, removed + {id}) == after;
      } else {
        assert Alive(objects, removed) == [x] + before;
        ItemsOfCons(x, before);
        var listed := [Item(x.uuid, x.uuid)] + ItemsOf(before);
        assert listed[0] == Item(x.uuid, x.uuid) && listed[1..] == ItemsOf(before);
        if x.uuid == id {
          assert WithoutId(listed, id) == WithoutId(ItemsOf(before), id);
          assert Alive(objects, removed + {id}) == after;
        } else {
          assert WithoutId(listed, id) == [Item(x.uuid, x.uuid)] + WithoutId(ItemsOf(before), id);
          assert Alive(objects, removed + {id}) == [x] + after;
          ItemsOfCons(x, after);
        }
      }
    }
  }

  /** One `handleDeleteObject` on the alive view: with unique uuids, filtering the derived
      items and removing the found mesh from the scene both amount to deleting the uuid
      when a mesh carries it, and change nothing when none does. */
  lemma DeleteStep(objects: seq<Mesh>, removed: set<Uuid>, id: Uuid)
    requires forall i :: 0 <= i < |objects| ==> objects[i].uuid == i
    ensures Find(objects, id) == if id < |objects| then Some(objects[id]) else None
    ensures var now := if Find(objects, id).Some? then removed + {id} else removed;
      SceneRemove(Alive(objects, removed), Find(objects, id)) == Alive(objects, now) &&
      WithoutId(ItemsOf(Alive(objects, removed)), id) == ItemsOf(Alive(objects, now)) &&
      forall i :: 0 <= i < |Alive(objects, now)| ==> Alive(objects, now)[i].uuid != id
  {
    assert DistinctUuids(objects);
    var target := Find(objects, id);
    assert target.Some? ==> target.value == objects[id] by {
      if target.Some? {
        var k :| 0 <= k < |objects| && objects[k] == target.value;
      }
    }
    WithoutIdItemsOf(objects, removed, id);
    if target.Some? {
      RemoveAlive(objects, removed, target.value);
      AliveMembers(objects, removed + {id});
    } else {
      AliveIgnoresAbsent(objects, removed, id);
      AliveMembers(objects, removed);
    }
  }
}
