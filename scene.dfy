/**
 * The scene-graph side of map/main.js: the nodes the loaded model consists
 * of, and the cube index that the `traverse` callback (lines 51-58) builds
 * from them in traversal order.
 */
module Scene {
  import opened Options
  import opened Query

  /** A hex RGB colour, as `color.set` takes it. */
  type Colour = c: int | 0 <= c <= 0xFF_FFFF

  /** The default cube colour (map/main.js, line 93). */
  const Gray: Colour := 0x999999

  /** The highlight colour (map/main.js, line 101). */
  const Green: Colour := 0x4dff4d

  /** A material; its colour is the only property the search touches. */
  datatype Material = Material(colour: Colour)

  /**
   * A node of the loaded scene graph. Its kind and name are fixed when the
   * asset is authored; its material is `None` when the node has none (the
   * falsy `child.material` of a light or group), and the search replaces it.
   */
  class SceneNode {
    const isMesh: bool
    const name: string
    var material: Option<Material>

    constructor (isMesh: bool, name: string, material: Option<Material>)
      ensures this.isMesh == isMesh && this.name == name && this.material == material
    {
      this.isMesh := isMesh;
      this.name := name;
      this.material := material;
    }
  }

  /** The nodes the index keeps: meshes whose name starts with `"Cube"` (map/main.js, lines 52 and 55). */
  predicate IsCubeMesh(n: SceneNode) {
    n.isMesh && StartsWith(n.name, "Cube")
  }

  /** The index invariant: every entry is a cube mesh filed under its own name. */
  predicate WellNamed(cubes: map<string, SceneNode>) {
    forall k :: k in cubes ==> cubes[k].name == k && IsCubeMesh(cubes[k])
  }

  /** One call of the traverse callback on `child` (map/main.js, lines 52-58). */
  function Visit(cubes: map<string, SceneNode>, child: SceneNode): map<string, SceneNode> {
    if IsCubeMesh(child) then cubes[child.name := child] else cubes
  }

  /**
   * The index after the callback has visited `nodes` in order, starting
   * from `cubes`. Entries are only ever added or overwritten, and the
   * index invariant is kept.
   */
  function Indexed(cubes: map<string, SceneNode>, nodes: seq<SceneNode>): (r: map<string, SceneNode>)
    ensures cubes.Keys <= r.Keys
    ensures WellNamed(cubes) ==> WellNamed(r)
    decreases |nodes|
  {
    if nodes == [] then cubes else Indexed(Visit(cubes, nodes[0]), nodes[1..])
  }

  /**
   * A name is indexed exactly when it already was, or some visited node is
   * a cube mesh of that name; lights, groups and other meshes never enter.
   */
  lemma {:induction false} IndexedKeys(cubes: map<string, SceneNode>, nodes: seq<SceneNode>, k: string)
    ensures k in Indexed(cubes, nodes) <==>
      k in cubes || exists i :: 0 <= i < |nodes| && IsCubeMesh(nodes[i]) && nodes[i].name == k
    decreases |nodes|
  {
    if nodes != [] {
      var tail := nodes[1..];
      IndexedKeys(Visit(cubes, nodes[0]), tail, k);
      if exists i :: 0 <= i < |tail| && IsCubeMesh(tail[i]) && tail[i].name == k {
        var i :| 0 <= i < |tail| && IsCubeMesh(tail[i]) && tail[i].name == k;
        assert nodes[i + 1] == tail[i];
      }
      if exists i :: 0 <= i < |nodes| && IsCubeMesh(nodes[i]) && nodes[i].name == k {
        var i :| 0 <= i < |nodes| && IsCubeMesh(nodes[i]) && nodes[i].name == k;
        if i > 0 {
          assert tail[i - 1] == nodes[i];
        }
      }
    }
  }

  /** An entry no visited cube mesh names is left as it was (or stays absent). */
  lemma {:induction false} IndexedUntouched(cubes: map<string, SceneNode>, nodes: seq<SceneNode>, k: string)
    requires forall i :: 0 <= i < |nodes| && IsCubeMesh(nodes[i]) ==> nodes[i].name != k
    ensures k in Indexed(cubes, nodes) <==> k in cubes
    ensures k in cubes ==> Indexed(cubes, nodes)[k] == cubes[k]
    decreases |nodes|
  {
    if nodes != [] {
      var tail := nodes[1..];
      forall i | 0 <= i < |tail| && IsCubeMesh(tail[i]) ensures tail[i].name != k {
        assert tail[i] == nodes[i + 1];
      }
      IndexedUntouched(Visit(cubes, nodes[0]), tail, k);
    }
  }

  /**
   * Last write wins: when several cube meshes share a name, the index holds
   * the last of them in traversal order (map/main.js, line 56).
   */
  lemma {:induction false} IndexedLastWins(cubes: map<string, SceneNode>, nodes: seq<SceneNode>, i: int)
    requires 0 <= i < |nodes| && IsCubeMesh(nodes[i])
    requires forall j :: i < j < |nodes| && IsCubeMesh(nodes[j]) ==> nodes[j].name != nodes[i].name
    ensures nodes[i].name in Indexed(cubes, nodes)
    ensures Indexed(cubes, nodes)[nodes[i].name] == nodes[i]
    decreases |nodes|
  {
    var tail := nodes[1..];
    if i == 0 {
      forall j | 0 <= j < |tail| && IsCubeMesh(tail[j]) ensures tail[j].name != nodes[0].name {
        assert tail[j] == nodes[j + 1];
      }
      IndexedUntouched(Visit(cubes, nodes[0]), tail, nodes[0].name);
    } else {
      assert tail[i - 1] == nodes[i];
      forall j | i - 1 < j < |tail| && IsCubeMesh(tail[j]) ensures tail[j].name != tail[i - 1].name {
        assert tail[j] == nodes[j + 1];
      }
      IndexedLastWins(Visit(cubes, nodes[0]), tail, i - 1);
    }
  }
}
