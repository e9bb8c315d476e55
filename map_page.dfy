/**
 * The page-level state of map/main.js: the `cubes` dictionary (line 34),
 * filled in place by the `traverse` callback once the model has loaded
 * (lines 51-58), and `searchProduct` (lines 68-106), which recolours the
 * indexed cubes in place.
 */
module MapPage {
  import opened Options
  import opened Query
  import opened Scene
  import opened Highlight

  class StoreMap {
    /** `cubes`: the indexed cube meshes, by name. */
    var cubes: map<string, SceneNode>

    /** `queryToCubeMap`, fixed for the life of the page. */
    const categories: map<string, string>

    /** Every entry is a cube mesh filed under its own name, so distinct names hold distinct nodes. */
    ghost predicate Valid()
      reads this
    {
      WellNamed(cubes)
    }

    /** The materials of the indexed cubes. */
    function Colours(): (s: Snapshot)
      reads this, cubes.Values
      ensures s.Keys == cubes.Keys
    {
      map k | k in cubes :: cubes[k].material
    }

    /** `const cubes = {}` (line 34), with the category table of lines 77-87. */
    constructor ()
      ensures Valid() && cubes == map[] && categories == Categories
    {
      cubes := map[];
      categories := Categories;
    }

    /**
     * The `traverse` callback run over the loaded scene, `scene` listing its
     * nodes in traversal order. The index becomes the one `Indexed`
     * describes, and no node's material changes.
     */
    method IndexScene(scene: seq<SceneNode>)
      requires Valid()
      modifies this
      ensures Valid()
      ensures cubes == Indexed(old(cubes), scene)
      ensures forall n :: n in scene ==> n.material == old(n.material)
    {
      var i := 0;
      while i < |scene|
        invariant 0 <= i <= |scene|
        invariant Valid()
        invariant Indexed(cubes, scene[i..]) == Indexed(old(cubes), scene)
      {
        var child := scene[i];
        assert scene[i..][1..] == scene[i + 1..];
        if child.isMesh {
          if StartsWith(child.name, "Cube") {
            cubes := cubes[child.name := child];
          }
        }
        i := i + 1;
      }
      assert scene[i..] == [];
    }

    /**
     * `cube.material = cube.material.clone(); cube.material.color.set(colour)`
     * on the cube filed under `name` (lines 92-93 and 100-101): that cube's
     * material gets the new colour, and as names are keys of distinct nodes
     * no other indexed cube changes.
     */
    method Recolour(name: string, colour: Colour)
      requires Valid() && name in cubes && cubes[name].material.Some?
      modifies cubes[name]
      ensures Colours() == old(Colours())[name := Some(old(cubes[name].material.value).(colour := colour))]
    {
      ghost var before := Colours();
      var cube := cubes[name];
      cube.material := Some(cube.material.value.(colour := colour));
      forall k | k in cubes && k != name ensures Colours()[k] == before[k] {
        assert cubes[k] != cube;
      }
    }

    /**
     * The reset loop of `searchProduct` (lines 90-95): every indexed cube
     * that has a material gets it back gray, the others keep having none.
     */
    method ResetColours()
      requires Valid()
      modifies cubes.Values
      ensures Colours() == Reset(old(Colours()))
    {
      ghost var before := Colours();
      ghost var reset := Reset(before);
      var pending := cubes.Keys;
      while pending != {}
        invariant pending <= cubes.Keys
        invariant forall k :: k in cubes ==> Colours()[k] == if k in pending then before[k] else reset[k]
        decreases pending
      {
        var name :| name in pending;
        if cubes[name].material.Some? {
          Recolour(name, Gray);
        }
        pending := pending - {name};
      }
    }

    /**
     * `searchProduct`, with the two DOM values passed in. Every indexed cube
     * that has a material is reset to gray, then the cube the query selects,
     * if any, is painted green; the index itself is left alone, and no node
     * outside it is touched.
     */
    method SearchProduct(textValue: string, dropdownValue: string) returns (outcome: Outcome)
      requires Valid()
      modifies cubes.Values
      ensures Valid() && cubes == old(cubes)
      ensures outcome == Resolve(old(Colours()), categories, textValue, dropdownValue)
      ensures Colours() == Search(old(Colours()), categories, textValue, dropdownValue)
    {
      var query := EffectiveQuery(textValue, dropdownValue);
      ghost var before := Colours();
      ResetColours();
      SearchIsResetThenPaint(before, categories, textValue, dropdownValue);

      var cubeName := TargetName(categories, query);
      if cubeName.Some? && cubeName.value in cubes {
        if cubes[cubeName.value].material.None? {
          outcome := MissingMaterial(cubeName.value);
          return;
        }
        Recolour(cubeName.value, Green);
        outcome := Highlighted(cubeName.value);
      } else {
        outcome := NoMatch(query);
      }
    }
  }
}
