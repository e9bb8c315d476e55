# Store map: cube index and search highlight

This project models the interactive part of `map/main.js`, a Three.js page that
shows a 3D store map. Two pieces of behaviour are modelled:

- **The cube index.** Once the GLB model has loaded, the `traverse` callback
  visits every node of the scene. Each mesh whose name starts with `"Cube"` is
  filed in the page-level `cubes` dictionary under its own name. A later node
  with the same name overwrites an earlier one.
- **`searchProduct`.** The page reads the text box and the dropdown. It trims
  and lower-cases both, and uses the text if the result is non-empty, else the
  dropdown. It looks that query up in a fixed table of nine categories, each
  mapped to a cube name.
  - First, every indexed cube that has a material is reset to gray `0x999999`.
  - Then, if the query names a cube that is in the index, that cube is painted
    green `0x4dff4d`.

Files:

- `options.dfy`: the `Option` type.
- `query.dfy` (module `Query`):
  - JavaScript's `trim` over the ECMAScript white-space and line-terminator set;
  - ASCII lower-casing;
  - the precedence rule, as `EffectiveQuery`;
  - the category table, `Categories`, and the lookup, `TargetName`.
- `scene.dfy` (module `Scene`):
  - scene nodes, as a class whose `material` can be reassigned;
  - colours;
  - the index that the traversal produces, as `Indexed`.
- `highlight.dfy` (module `Highlight`): the effect of a search as a function on a
  snapshot of the cubes' materials.
  - `Resolve` says what the search does.
  - `Search` gives the materials afterwards.
- `map_page.dfy` (module `MapPage`): `StoreMap`, a class holding the mutable
  `cubes` dictionary and the category table.
  - `IndexScene` is the traversal loop.
  - `SearchProduct` recolours in place, through `ResetColours` and `Recolour`.
  - Each method is proved against the functions above.
- `scenarios.dfy`: concrete spellings and a two-search story, worked through the
  general lemmas.

A material is reduced to its colour, an integer in `0..0xFFFFFF`.

`material.clone()` followed by `color.set(x)` gives the cube a fresh material that
differs from the old one only in its colour. The model assigns a new `Material`
value to the cube, which has the same effect.

A cube with no material is skipped by the reset, which tests `if (cube.material)`.
The highlight does not test for a material, so `cubes[cubeName].material.clone()`
throws a `TypeError` once the reset has run. The model makes this an explicit
outcome, `MissingMaterial`:

- the cubes stay in their reset state;
- no cube is green.

Besides a highlight and a no-match, the code therefore has a third outcome, and
the model follows the code.

## Model

| member | source | states |
|---|---|---|
| Query.Trim | map/main.js:70-71 | The result is no longer than the input, and when non-empty it neither starts nor ends with a white-space or line-terminator character (the ECMAScript `trim` set). |
| Query.TrimSplitUnique | map/main.js:70-71 | Any split of a string into trimmable prefix, middle with non-trimmable ends, and trimmable suffix has the middle that `trim` returns. |
| Query.TrimIgnoresPadding | map/main.js:70-71 | Surrounding a string with white space of any kind never changes what `trim` returns. |
| Query.PaddedSplit | map/main.js:70-71 | Padding with trimmable characters shifts the trim split of a string by the padding's length and leaves its middle alone. |
| Query.TrimIdempotent | map/main.js:70-71 | Trimming a trimmed string changes nothing. |
| Query.LowerChar | map/main.js:70-71 | `toLowerCase` on one character: the result is never an upper-case ASCII letter; an upper-case letter moves down by 32 to its lower-case form, and every other character is unchanged. |
| Query.ToLower | map/main.js:70-71 | ASCII lower-casing, the part of `toLowerCase` the model covers, keeps the length and lower-cases each character independently. |
| Query.ToLowerIdempotent | map/main.js:70-71 | Lower-casing twice is lower-casing once. |
| Query.LowerKeepsTrimmable | map/main.js:70-71 | Lower-casing a character never makes it white space or stops it being white space. |
| Query.ToLowerSlice | map/main.js:70-71 | Lower-casing a part of a string equals the same part of the lower-cased string. |
| Query.TrimLowerCommute | map/main.js:70-71 | `trim` then `toLowerCase` equals `toLowerCase` then `trim`. |
| Query.NormalizeIdempotent | map/main.js:70-71 | Normalising an already normalised input changes nothing. |
| Query.NormalizeIgnoresCase | map/main.js:70-71 | Two inputs that differ only in the case of their letters normalise to the same query. |
| Query.NormalizeFixed | map/main.js:70-71 | A string with no white space at its ends and no upper-case letter is its own normal form. |
| Query.EffectiveQuery | map/main.js:70-74 | Text over dropdown (line 74): the normalised text when it is non-empty, otherwise the normalised dropdown value; the result is itself normalised. |
| Query.EffectiveQueryIgnoresCaseAndPadding | map/main.js:70-74 | Text that differs only in case and surrounding white space selects the same query. |
| Query.CategoryLookup | map/main.js:70-98 | For any table whose key is a non-empty normalised query, typing that key in any case and with any surrounding white space makes the lookup `queryToCubeMap[query]` find that key's cube, whatever the dropdown holds. |
| Query.CategorySpellings | map/main.js:70-98 | Every spelling of every one of the nine categories, differing in case or surrounding white space, finds that category's cube. |
| Query.CategoryKeysNormalized | map/main.js:77-87 | Every key of the category table is a non-empty normalised query, so any case or padding of it reaches its entry. |
| Query.CategoryCount | map/main.js:77-87 | The table has exactly nine categories. |
| Query.CategoriesNameCubes | map/main.js:77-87 | Every category maps to a name that starts with `"Cube"`, so it can be indexed. |
| Query.CategoriesInjective | map/main.js:77-87 | No two categories map to the same cube. |
| Scene.Indexed | map/main.js:51-58 | Running the traversal over a node sequence never drops an existing entry, and it keeps every entry a cube mesh filed under its own name. |
| Scene.IndexedKeys | map/main.js:52-56 | A name is in the index exactly when it was there before, or when some visited node is a mesh of that name that starts with `"Cube"`. Lights, groups and other meshes never enter. |
| Scene.IndexedUntouched | map/main.js:52-56 | An entry whose name no visited cube mesh has keeps its old value, or stays absent. |
| Scene.IndexedLastWins | map/main.js:56 | When several cube meshes share a name, the index holds the last of them in traversal order. |
| Highlight.Reset | map/main.js:90-95 | The reset keeps the set of cubes and which of them have a material, and leaves every cube that has a material gray. |
| Highlight.Resolve | map/main.js:98-105 | A cube is targeted exactly when the effective query is in the table and its cube is indexed, and then the target is that cube. The target is highlighted when it has a material, and is a missing-material failure otherwise. Every other case reports no match for the effective query. |
| Highlight.Search | map/main.js:89-101 | A search keeps the cubes and their material presence. Afterwards every cube with a material is green when it is the highlighted target and gray otherwise. |
| Highlight.SearchIsResetThenPaint | map/main.js:89-101 | The search is the reset, followed by painting green the highlighted cube, if there is one, and nothing else. |
| Highlight.AtMostOneGreen | map/main.js:89-101 | After a search, no two different cubes are green. |
| Highlight.GreenIffHighlighted | map/main.js:89-101 | A cube is green after a search if and only if the search highlighted that cube. |
| Highlight.NoMatchAllGray | map/main.js:98-104 | An unknown or empty query, or a table entry whose cube is not indexed, gives no match, and every cube with a material ends gray. |
| Highlight.SearchForgetsColours | map/main.js:89-101 | The result of a search does not depend on the colours from before it, only on which cubes exist and which have a material. |
| Highlight.SearchIdempotent | map/main.js:68-106 | Running the same search twice gives the same outcome and the same colours as running it once. |
| Highlight.DropdownHighlights | map/main.js:70-101 | With the text box empty, choosing a category in the dropdown paints its cube green and every other cube with a material gray. |
| Highlight.TextWins | map/main.js:74 | A text input that is non-empty after normalisation decides the search, whatever the dropdown says. |
| MapPage.StoreMap.constructor | map/main.js:34 | The page starts with an empty index and the fixed nine-category table. |
| MapPage.StoreMap.IndexScene | map/main.js:51-58 | The in-place traversal leaves `cubes` equal to `Indexed` of its old value over the visited nodes. It keeps every entry a cube mesh under its own name and changes no node's material. |
| MapPage.StoreMap.Recolour | map/main.js:92-93 | Cloning a cube's material and setting its colour changes that cube's colour and no other cube's material. |
| MapPage.StoreMap.ResetColours | map/main.js:90-95 | The reset loop over `Object.values(cubes)` leaves the materials equal to `Reset` of the old ones. |
| MapPage.StoreMap.SearchProduct | map/main.js:68-106 | `searchProduct` leaves the index unchanged. It returns the outcome `Resolve` predicts, and leaves the materials as `Search` describes, so the properties proved about `Search` hold after it. |
| Scenarios.LoadedIndex | map/main.js:51-58 | Traversing a non-mesh light, a floor mesh and two cube meshes indexes exactly the two cubes. |
| Scenarios.FirstSearch | map/main.js:68-106 | Choosing "beauty" in the dropdown highlights `Cube002` and leaves `Cube001` gray. |
| Scenarios.SecondSearch | map/main.js:68-106 | Then typing "games" moves the highlight to `Cube001` and resets `Cube002` to gray. |
| Scenarios.GamesSpellings | map/main.js:70-74 | `"games"`, `"GAMES"` and `"  Games  "` typed in the text box all select `Cube001`. |

## Left out

- Scene, camera, renderer, lights, orbit controls, `animate` and the resize handler (lines 1-33 and 108 onwards): these are rendering only and hold no state that the index or the search reads.
- The asynchronous GLB load, its scaling and positioning, and its error callback: the model starts at the point where the loaded scene is traversed. The traversal is given as the sequence of nodes in the order `traverse` visits them, not as a tree.
- The DOM reads of the two inputs and the `window.searchProduct` export: the two input values are parameters of `SearchProduct`.
- `console.log` and `console.error` calls: these are output only.
- Materials carry only a colour. Colours are integer hex values rather than Three.js `Color` objects with float channels. The model also assumes each cube node owns its material, so sharing one material between nodes before the first clone is not modelled.
- `Query.LowerChar` and `Query.ToLower`: lower-case ASCII letters only, one character to one character (JavaScript maps some characters to two, such as `İ`, and lower-cases `Σ` by context). JavaScript's `toLowerCase` also maps non-ASCII letters. The only non-ASCII character that lower-cases to ASCII is U+212A KELVIN SIGN, which becomes `k`, and no category contains `k`. So no query that JavaScript would map to a category is lost, and none is gained.
- Strings are sequences of Dafny characters (Unicode scalar values), not UTF-16 code units.
- Plain JavaScript objects stand for dictionaries, so keys inherited from `Object.prototype` (for example `"constructor"`) would be found by the lookup. The model treats `cubes` and `queryToCubeMap` as maps with no inherited keys.
- The visiting order of `Object.values(cubes)` in the reset does not matter, because every indexed name holds a distinct node. `StoreMap.Valid` states this, and `ResetColours` visits the names in any order.
