/**
 * What `searchProduct` (map/main.js, lines 68-106) does to the indexed
 * cubes, stated on a snapshot of their materials: the reset of every cube
 * that has a material to gray, then at most one cube painted green.
 */
module Highlight {
  import opened Options
  import opened Query
  import opened Scene

  /** The material of every indexed cube, by name. */
  type Snapshot = map<string, Option<Material>>

  /**
   * How a search ends. `Highlighted` and `NoMatch` are the two log lines of
   * lines 102 and 104; `MissingMaterial` is the TypeError that
   * `material.clone()` on line 100 throws when the target cube has no
   * material, after the reset has already run.
   */
  datatype Outcome = Highlighted(cube: string) | NoMatch(query: string) | MissingMaterial(cube: string)

  predicate IsGreen(m: Option<Material>) {
    m.Some? && m.value.colour == Green
  }

  /** The reset loop (lines 90-95): every cube with a material becomes gray; one without stays without. */
  function Reset(m: Snapshot): (r: Snapshot)
    ensures r.Keys == m.Keys
    ensures forall k :: k in m ==> (r[k].Some? <==> m[k].Some?)
    ensures forall k :: k in m && m[k].Some? ==> r[k].value.colour == Gray
  {
    map k | k in m :: if m[k].Some? then Some(m[k].value.(colour := Gray)) else None
  }

  /**
   * The lookup of lines 98-100: the effective query goes through the
   * category table, and the cube it names must be indexed; that cube is
   * highlighted if it has a material.
   */
  function Resolve(m: Snapshot, table: map<string, string>, text: string, dropdown: string): (o: Outcome)
    ensures o.Highlighted? ==> o.cube in m && m[o.cube].Some?
    ensures o.MissingMaterial? ==> o.cube in m && m[o.cube].None?
    ensures var target := TargetName(table, EffectiveQuery(text, dropdown));
      && (!o.NoMatch? <==> target.Some? && target.value in m)
      && (!o.NoMatch? ==> o.cube == target.value)
    ensures o.NoMatch? ==> o.query == EffectiveQuery(text, dropdown)
  {
    var query := EffectiveQuery(text, dropdown);
    match TargetName(table, query)
    case None => NoMatch(query)
    case Some(name) =>
      if name !in m then NoMatch(query)
      else if m[name].None? then MissingMaterial(name)
      else Highlighted(name)
  }

  /**
   * The materials after `searchProduct`: no cube gains or loses a material,
   * and every cube with one is green if it is the highlighted cube and gray
   * otherwise.
   */
  function Search(m: Snapshot, table: map<string, string>, text: string, dropdown: string): (r: Snapshot)
    ensures r.Keys == m.Keys
    ensures forall k :: k in m ==> (r[k].Some? <==> m[k].Some?)
    ensures forall k :: k in m && m[k].Some? ==>
      r[k].value.colour == if Resolve(m, table, text, dropdown) == Highlighted(k) then Green else Gray
  {
    var reset := Reset(m);
    match Resolve(m, table, text, dropdown)
    case Highlighted(name) => reset[name := Some(reset[name].value.(colour := Green))]
    case _ => reset
  }

  /** The search as the method performs it: the reset, then the highlighted cube, if any, painted green. */
  lemma {:induction false} SearchIsResetThenPaint(m: Snapshot, table: map<string, string>, text: string, dropdown: string)
    ensures !Resolve(m, table, text, dropdown).Highlighted? ==> Search(m, table, text, dropdown) == Reset(m)
    ensures Resolve(m, table, text, dropdown).Highlighted? ==>
      Search(m, table, text, dropdown) == Reset(m)[Resolve(m, table, text, dropdown).cube := Some(Material(Green))]
  {
  }

  /** At most one cube is green after a search. */
  lemma {:induction false} AtMostOneGreen(m: Snapshot, table: map<string, string>, text: string, dropdown: string, k1: string, k2: string)
    requires k1 in Search(m, table, text, dropdown) && IsGreen(Search(m, table, text, dropdown)[k1])
    requires k2 in Search(m, table, text, dropdown) && IsGreen(Search(m, table, text, dropdown)[k2])
    ensures k1 == k2
  {
  }

  /** Some cube is green after a search exactly when the search highlighted one, and that cube is the green one. */
  lemma {:induction false} GreenIffHighlighted(m: Snapshot, table: map<string, string>, text: string, dropdown: string, k: string)
    requires k in m
    ensures IsGreen(Search(m, table, text, dropdown)[k]) <==> Resolve(m, table, text, dropdown) == Highlighted(k)
  {
  }

  /**
   * An unknown or empty query, or a mapped name missing from the index,
   * leaves every cube that has a material gray.
   */
  lemma {:induction false} NoMatchAllGray(m: Snapshot, table: map<string, string>, text: string, dropdown: string)
    requires TargetName(table, EffectiveQuery(text, dropdown)).None?
      || TargetName(table, EffectiveQuery(text, dropdown)).value !in m
    ensures Resolve(m, table, text, dropdown) == NoMatch(EffectiveQuery(text, dropdown))
    ensures forall k :: k in m && m[k].Some? ==> Search(m, table, text, dropdown)[k].value.colour == Gray
  {
  }

  /**
   * The reset runs before the highlight, so nothing of an earlier search
   * survives: two snapshots with the same cubes and the same materials
   * present give the same result, whatever their colours were.
   */
  lemma {:induction false} SearchForgetsColours(m1: Snapshot, m2: Snapshot, table: map<string, string>, text: string, dropdown: string)
    requires m1.Keys == m2.Keys
    requires forall k :: k in m1 ==> (m1[k].Some? <==> m2[k].Some?)
    ensures Resolve(m1, table, text, dropdown) == Resolve(m2, table, text, dropdown)
    ensures Search(m1, table, text, dropdown) == Search(m2, table, text, dropdown)
  {
    var r1, r2 := Search(m1, table, text, dropdown), Search(m2, table, text, dropdown);
    forall k | k in r1 ensures r1[k] == r2[k] {
    }
  }

  /** Searching twice with the same inputs ends as searching once. */
  lemma {:induction false} SearchIdempotent(m: Snapshot, table: map<string, string>, text: string, dropdown: string)
    ensures Resolve(Search(m, table, text, dropdown), table, text, dropdown) == Resolve(m, table, text, dropdown)
    ensures Search(Search(m, table, text, dropdown), table, text, dropdown) == Search(m, table, text, dropdown)
  {
    SearchForgetsColours(Search(m, table, text, dropdown), m, table, text, dropdown);
  }

  /**
   * Choosing a category in the dropdown, with the text input empty,
   * highlights that category's cube, provided the table's keys are
   * normalised queries as those of `Categories` are.
   */
  lemma {:induction false} DropdownHighlights(m: Snapshot, table: map<string, string>, c: string)
    requires c in table && Normalize(c) == c
    requires table[c] in m && m[table[c]].Some?
    ensures Resolve(m, table, "", c) == Highlighted(table[c])
    ensures IsGreen(Search(m, table, "", c)[table[c]])
    ensures forall k :: k in m && k != table[c] && m[k].Some? ==> Search(m, table, "", c)[k].value.colour == Gray
  {
    NormalizeFixed("");
  }

  /** A non-empty text input wins over the dropdown. */
  lemma {:induction false} TextWins(m: Snapshot, table: map<string, string>, text: string, dropdown: string)
    requires Normalize(text) != []
    ensures Resolve(m, table, text, dropdown) == Resolve(m, table, text, "")
    ensures Search(m, table, text, dropdown) == Search(m, table, text, "")
  {
  }
}
