/** Concrete searches over the store map, worked through the general lemmas. */
module Scenarios {
  import opened Options
  import opened Query
  import opened Scene
  import opened Highlight
  import opened MapPage

  lemma GamesQuery()
    ensures EffectiveQuery("games", "") == "games"
  {
    NormalizeFixed("games");
  }

  lemma GamesTarget()
    ensures TargetName(Categories, "games") == Some("Cube001")
  {
  }

  lemma UpperCaseGames()
    ensures EffectiveQuery("GAMES", "") == EffectiveQuery("games", "")
  {
    assert ToLower("GAMES") == "games";
    NormalizeIgnoresCase("GAMES", "games");
  }

  lemma PaddedGames()
    ensures EffectiveQuery("  " + "Games" + "  ", "") == EffectiveQuery("games", "")
  {
    assert ToLower("Games") == "games";
    EffectiveQueryIgnoresCaseAndPadding("  ", "Games", "games", "  ", "");
  }

  /** The three spellings `"  Games  "`, `"GAMES"` and `"games"` all select the games cube. */
  lemma GamesSpellings()
    ensures EffectiveQuery("  " + "Games" + "  ", "") == "games"
    ensures EffectiveQuery("GAMES", "") == "games"
    ensures EffectiveQuery("games", "") == "games"
    ensures TargetName(Categories, "games") == Some("Cube001")
  {
    GamesQuery();
    GamesTarget();
    UpperCaseGames();
    PaddedGames();
  }

  /** With only the dropdown set to `"beauty"`, the query is `"beauty"`. */
  lemma DropdownQuery()
    ensures EffectiveQuery("", "beauty") == "beauty"
  {
    NormalizeFixed("");
    NormalizeFixed("beauty");
  }

  /** A typed `"games"` wins over the dropdown's `"beauty"`. */
  lemma TypedQuery()
    ensures EffectiveQuery("games", "beauty") == "games"
  {
    NormalizeFixed("games");
  }

  lemma ScenarioTargets()
    ensures TargetName(Categories, "beauty") == Some("Cube002")
    ensures TargetName(Categories, "games") == Some("Cube001")
  {
  }

  /** Two indexed cubes; choosing "beauty" paints the beauty cube green and the games cube gray. */
  lemma FirstSearch(start: Snapshot)
    requires start == map["Cube001" := Some(Material(0)), "Cube002" := Some(Material(0))]
    ensures Resolve(start, Categories, "", "beauty") == Highlighted("Cube002")
    ensures Search(start, Categories, "", "beauty")
      == map["Cube001" := Some(Material(Gray)), "Cube002" := Some(Material(Green))]
  {
    DropdownQuery();
    ScenarioTargets();
  }

  /** Typing "games" afterwards moves the highlight to the games cube and resets the beauty cube. */
  lemma SecondSearch(first: Snapshot)
    requires first == map["Cube001" := Some(Material(Gray)), "Cube002" := Some(Material(Green))]
    ensures Resolve(first, Categories, "games", "beauty") == Highlighted("Cube001")
    ensures Search(first, Categories, "games", "beauty")
      == map["Cube001" := Some(Material(Green)), "Cube002" := Some(Material(Gray))]
  {
    TypedQuery();
    ScenarioTargets();
  }

  /** The traverse callback over a light, a floor mesh and two cubes keeps just the two cubes. */
  lemma LoadedIndex(light: SceneNode, floor: SceneNode, games: SceneNode, beauty: SceneNode)
    requires !light.isMesh && light.name == "Cube.Light"
    requires floor.isMesh && floor.name == "Floor"
    requires games.isMesh && games.name == "Cube001"
    requires beauty.isMesh && beauty.name == "Cube002"
    ensures Indexed(map[], [light, floor, games, beauty]) == map["Cube001" := games, "Cube002" := beauty]
  {
    var scene := [light, floor, games, beauty];
    assert "Floor"[0] != "Cube"[0];
    assert scene[1..] == [floor, games, beauty] && scene[2..] == [games, beauty] && scene[3..] == [beauty];
    assert Indexed(map[], scene) == Indexed(map[], scene[1..]);
    assert Indexed(map[], scene[1..]) == Indexed(map[], scene[2..]);
    assert Indexed(map[], scene[2..]) == Indexed(map["Cube001" := games], scene[3..]);
    assert Indexed(map["Cube001" := games], [beauty]) == map["Cube001" := games, "Cube002" := beauty] by {
      assert [beauty][1..] == [];
    }
  }

  /** A page whose model has loaded: a light, a floor mesh and two cubes, of which the index keeps the cubes. */
  method LoadedPage() returns (page: StoreMap, light: SceneNode, games: SceneNode, beauty: SceneNode)
    ensures fresh(page) && fresh(light) && fresh(games) && fresh(beauty)
    ensures page.Valid() && page.categories == Categories
    ensures page.cubes == map["Cube001" := games, "Cube002" := beauty]
    ensures light.material.None? && games.material == Some(Material(0)) && beauty.material == Some(Material(0))
  {
    light := new SceneNode(false, "Cube.Light", None);
    var floor := new SceneNode(true, "Floor", Some(Material(0)));
    games := new SceneNode(true, "Cube001", Some(Material(0)));
    beauty := new SceneNode(true, "Cube002", Some(Material(0)));
    page := new StoreMap();
    page.IndexScene([light, floor, games, beauty]);
    LoadedIndex(light, floor, games, beauty);
  }

  /** Choosing "beauty" in the dropdown on the loaded page paints its cube green and the games cube gray. */
  method ChooseBeauty(page: StoreMap, games: SceneNode, beauty: SceneNode)
    requires page.Valid() && page.categories == Categories
    requires page.cubes == map["Cube001" := games, "Cube002" := beauty]
    requires games.material == Some(Material(0)) && beauty.material == Some(Material(0))
    modifies page.cubes.Values
    ensures page.Valid() && page.cubes == old(page.cubes)
    ensures beauty.material == Some(Material(Green)) && games.material == Some(Material(Gray))
  {
    FirstSearch(page.Colours());
    var outcome := page.SearchProduct("", "beauty");
    assert page.Colours()["Cube002"] == beauty.material && page.Colours()["Cube001"] == games.material;
  }

  /** Typing "games" afterwards moves the highlight back to the games cube. */
  method TypeGames(page: StoreMap, games: SceneNode, beauty: SceneNode)
    requires page.Valid() && page.categories == Categories
    requires page.cubes == map["Cube001" := games, "Cube002" := beauty]
    requires beauty.material == Some(Material(Green)) && games.material == Some(Material(Gray))
    modifies page.cubes.Values
    ensures page.Valid() && page.cubes == old(page.cubes)
    ensures games.material == Some(Material(Green)) && beauty.material == Some(Material(Gray))
  {
    SecondSearch(page.Colours());
    var outcome := page.SearchProduct("games", "beauty");
    assert page.Colours()["Cube002"] == beauty.material && page.Colours()["Cube001"] == games.material;
  }

  /** The same story told on the page's own state: load the scene, then search twice. */
  method PageScenario() {
    var page, light, games, beauty := LoadedPage();
    ChooseBeauty(page, games, beauty);
    TypeGames(page, games, beauty);
    assert light.material.None?;
  }
}
