/** The data a fresh report starts with (`constants.ts`): eighteen surveyed
    machines, two recommendations and the four recommendation categories
    with their Vietnamese labels. */
module Seed {
  import opened ReportTypes
  import opened Text
  import opened Configurations
  import opened Recommendations

  // ---------------------------------------------------------------------
  // generateInitialConfigurations
  // ---------------------------------------------------------------------

  /** How many working machines the seed lists before the faulty one. */
  const WORKING_MACHINES := 17

  /** The one fault the seed records ("screen fault"). */
  const SCREEN_FAULT := "Lỗi màn hình"

  /** The hardware every seeded machine shares. */
  predicate HasBaseFields(c: ComputerConfiguration)
  {
    && c.cpu == "G3240" && c.ram == "4GB" && c.storage == "SSD 120GB"
    && c.os == "Win10" && c.monitor == "19inch" && c.office == "Office19"
  }

  function BaseConfig(id: int, notes: seq<string>): (c: ComputerConfiguration)
    ensures HasBaseFields(c) && c.id == id && c.notes == notes
  {
    ComputerConfiguration(id, "G3240", "4GB", "SSD 120GB", "Win10", "19inch", "Office19", notes)
  }

  /** The seed's shape: eighteen machines with the base hardware and
      consecutive ids from `start`; the first seventeen have no notes and
      the last has the screen fault alone. */
  predicate IsSeed(configs: seq<ComputerConfiguration>, start: int)
  {
    && |configs| == WORKING_MACHINES + 1
    && (forall k :: 0 <= k < |configs| ==> configs[k].id == start + k && HasBaseFields(configs[k]))
    && (forall k :: 0 <= k < WORKING_MACHINES ==> configs[k].notes == [])
    && configs[WORKING_MACHINES].notes == [SCREEN_FAULT]
  }

  /** generateInitialConfigurations, with the clock reading `Date.now()`
      passed in as `start`: the counting loop pushes seventeen working
      machines, then one faulty machine, each taking the next id. */
  method GenerateInitialConfigurations(start: int) returns (configs: seq<ComputerConfiguration>)
    ensures IsSeed(configs, start)
  {
    configs := [];
    var idCounter := start;
    for i := 0 to WORKING_MACHINES
      invariant |configs| == i && idCounter == start + i
      invariant forall k :: 0 <= k < i ==> configs[k] == BaseConfig(start + k, [])
    {
      configs := configs + [BaseConfig(idCounter, [])];
      idCounter := idCounter + 1;
    }
    configs := configs + [BaseConfig(idCounter, [SCREEN_FAULT])];
  }

  /** Seeded ids are strictly increasing, hence distinct. */
  lemma SeedIdsIncreasing(configs: seq<ComputerConfiguration>, start: int)
    requires IsSeed(configs, start)
    ensures forall i, j :: 0 <= i < j < |configs| ==> configs[i].id < configs[j].id
    ensures UniqueIds(configs)
  {
  }

  /** The summary of the seed: eighteen machines, seventeen working, one
      faulty, and the screen fault as the only note label. */
  lemma SeedStats(configs: seq<ComputerConfiguration>, start: int)
    requires IsSeed(configs, start)
    ensures Stats(configs) == ComputerStats(18, 17, 1, SCREEN_FAULT)
  {
    var healthy := configs[..WORKING_MACHINES];
    var last := configs[WORKING_MACHINES];
    assert configs == healthy + [last];
    NoFaultyIffNoNotes(healthy);
    FaultyNotesAreAllNotes(healthy);
    FaultyAppend(healthy, last);
    FlatNotesAppend(healthy, [last]);
    assert FlatNotes([last]) == [SCREEN_FAULT];
    assert FlatNotes(configs) == [SCREEN_FAULT];
    assert Dedup([SCREEN_FAULT]) == [SCREEN_FAULT];
  }

  // ---------------------------------------------------------------------
  // INITIAL_RECOMMENDATIONS and RECOMMENDATION_CATEGORIES
  // ---------------------------------------------------------------------

  /** The two starting recommendations: periodic maintenance of every
      machine, and a RAM upgrade for the weakest ones. */
  const INITIAL_RECOMMENDATIONS := [
    Recommendation(1, Maintenance, "Vệ sinh, bảo trì định kỳ toàn bộ hệ thống máy tính."),
    Recommendation(2, Upgrade, "Nâng cấp RAM cho các máy cấu hình thấp để đáp ứng yêu cầu phần mềm giảng dạy.")
  ]

  /** The starting recommendations fall in two groups, maintenance first,
      one item each. */
  lemma InitialRecommendationsGrouped()
    ensures Grouped(INITIAL_RECOMMENDATIONS) ==
      [Group(Maintenance, [INITIAL_RECOMMENDATIONS[0]]), Group(Upgrade, [INITIAL_RECOMMENDATIONS[1]])]
  {
    var r0, r1 := INITIAL_RECOMMENDATIONS[0], INITIAL_RECOMMENDATIONS[1];
    assert Grouped([]) == [];
    assert [] + [r0] == [r0];
    GroupedSnocNew([], r0);
    assert Grouped([r0]) == [Group(Maintenance, [r0])];
    GroupedSnocNew([r0], r1);
    assert [r0] + [r1] == INITIAL_RECOMMENDATIONS;
  }

  /** The category picker's options, in display order, with their labels. */
  const RECOMMENDATION_CATEGORIES: seq<(RecommendationCategory, string)> := [
    (Maintenance, "Bảo trì, sửa chữa"),
    (Replacement, "Thay thế"),
    (Upgrade, "Nâng cấp"),
    (NewPurchase, "Đầu tư mới")
  ]

  /** `RECOMMENDATION_CATEGORIES.find(c => c.value === category)?.label`:
      every category has an entry, so the lookup always yields a label. */
  function CategoryLabel(c: RecommendationCategory): (name: string)
    ensures name != ""
    ensures exists k :: 0 <= k < |RECOMMENDATION_CATEGORIES| && RECOMMENDATION_CATEGORIES[k] == (c, name)
  {
    match c
    case Maintenance => assert RECOMMENDATION_CATEGORIES[0] == (c, "Bảo trì, sửa chữa"); "Bảo trì, sửa chữa"
    case Replacement => assert RECOMMENDATION_CATEGORIES[1] == (c, "Thay thế"); "Thay thế"
    case Upgrade => assert RECOMMENDATION_CATEGORIES[2] == (c, "Nâng cấp"); "Nâng cấp"
    case NewPurchase => assert RECOMMENDATION_CATEGORIES[3] == (c, "Đầu tư mới"); "Đầu tư mới"
  }

  /** The categories in the picker's order. */
  function CategoryValues(): (cs: seq<RecommendationCategory>)
    ensures |cs| == |RECOMMENDATION_CATEGORIES|
    ensures forall k :: 0 <= k < |cs| ==> cs[k] == RECOMMENDATION_CATEGORIES[k].0
  {
    seq(|RECOMMENDATION_CATEGORIES|, k requires 0 <= k < |RECOMMENDATION_CATEGORIES| => RECOMMENDATION_CATEGORIES[k].0)
  }

  /** Each category is listed exactly once, and distinct categories carry
      distinct labels. */
  lemma CategoriesListedOnce()
    ensures forall c: RecommendationCategory :: c in CategoryValues()
    ensures Distinct(CategoryValues())
    ensures forall i, j :: 0 <= i < j < |RECOMMENDATION_CATEGORIES| ==>
      RECOMMENDATION_CATEGORIES[i].1 != RECOMMENDATION_CATEGORIES[j].1
  {
    var cs := CategoryValues();
    forall c: RecommendationCategory
      ensures c in cs
    {
      var name := CategoryLabel(c);
      var k :| 0 <= k < |RECOMMENDATION_CATEGORIES| && RECOMMENDATION_CATEGORIES[k] == (c, name);
      assert cs[k] == c;
    }
  }
}
