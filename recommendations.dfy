/** The recommendations step (`App.tsx`, lines 156-188): adding and removing
    recommendations, and grouping them by category for display and for the
    PDF, where each group becomes one block. */
module Recommendations {
  import opened ReportTypes
  import opened Text

  // ---------------------------------------------------------------------
  // Adding and removing
  // ---------------------------------------------------------------------

  /** The "new recommendation" form: its text box and category picker. */
  datatype Draft = Draft(text: string, category: RecommendationCategory)

  /** The form after a successful add: empty text, Maintenance selected. */
  const EMPTY_DRAFT := Draft("", Maintenance)

  datatype AddOutcome = AddOutcome(recommendations: seq<Recommendation>, draft: Draft)

  /** handleAddRecommendation: a draft that is blank after trimming changes
      nothing; otherwise its trimmed text is appended under `freshId` and the
      form is reset. */
  function AddRecommendation(recs: seq<Recommendation>, draft: Draft, freshId: int): (r: AddOutcome)
    ensures AllWhitespace(draft.text) ==> r == AddOutcome(recs, draft)
    ensures !AllWhitespace(draft.text) ==>
      && Trim(draft.text) != []
      && r.recommendations == recs + [Recommendation(freshId, draft.category, Trim(draft.text))]
      && r.draft == EMPTY_DRAFT
  {
    var text := Trim(draft.text);
    if text == [] then AddOutcome(recs, draft)
    else AddOutcome(recs + [Recommendation(freshId, draft.category, text)], EMPTY_DRAFT)
  }

  predicate HasRecommendation(recs: seq<Recommendation>, id: int)
  {
    exists i :: 0 <= i < |recs| && recs[i].id == id
  }

  /** handleRemoveRecommendation: `filter(rec => rec.id !== id)`. */
  function RemoveRecommendation(recs: seq<Recommendation>, id: int): (r: seq<Recommendation>)
    ensures |r| <= |recs|
  {
    if recs == [] then []
    else
      var rest := RemoveRecommendation(recs[1..], id);
      if recs[0].id == id then rest else [recs[0]] + rest
  }

  /** Removal drops every recommendation with that id and keeps all the
      others; with no such id the list is unchanged. */
  lemma {:induction false} RemoveRecommendationSpec(recs: seq<Recommendation>, id: int)
    ensures var r := RemoveRecommendation(recs, id);
      && !HasRecommendation(r, id)
      && (forall x :: x in recs && x.id != id ==> x in r)
      && (forall x :: x in r ==> x in recs)
      && (!HasRecommendation(recs, id) ==> r == recs)
  {
    if recs != [] {
      var rest := RemoveRecommendation(recs[1..], id);
      RemoveRecommendationSpec(recs[1..], id);
      assert recs == [recs[0]] + recs[1..];
      if !HasRecommendation(recs, id) {
        assert !HasRecommendation(recs[1..], id) by {
          forall i | 0 <= i < |recs[1..]| ensures recs[1..][i].id != id {
            assert recs[1..][i] == recs[i + 1];
          }
        }
        assert recs[0].id != id;
      }
      if recs[0].id != id {
        var r := [recs[0]] + rest;
        forall i | 0 <= i < |r| ensures r[i].id != id {
          if i > 0 {
            assert r[i] == rest[i - 1];
          }
        }
      }
    }
  }

  lemma {:induction false} RemoveAppend(a: seq<Recommendation>, b: seq<Recommendation>, id: int)
    ensures RemoveRecommendation(a + b, id) == RemoveRecommendation(a, id) + RemoveRecommendation(b, id)
  {
    if a != [] {
      assert (a + b)[0] == a[0] && (a + b)[1..] == a[1..] + b;
      RemoveAppend(a[1..], b, id);
    } else {
      assert a + b == b;
    }
  }

  /** Removing a recommendation just added under a new id restores the list. */
  lemma RemoveUndoesAdd(recs: seq<Recommendation>, draft: Draft, freshId: int)
    requires !HasRecommendation(recs, freshId)
    ensures RemoveRecommendation(AddRecommendation(recs, draft, freshId).recommendations, freshId) == recs
  {
    RemoveRecommendationSpec(recs, freshId);
    if !AllWhitespace(draft.text) {
      RemoveAppend(recs, [Recommendation(freshId, draft.category, Trim(draft.text))], freshId);
    }
  }

  // ---------------------------------------------------------------------
  // groupedRecommendations
  // ---------------------------------------------------------------------

  /** One entry of the grouping object: a category and its recommendations. */
  datatype Group = Group(category: RecommendationCategory, items: seq<Recommendation>)

  function CategoriesOf(recs: seq<Recommendation>): (cs: seq<RecommendationCategory>)
    ensures |cs| == |recs| && forall i :: 0 <= i < |recs| ==> cs[i] == recs[i].category
  {
    seq(|recs|, i requires 0 <= i < |recs| => recs[i].category)
  }

  /** The recommendations of one category, in list order. */
  function OfCategory(recs: seq<Recommendation>, c: RecommendationCategory): (r: seq<Recommendation>)
    ensures forall x :: x in r <==> x in recs && x.category == c
  {
    if recs == [] then []
    else
      var last := recs[|recs| - 1];
      var rest := OfCategory(recs[..|recs| - 1], c);
      assert recs == recs[..|recs| - 1] + [last];
      if last.category == c then rest + [last] else rest
  }

  /** The grouping object's entries in iteration order: one group per
      category present, in order of the category's first appearance (the
      order in which the reducer created its keys). */
  function Grouped(recs: seq<Recommendation>): (gs: seq<Group>)
  {
    var order := Dedup(CategoriesOf(recs));
    seq(|order|, i requires 0 <= i < |order| => Group(order[i], OfCategory(recs, order[i])))
  }

  lemma OfCategorySnoc(recs: seq<Recommendation>, rec: Recommendation, c: RecommendationCategory)
    ensures OfCategory(recs + [rec], c) == OfCategory(recs, c) + (if rec.category == c then [rec] else [])
  {
    assert (recs + [rec])[..|recs|] == recs;
  }

  /** The number of recommendations across all groups. */
  function TotalItems(gs: seq<Group>): nat
  {
    if gs == [] then 0 else TotalItems(gs[..|gs| - 1]) + |gs[|gs| - 1].items|
  }

  lemma {:induction false} TotalItemsUpdate(gs: seq<Group>, k: nat, g: Group)
    requires k < |gs|
    ensures TotalItems(gs[k := g]) == TotalItems(gs) - |gs[k].items| + |g.items|
  {
    var last := |gs| - 1;
    if k < last {
      assert gs[k := g][..last] == gs[..last][k := g];
      TotalItemsUpdate(gs[..last], k, g);
    } else {
      assert gs[k := g][..last] == gs[..last];
    }
  }

  lemma TotalItemsSnoc(gs: seq<Group>, g: Group)
    ensures TotalItems(gs + [g]) == TotalItems(gs) + |g.items|
  {
    assert (gs + [g])[..|gs|] == gs;
  }

  lemma PrefixSnoc(recs: seq<Recommendation>, n: nat)
    requires n < |recs|
    ensures recs[..n + 1] == recs[..n] + [recs[n]]
  {
  }

  /** The position of category `c` among the groups, or -1 (the lookup
      `acc[rec.category]`). */
  function GroupIndex(gs: seq<Group>, c: RecommendationCategory): (k: int)
    ensures -1 <= k < |gs|
    ensures k >= 0 ==> gs[k].category == c
    ensures k == -1 ==> forall i :: 0 <= i < |gs| ==> gs[i].category != c
  {
    if gs == [] then -1
    else if gs[|gs| - 1].category == c then |gs| - 1
    else GroupIndex(gs[..|gs| - 1], c)
  }

  /** One call of the reducer: the recommendation is pushed onto its
      category's list, which is created, after the others, on first use. */
  function AddToGroups(gs: seq<Group>, rec: Recommendation): seq<Group>
  {
    var k := GroupIndex(gs, rec.category);
    if k < 0 then gs + [Group(rec.category, [rec])]
    else gs[k := gs[k].(items := gs[k].items + [rec])]
  }

  /** groupedRecommendations: the reducer that pushes every recommendation
      into its category's list, creating the list on first use. The result
      is `Grouped(recs)`, and no recommendation is lost or repeated. */
  method GroupRecommendations(recs: seq<Recommendation>) returns (groups: seq<Group>)
    ensures groups == Grouped(recs)
    ensures TotalItems(groups) == |recs|
  {
    groups := [];
    for n := 0 to |recs|
      invariant groups == Grouped(recs[..n])
      invariant TotalItems(groups) == n
    {
      var rec := recs[n];
      GroupedNext(recs, n);
      var k := GroupIndex(groups, rec.category);
      if k < 0 {
        groups := groups + [Group(rec.category, [rec])];
      } else {
        groups := groups[k := groups[k].(items := groups[k].items + [rec])];
      }
    }
    assert recs[..|recs|] == recs;
  }

  /** One pass of the reducer turns the grouping of the first `n`
      recommendations into that of the first `n + 1`, one item more. */
  lemma GroupedNext(recs: seq<Recommendation>, n: nat)
    requires n < |recs|
    ensures Grouped(recs[..n + 1]) == AddToGroups(Grouped(recs[..n]), recs[n])
    ensures TotalItems(AddToGroups(Grouped(recs[..n]), recs[n])) == TotalItems(Grouped(recs[..n])) + 1
  {
    PrefixSnoc(recs, n);
    GroupedSnoc(recs[..n], recs[n]);
    AddToGroupsCount(Grouped(recs[..n]), recs[n]);
  }

  /** Each pass adds exactly one item. */
  lemma AddToGroupsCount(gs: seq<Group>, rec: Recommendation)
    ensures TotalItems(AddToGroups(gs, rec)) == TotalItems(gs) + 1
  {
    var k := GroupIndex(gs, rec.category);
    if k < 0 {
      TotalItemsSnoc(gs, Group(rec.category, [rec]));
    } else {
      TotalItemsUpdate(gs, k, gs[k].(items := gs[k].items + [rec]));
    }
  }

  /** How the grouping grows by one recommendation: its category's group
      gains it at the end, or a new group is opened after the others. */
  lemma GroupedSnoc(recs: seq<Recommendation>, rec: Recommendation)
    ensures Grouped(recs + [rec]) == AddToGroups(Grouped(recs), rec)
  {
    var gs := Grouped(recs);
    var k := GroupIndex(gs, rec.category);
    if k < 0 {
      GroupedSnocNew(recs, rec);
    } else {
      GroupedSnocSeen(recs, rec, k);
    }
  }

  lemma GroupedSnocNew(recs: seq<Recommendation>, rec: Recommendation)
    requires forall i :: 0 <= i < |Grouped(recs)| ==> Grouped(recs)[i].category != rec.category
    ensures Grouped(recs + [rec]) == Grouped(recs) + [Group(rec.category, [rec])]
  {
    var c := rec.category;
    var order := Dedup(CategoriesOf(recs));
    var gs, gs' := Grouped(recs), Grouped(recs + [rec]);
    var want := gs + [Group(c, [rec])];
    AbsentCategory(recs, c);
    NewCategoryOrder(recs, rec);
    var order' := Dedup(CategoriesOf(recs + [rec]));
    assert |gs'| == |want|;
    forall i | 0 <= i < |want| ensures gs'[i] == want[i] {
      if i < |gs| {
        assert order'[i] == order[i];
        OfCategorySnoc(recs, rec, order[i]);
      } else {
        NoneOfAbsentCategory(recs, c);
        OfCategorySnoc(recs, rec, c);
      }
    }
  }

  /** A category without a group appears in no recommendation. */
  lemma AbsentCategory(recs: seq<Recommendation>, c: RecommendationCategory)
    requires forall i :: 0 <= i < |Grouped(recs)| ==> Grouped(recs)[i].category != c
    ensures forall j :: 0 <= j < |recs| ==> recs[j].category != c
  {
    var cats := CategoriesOf(recs);
    var order := Dedup(cats);
    forall j | 0 <= j < |recs| ensures recs[j].category != c {
      assert cats[j] in order;
      var i :| 0 <= i < |order| && order[i] == cats[j];
      assert Grouped(recs)[i].category == cats[j];
    }
  }

  /** A recommendation of a new category adds that category at the end of
      the order of first appearance. */
  lemma NewCategoryOrder(recs: seq<Recommendation>, rec: Recommendation)
    requires forall j :: 0 <= j < |recs| ==> recs[j].category != rec.category
    ensures Dedup(CategoriesOf(recs + [rec])) == Dedup(CategoriesOf(recs)) + [rec.category]
  {
    var cats := CategoriesOf(recs);
    assert CategoriesOf(recs + [rec]) == cats + [rec.category];
    assert rec.category !in cats;
    DedupSnoc(cats, rec.category);
  }

  lemma {:induction false} NoneOfAbsentCategory(recs: seq<Recommendation>, c: RecommendationCategory)
    requires forall i :: 0 <= i < |recs| ==> recs[i].category != c
    ensures OfCategory(recs, c) == []
  {
    if recs != [] {
      NoneOfAbsentCategory(recs[..|recs| - 1], c);
    }
  }

  lemma GroupedSnocSeen(recs: seq<Recommendation>, rec: Recommendation, k: nat)
    requires k < |Grouped(recs)| && Grouped(recs)[k].category == rec.category
    ensures var gs := Grouped(recs);
      Grouped(recs + [rec]) == gs[k := gs[k].(items := gs[k].items + [rec])]
  {
    var c := rec.category;
    var cats := CategoriesOf(recs);
    var order := Dedup(cats);
    var gs, gs' := Grouped(recs), Grouped(recs + [rec]);
    var want := gs[k := gs[k].(items := gs[k].items + [rec])];
    assert order[k] == c;
    assert c in cats;
    assert CategoriesOf(recs + [rec]) == cats + [c];
    DedupSnoc(cats, c);
    assert Dedup(cats + [c]) == order;
    assert |gs'| == |want|;
    forall i | 0 <= i < |gs| ensures gs'[i] == want[i] {
      OfCategorySnoc(recs, rec, order[i]);
    }
  }

  /** No category has two groups. */
  lemma GroupsDistinct(recs: seq<Recommendation>)
    ensures var gs := Grouped(recs);
      forall i, j :: 0 <= i < j < |gs| ==> gs[i].category != gs[j].category
  {
    var order := Dedup(CategoriesOf(recs));
    assert forall i :: 0 <= i < |order| ==> Grouped(recs)[i].category == order[i];
  }

  /** Every recommendation sits in the group of its own category. */
  lemma GroupsCover(recs: seq<Recommendation>, k: nat)
    requires k < |recs|
    ensures var gs := Grouped(recs);
      exists i :: 0 <= i < |gs| && gs[i].category == recs[k].category && recs[k] in gs[i].items
  {
    var gs := Grouped(recs);
    var order := Dedup(CategoriesOf(recs));
    assert CategoriesOf(recs)[k] in order;
    var i :| 0 <= i < |order| && order[i] == recs[k].category;
    assert recs[k] in OfCategory(recs, order[i]);
    assert gs[i].category == recs[k].category && recs[k] in gs[i].items;
  }

  /** Every group is non-empty and holds only recommendations of the list,
      of its own category. */
  lemma GroupsSound(recs: seq<Recommendation>, i: nat)
    requires i < |Grouped(recs)|
    ensures var g := Grouped(recs)[i];
      g.items != [] && forall x :: x in g.items ==> x in recs && x.category == g.category
  {
    var order := Dedup(CategoriesOf(recs));
    var cats := CategoriesOf(recs);
    assert order[i] in cats;
    var k :| 0 <= k < |recs| && cats[k] == order[i];
    assert recs[k] in OfCategory(recs, order[i]);
  }
}
