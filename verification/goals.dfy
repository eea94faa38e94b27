/**
 * The goal list of the application root (App.tsx): the seed list, the three
 * mutations, and the two derived views (visible goals and per-filter counts).
 */
module Goals {
  import opened Wrappers
  import opened Seqs
  import opened Text
  import opened Types

  /** The identifiers present in a list. */
  function Ids(goals: seq<Goal>): set<string> {
    set g | g in goals :: g.id
  }

  /** No two goals share an identifier. */
  predicate UniqueIds(goals: seq<Goal>) {
    forall i, j :: 0 <= i < j < |goals| ==> goals[i].id != goals[j].id
  }

  /** The three entries used when nothing is stored; every timestamp is `now`. */
  function SeedGoals(now: int): seq<Goal> {
    [ Goal("1", "Start met React leren", Learning, true, now),
      Goal("2", "5km hardlopen", Health, false, now),
      Goal("3", "Budget plan maken", Finance, false, now) ]
  }

  /**
   * The list at start-up: the seed when the storage slot is absent or holds the
   * empty string (both falsy), otherwise whatever `parse` decodes from it.
   */
  function InitialGoals(saved: Option<string>, parse: string -> seq<Goal>, now: int): (r: seq<Goal>)
    ensures saved == None || saved == Some("") ==> r == SeedGoals(now) && |r| == 3 && UniqueIds(r)
    ensures saved.Some? && saved.value != "" ==> r == parse(saved.value)
  {
    if saved.Some? && saved.value != "" then parse(saved.value) else SeedGoals(now)
  }

  /** `addGoal`: prepend a fresh, not yet completed goal. */
  function AddGoal(goals: seq<Goal>, id: string, title: string, category: Category, now: int): (r: seq<Goal>)
    ensures |r| == |goals| + 1
    ensures r[0].id == id && r[0].title == title && r[0].category == category
    ensures !r[0].completed && r[0].createdAt == now
    ensures r[1..] == goals
    ensures Ids(r) == Ids(goals) + {id}
  {
    [Goal(id, title, category, false, now)] + goals
  }

  /** A fresh identifier keeps identifiers unique. */
  lemma AddGoalKeepsIdsUnique(goals: seq<Goal>, id: string, title: string, category: Category, now: int)
    requires UniqueIds(goals) && id !in Ids(goals)
    ensures UniqueIds(AddGoal(goals, id, title, category, now))
  {
    var r := AddGoal(goals, id, title, category, now);
    forall i, j | 0 <= i < j < |r| ensures r[i].id != r[j].id {
      if i == 0 {
        assert r[j] == goals[j - 1];
        assert r[j] in goals;
      } else {
        assert r[i] == goals[i - 1] && r[j] == goals[j - 1];
      }
    }
  }

  /** One goal after `toggleGoal(id)` has visited it. */
  function ToggleOne(g: Goal, id: string): Goal {
    if g.id == id then g.(completed := !g.completed) else g
  }

  /** `toggleGoal`: flip the completion flag of every goal carrying `id`. */
  function ToggleGoal(goals: seq<Goal>, id: string): (r: seq<Goal>)
    ensures |r| == |goals|
    ensures forall i :: 0 <= i < |goals| ==> r[i].(completed := goals[i].completed) == goals[i]
    ensures forall i :: 0 <= i < |goals| ==> (r[i].completed != goals[i].completed <==> goals[i].id == id)
  {
    Map(goals, g => ToggleOne(g, id))
  }

  /** Toggling the same identifier twice restores the list. */
  lemma ToggleInvolution(goals: seq<Goal>, id: string)
    ensures ToggleGoal(ToggleGoal(goals, id), id) == goals
  {
  }

  /** Toggling an identifier that is not present changes nothing. */
  lemma ToggleAbsentIsIdentity(goals: seq<Goal>, id: string)
    requires id !in Ids(goals)
    ensures ToggleGoal(goals, id) == goals
  {
    var r := ToggleGoal(goals, id);
    forall i | 0 <= i < |goals| ensures r[i] == goals[i] {
      assert goals[i] in goals;
    }
  }

  /** Toggling keeps the set of identifiers and their uniqueness. */
  lemma ToggleKeepsIds(goals: seq<Goal>, id: string)
    ensures Ids(ToggleGoal(goals, id)) == Ids(goals)
    ensures UniqueIds(goals) ==> UniqueIds(ToggleGoal(goals, id))
  {
    var r := ToggleGoal(goals, id);
    forall x | x in Ids(goals) ensures x in Ids(r) {
      var i :| 0 <= i < |goals| && goals[i].id == x;
      assert r[i] in r;
    }
    forall x | x in Ids(r) ensures x in Ids(goals) {
      var i :| 0 <= i < |r| && r[i].id == x;
      assert goals[i] in goals;
    }
  }

  /** The test `g.id === id`, as a predicate value. */
  function IdIs(id: string): Goal -> bool {
    (g: Goal) => g.id == id
  }

  /** The test `g.id !== id`, as a predicate value. */
  function IdIsNot(id: string): Goal -> bool {
    (g: Goal) => g.id != id
  }

  /** `deleteGoal`: keep the goals whose identifier differs from `id`. */
  function DeleteGoal(goals: seq<Goal>, id: string): (r: seq<Goal>)
    ensures forall g :: g in r <==> g in goals && g.id != id
    ensures IsSubsequence(r, goals)
  {
    FilterIsSubsequence(goals, IdIsNot(id));
    FilterMembers(goals, IdIsNot(id));
    Filter(goals, IdIsNot(id))
  }

  /** The goals carrying `id`. */
  function WithId(goals: seq<Goal>, id: string): seq<Goal> {
    Filter(goals, IdIs(id))
  }

  /** Deleting an identifier that is not present changes nothing. */
  lemma DeleteAbsentIsIdentity(goals: seq<Goal>, id: string)
    requires id !in Ids(goals)
    ensures DeleteGoal(goals, id) == goals
  {
    forall i | 0 <= i < |goals| ensures goals[i].id != id {
      assert goals[i] in goals;
    }
    FilterKeepsAll(goals, IdIsNot(id));
  }

  /** Deleting removes exactly as many entries as carry the identifier. */
  lemma DeleteCount(goals: seq<Goal>, id: string)
    ensures |DeleteGoal(goals, id)| == |goals| - |WithId(goals, id)|
  {
    FilterPartition(goals, IdIs(id), IdIsNot(id));
  }

  /** With unique identifiers at most one goal carries a given identifier. */
  lemma {:induction false} UniqueIdsAtMostOne(goals: seq<Goal>, id: string)
    requires UniqueIds(goals)
    ensures |WithId(goals, id)| <= 1
    decreases |goals|
  {
    if |goals| > 0 {
      var rest := goals[1..];
      assert UniqueIds(rest) by {
        forall i, j | 0 <= i < j < |rest| ensures rest[i].id != rest[j].id {
          assert rest[i] == goals[i + 1] && rest[j] == goals[j + 1];
        }
      }
      UniqueIdsAtMostOne(rest, id);
      if goals[0].id == id {
        assert forall j :: 0 <= j < |rest| ==> rest[j].id != id;
        FilterDropsAll(rest, IdIs(id));
      }
    }
  }

  /** With unique identifiers, deleting a present one shortens the list by exactly one. */
  lemma DeleteUniqueRemovesOne(goals: seq<Goal>, id: string)
    requires UniqueIds(goals) && id in Ids(goals)
    ensures |DeleteGoal(goals, id)| == |goals| - 1
    ensures id !in Ids(DeleteGoal(goals, id))
  {
    DeleteCount(goals, id);
    UniqueIdsAtMostOne(goals, id);
    var k :| 0 <= k < |goals| && goals[k].id == id;
    FilterMembers(goals, IdIs(id));
    assert goals[k] in WithId(goals, id);
    var r := DeleteGoal(goals, id);
    forall x | x in Ids(r) ensures x != id {
      var i :| 0 <= i < |r| && r[i].id == x;
    }
  }

  /** `deleteGoal` applied once for each identifier in `ids`, in order. */
  function DeleteEach(goals: seq<Goal>, ids: seq<string>): (r: seq<Goal>)
    ensures forall g :: g in r <==> g in goals && g.id !in ids
    decreases |ids|
  {
    if |ids| == 0 then goals else DeleteEach(DeleteGoal(goals, ids[0]), ids[1..])
  }

  /** Deleting, one after another, identifiers that cover the whole list empties it. */
  lemma DeleteEveryIdEmpties(goals: seq<Goal>, ids: seq<string>)
    requires forall g :: g in goals ==> g.id in ids
    ensures DeleteEach(goals, ids) == []
  {
    HeadIsMember(DeleteEach(goals, ids));
  }

  /**
   * `g.title.toLowerCase().includes(searchQuery.toLowerCase())`: the lower-cased
   * query occurs somewhere in the lower-cased title, so the empty query matches
   * every goal.
   */
  predicate MatchesSearch(g: Goal, query: string)
    ensures MatchesSearch(g, query) <==> exists k :: OccursAt(ToLower(g.title), ToLower(query), k)
    ensures query == "" ==> MatchesSearch(g, query)
  {
    IncludesIffOccurs(ToLower(g.title), ToLower(query));
    Includes(ToLower(g.title), ToLower(query))
  }

  /**
   * The code's filter test, dispatching on the filter's string key: ALL passes
   * every goal, ACTIVE the open ones, COMPLETED the completed ones, and any other
   * key the goals whose category value equals it. A key that names no filter,
   * CHAT included, passes nothing but the goals of a category with that value.
   */
  predicate MatchesFilterKey(g: Goal, key: string)
    ensures key == "ALL" ==> MatchesFilterKey(g, key)
    ensures key == "ACTIVE" ==> (MatchesFilterKey(g, key) <==> !g.completed)
    ensures key == "COMPLETED" ==> (MatchesFilterKey(g, key) <==> g.completed)
    ensures key !in PseudoFilterKeys ==> (MatchesFilterKey(g, key) <==> FilterOfKey(key) == Some(OfCategory(g.category)))
    ensures key == "CHAT" ==> !MatchesFilterKey(g, key)
  {
    CategoryLabelsAvoidPseudoKeys(g.category);
    FilterKeyClassifies(OfCategory(g.category));
    if key == "ALL" then true
    else if key == "ACTIVE" then !g.completed
    else if key == "COMPLETED" then g.completed
    else g.category.Label() == key
  }

  /** What each filter is meant to select; the chat view selects no goal. */
  predicate Selects(f: FilterType, g: Goal) {
    match f
    case All => true
    case Active => !g.completed
    case Completed => g.completed
    case Chat => false
    case OfCategory(c) => g.category == c
  }

  /**
   * Dispatching on the string key is unambiguous: because no category's string
   * value is a pseudo-filter key, the string test agrees with the intended one
   * for every filter, the chat key included.
   */
  lemma KeyDispatchAgrees(f: FilterType, g: Goal)
    ensures MatchesFilterKey(g, f.Key()) == Selects(f, g)
  {
    CategoryLabelsAvoidPseudoKeys(g.category);
    if f.OfCategory? {
      CategoryLabelsAvoidPseudoKeys(f.category);
      FilterKeysDistinct(OfCategory(g.category), f);
    }
  }

  /** The per-goal test of `filteredGoals`, as the code writes it. */
  function ShownBy(f: FilterType, query: string): Goal -> bool {
    (g: Goal) => MatchesSearch(g, query) && MatchesFilterKey(g, f.Key())
  }

  /** The per-goal test a reader of the filter list expects. */
  function Wanted(f: FilterType, query: string): Goal -> bool {
    (g: Goal) => MatchesSearch(g, query) && Selects(f, g)
  }

  /** `filteredGoals`: nothing in the chat view, otherwise the goals passing search and filter. */
  function FilteredGoals(goals: seq<Goal>, f: FilterType, query: string): (r: seq<Goal>)
    ensures f == Chat ==> r == []
    ensures forall g :: g in r <==> g in goals && MatchesSearch(g, query) && Selects(f, g)
    ensures IsSubsequence(r, goals)
  {
    if f == Chat then []
    else
      FilterIsSubsequence(goals, ShownBy(f, query));
      forall g: Goal ensures MatchesFilterKey(g, f.Key()) == Selects(f, g) {
        KeyDispatchAgrees(f, g);
      }
      FilterMembers(goals, ShownBy(f, query));
      Filter(goals, ShownBy(f, query))
  }

  /** The visible goals are exactly the order-preserving selection by the intended test. */
  lemma FilteredGoalsIsWantedFilter(goals: seq<Goal>, f: FilterType, query: string)
    ensures FilteredGoals(goals, f, query) == Filter(goals, Wanted(f, query))
  {
    if f != Chat {
      forall i | 0 <= i < |goals|
        ensures ShownBy(f, query)(goals[i]) == Wanted(f, query)(goals[i])
      {
        KeyDispatchAgrees(f, goals[i]);
      }
      FilterCongruent(goals, ShownBy(f, query), Wanted(f, query));
    }
  }

  /** The overview with an empty search shows the whole list, in order. */
  lemma FilteredAllWithEmptyQuery(goals: seq<Goal>)
    ensures FilteredGoals(goals, All, "") == goals
  {
    forall i | 0 <= i < |goals| ensures MatchesSearch(goals[i], "") {
      IncludesEmpty(ToLower(goals[i].title));
    }
    FilterKeepsAll(goals, ShownBy(All, ""));
  }

  /** Searching ignores the case of ASCII letters in the query. */
  lemma SearchIgnoresQueryCase(g: Goal, query: string)
    ensures MatchesSearch(g, ToLower(query)) == MatchesSearch(g, query)
  {
    ToLowerIdempotent(query);
  }

  /** The test `!g.completed`. */
  const IsOpen: Goal -> bool := (g: Goal) => !g.completed

  /** The test `g.completed`. */
  const IsDone: Goal -> bool := (g: Goal) => g.completed

  /** The test `g.category === c`. */
  function InCategory(c: Category): Goal -> bool {
    (g: Goal) => g.category == c
  }

  /** The goals not yet completed, in list order. */
  function ActiveGoals(goals: seq<Goal>): seq<Goal> {
    Filter(goals, IsOpen)
  }

  /** The completed goals, in list order. */
  function CompletedGoals(goals: seq<Goal>): seq<Goal> {
    Filter(goals, IsDone)
  }

  /** The goals of category `c`, in list order. */
  function GoalsIn(goals: seq<Goal>, c: Category): seq<Goal> {
    Filter(goals, InCategory(c))
  }

  /** The string values of a list of categories. */
  function LabelsOf(cats: seq<Category>): set<string> {
    set c | c in cats :: c.Label()
  }

  /** The `forEach` over categories: one entry per category, keyed by its string value. */
  function WithCategoryCounts(c: map<string, nat>, goals: seq<Goal>, cats: seq<Category>): (r: map<string, nat>)
    ensures r.Keys == c.Keys + LabelsOf(cats)
    ensures forall cat :: cat in cats ==> r[cat.Label()] == |GoalsIn(goals, cat)|
    ensures forall k :: k in c && k !in LabelsOf(cats) ==> r[k] == c[k]
    decreases |cats|
  {
    if |cats| == 0 then c
    else
      assert cats == [cats[0]] + cats[1..];
      forall cat: Category ensures cat.Label() == cats[0].Label() <==> cat == cats[0] {
        LabelInjective(cat, cats[0]);
      }
      WithCategoryCounts(c[cats[0].Label() := |GoalsIn(goals, cats[0])|], goals, cats[1..])
  }

  /** A pseudo-filter key is not the string value of any category. */
  lemma PseudoKeyIsNoLabel(k: string)
    requires k in PseudoFilterKeys
    ensures k !in LabelsOf(AllCategories)
  {
    if k in LabelsOf(AllCategories) {
      var c :| c in AllCategories && c.Label() == k;
      CategoryLabelsAvoidPseudoKeys(c);
    }
  }

  /** The three pseudo-filter counts the code starts from. */
  function BaseCounts(goals: seq<Goal>): (r: map<string, nat>)
    ensures r.Keys == {"ALL", "ACTIVE", "COMPLETED"}
    ensures r["ALL"] == |goals|
    ensures r["ACTIVE"] == |ActiveGoals(goals)| && r["COMPLETED"] == |CompletedGoals(goals)|
  {
    map["ALL" := |goals|, "ACTIVE" := |ActiveGoals(goals)|, "COMPLETED" := |CompletedGoals(goals)|]
  }

  /** `counts`: the number of goals behind each sidebar entry, keyed by filter string. */
  function Counts(goals: seq<Goal>): (r: map<string, nat>)
    ensures r.Keys == {"ALL", "ACTIVE", "COMPLETED"} + LabelsOf(AllCategories)
    ensures r["ALL"] == |goals|
    ensures r["ACTIVE"] == |ActiveGoals(goals)| && r["COMPLETED"] == |CompletedGoals(goals)|
    ensures r["ACTIVE"] + r["COMPLETED"] == r["ALL"]
    ensures forall c: Category :: c.Label() in r && r[c.Label()] == |GoalsIn(goals, c)|
  {
    PseudoCountsSurvive(goals);
    CategoryCountsPresent(goals);
    WithCategoryCounts(BaseCounts(goals), goals, AllCategories)
  }

  /** The category entries do not overwrite the three pseudo-filter entries. */
  lemma PseudoCountsSurvive(goals: seq<Goal>)
    ensures var r := WithCategoryCounts(BaseCounts(goals), goals, AllCategories);
      && "ALL" in r && "ACTIVE" in r && "COMPLETED" in r
      && r["ALL"] == |goals|
      && r["ACTIVE"] == |ActiveGoals(goals)| && r["COMPLETED"] == |CompletedGoals(goals)|
      && r["ACTIVE"] + r["COMPLETED"] == r["ALL"]
  {
    FilterPartition(goals, IsDone, IsOpen);
    PseudoKeyIsNoLabel("ALL");
    PseudoKeyIsNoLabel("ACTIVE");
    PseudoKeyIsNoLabel("COMPLETED");
  }

  /** Every category has its own entry. */
  lemma CategoryCountsPresent(goals: seq<Goal>)
    ensures var r := WithCategoryCounts(BaseCounts(goals), goals, AllCategories);
      forall c: Category :: c.Label() in r && r[c.Label()] == |GoalsIn(goals, c)|
  {
    forall c: Category ensures c in AllCategories {
      CategoryListed(c);
    }
  }

  /** Every goal lies in exactly one of the five categories. */
  lemma {:induction false} CategorySizesSum(goals: seq<Goal>)
    ensures |GoalsIn(goals, Personal)| + |GoalsIn(goals, Work)| + |GoalsIn(goals, Health)|
          + |GoalsIn(goals, Finance)| + |GoalsIn(goals, Learning)| == |goals|
    decreases |goals|
  {
    if |goals| > 0 {
      CategorySizesSum(goals[1..]);
    }
  }

  /** The five category counts add up to the total count. */
  lemma CategoryCountsSumToAll(goals: seq<Goal>)
    ensures var r := Counts(goals);
      r[Personal.Label()] + r[Work.Label()] + r[Health.Label()] + r[Finance.Label()] + r[Learning.Label()]
      == r["ALL"]
  {
    CategorySizesSum(goals);
  }

  /** Filtering a three-element list, one element at a time. */
  lemma FilterThree(a: Goal, b: Goal, c: Goal, p: Goal -> bool)
    ensures Filter([a, b, c], p) ==
      (if p(a) then [a] else []) + (if p(b) then [b] else []) + (if p(c) then [c] else [])
  {
    var s := [a, b, c];
    assert s[1..] == [b, c] && s[1..][1..] == [c] && s[1..][1..][1..] == [];
    assert Filter([c], p) == (if p(c) then [c] else []);
    assert Filter([b, c], p) == (if p(b) then [b] else []) + Filter([c], p);
  }

  /** The seed list with the active filter and an empty search shows the two open goals. */
  lemma SeedActiveView(now: int)
    ensures var s := SeedGoals(now);
      FilteredGoals(s, Active, "") == [s[1], s[2]]
  {
    var s := SeedGoals(now);
    FilteredGoalsIsWantedFilter(s, Active, "");
    forall i | 0 <= i < |s| ensures MatchesSearch(s[i], "") {
      IncludesEmpty(ToLower(s[i].title));
    }
    FilterThree(s[0], s[1], s[2], Wanted(Active, ""));
  }

  /** The status counts of the seed list: three in all, two active, one completed. */
  lemma SeedStatusCounts(now: int)
    ensures var r := Counts(SeedGoals(now));
      r["ALL"] == 3 && r["ACTIVE"] == 2 && r["COMPLETED"] == 1
  {
    var s := SeedGoals(now);
    FilterThree(s[0], s[1], s[2], IsOpen);
    FilterThree(s[0], s[1], s[2], IsDone);
    assert ActiveGoals(s) == [s[1], s[2]];
    assert CompletedGoals(s) == [s[0]];
  }

  /** The category counts of the seed list: one each for health, finance and learning, none otherwise. */
  lemma SeedCategoryCounts(now: int)
    ensures var r := Counts(SeedGoals(now));
      && r[Health.Label()] == 1 && r[Finance.Label()] == 1 && r[Learning.Label()] == 1
      && r[Personal.Label()] == 0 && r[Work.Label()] == 0
  {
    var s := SeedGoals(now);
    FilterThree(s[0], s[1], s[2], InCategory(Health));
    FilterThree(s[0], s[1], s[2], InCategory(Finance));
    FilterThree(s[0], s[1], s[2], InCategory(Learning));
    FilterThree(s[0], s[1], s[2], InCategory(Personal));
    FilterThree(s[0], s[1], s[2], InCategory(Work));
    assert GoalsIn(s, Health) == [s[1]];
    assert GoalsIn(s, Finance) == [s[2]];
    assert GoalsIn(s, Learning) == [s[0]];
    assert GoalsIn(s, Personal) == [];
    assert GoalsIn(s, Work) == [];
  }
}
