/** The three status tabs above the task list and the completion-rate tile beside them. */
module FilterTabs {
  import opened Common

  /** The `taskCounts` object the dashboard hands to the tabs. */
  datatype Counts = Counts(all: nat, pending: nat, completed: nat)

  /** One tab: the filter key it selects, its caption and the count it shows. */
  datatype Tab = Tab(key: string, caption: string, count: nat)

  const AllKey: string := "all"

  /** The tab descriptors, in display order. */
  function Tabs(counts: Counts): (r: seq<Tab>)
    ensures |r| == 3
    ensures r[0].key == AllKey && r[1].key == Pending && r[2].key == Completed
    ensures r[0].count == counts.all && r[1].count == counts.pending && r[2].count == counts.completed
    ensures forall i, j :: 0 <= i < j < |r| ==> r[i].key != r[j].key
  {
    [Tab(AllKey, "All Tasks", counts.all),
     Tab(Pending, "In Progress", counts.pending),
     Tab(Completed, "Completed", counts.completed)]
  }

  predicate IsActive(activeFilter: string, tab: Tab) {
    activeFilter == tab.key
  }

  /** Clicking tab `i` reports that tab's key as the new active filter. */
  function ClickTab(counts: Counts, i: nat): (key: string)
    requires i < 3
    ensures IsActive(key, Tabs(counts)[i])
    ensures forall j :: 0 <= j < 3 && j != i ==> !IsActive(key, Tabs(counts)[j])
  {
    Tabs(counts)[i].key
  }

  /** A known filter key lights exactly one tab; any other key lights none. */
  lemma ActiveTabUnique(counts: Counts, activeFilter: string)
    ensures activeFilter in {AllKey, Pending, Completed} ==>
      exists i :: 0 <= i < 3 && IsActive(activeFilter, Tabs(counts)[i]) &&
        forall j :: 0 <= j < 3 && j != i ==> !IsActive(activeFilter, Tabs(counts)[j])
    ensures activeFilter !in {AllKey, Pending, Completed} ==>
      forall j :: 0 <= j < 3 ==> !IsActive(activeFilter, Tabs(counts)[j])
  {
    var tabs := Tabs(counts);
    if activeFilter == AllKey {
      assert IsActive(activeFilter, tabs[0]);
    } else if activeFilter == Pending {
      assert IsActive(activeFilter, tabs[1]);
    } else if activeFilter == Completed {
      assert IsActive(activeFilter, tabs[2]);
    }
  }

  /** The "Completion Rate" tile: 0 with no tasks, otherwise completed/all as a rounded percentage. */
  function CompletionRate(counts: Counts): (rate: int)
    ensures counts.all == 0 ==> rate == 0
    ensures counts.all > 0 ==> 2 * counts.all * rate <= 200 * counts.completed + counts.all < 2 * counts.all * (rate + 1)
    ensures counts.completed <= counts.all ==> 0 <= rate <= 100
  {
    if counts.all > 0 then
      RoundPercentNearest(counts.completed, counts.all);
      assert counts.completed <= counts.all ==> 0 <= RoundPercent(counts.completed, counts.all) <= 100 by {
        if counts.completed <= counts.all {
          RoundPercentBounds(counts.completed, counts.all);
        }
      }
      RoundPercent(counts.completed, counts.all)
    else 0
  }
}
