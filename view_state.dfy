/**
 The page's two state variables (script.js lines 65-66) and the two event
 handlers that assign them: a tab click (line 207) and a keystroke in the
 search box (line 241). Both handlers then re-render; what is rendered is
 `Shown`, the filter applied to the current state.
 */
module ViewState {
  import opened PromiseData
  import opened PromiseFilter

  /** The button classes `renderTabs` gives a tab: highlighted exactly for the active one (line 198). */
  function TabButtonClass(tab: string, activeTab: string): (r: string)
    ensures r == "bg-blue-600 text-white" <==> tab == activeTab
  {
    if activeTab == tab then "bg-blue-600 text-white" else "bg-gray-100 text-gray-700 hover:bg-gray-200"
  }

  /** Whenever the active tab is one of the tabs, exactly one of the rendered buttons is highlighted. */
  lemma OneTabHighlighted(activeTab: string)
    requires activeTab in TABS
    ensures exists i :: 0 <= i < |TABS| && TabButtonClass(TABS[i], activeTab) == "bg-blue-600 text-white"
    ensures forall i, j ::
      (0 <= i < |TABS| && 0 <= j < |TABS| &&
       TabButtonClass(TABS[i], activeTab) == "bg-blue-600 text-white" &&
       TabButtonClass(TABS[j], activeTab) == "bg-blue-600 text-white") ==> i == j
  {
    assert |TABS[0]| == 3 && |TABS[1]| == 9 && |TABS[2]| == 11 && |TABS[3]| == 7;
  }

  class Page {
    var activeTab: string
    var searchQuery: string

    /** The active tab is always the `data-tab` value of one of the rendered buttons. */
    ghost predicate Valid()
      reads this
    {
      activeTab in TABS
    }

    /** The initial values of lines 65-66. */
    constructor ()
      ensures Valid()
      ensures activeTab == "all" && searchQuery == ""
    {
      activeTab := "all";
      searchQuery := "";
    }

    /**
     A click on a tab button: `activeTab` becomes that button's `data-tab`
     value, which `renderTabs` takes from `TABS`. The query is unchanged.
     */
    method ClickTab(dataTab: string)
      requires Valid()
      requires dataTab in TABS
      modifies this
      ensures Valid()
      ensures activeTab == dataTab
      ensures searchQuery == old(searchQuery)
    {
      activeTab := dataTab;
    }

    /** An `input` event on the search box: the query becomes the box's value. The tab is unchanged. */
    method InputSearch(value: string)
      requires Valid()
      modifies this
      ensures Valid()
      ensures searchQuery == value
      ensures activeTab == old(activeTab)
    {
      searchQuery := value;
    }

    /** The position of the one button `renderTabs` highlights for the current state. */
    method HighlightedButton() returns (i: nat)
      requires Valid()
      ensures i < |TABS| && TABS[i] == activeTab
      ensures forall j :: 0 <= j < |TABS| ==>
        (TabButtonClass(TABS[j], activeTab) == "bg-blue-600 text-white" <==> j == i)
    {
      OneTabHighlighted(activeTab);
      if activeTab == TABS[0] {
        i := 0;
      } else if activeTab == TABS[1] {
        i := 1;
      } else if activeTab == TABS[2] {
        i := 2;
      } else {
        i := 3;
      }
    }

    /** The records `renderPromises` shows for the current state, in order. */
    method Shown() returns (r: seq<Record>)
      ensures r == Filter(PROMISES, activeTab, searchQuery)
      ensures forall p :: p in r <==> p in PROMISES && MatchesTab(p, activeTab) && MatchesSearch(p, searchQuery)
      ensures activeTab == "all" && searchQuery == "" ==> r == PROMISES
    {
      r := Filter(PROMISES, activeTab, searchQuery);
      forall p
        ensures p in r <==> p in PROMISES && MatchesTab(p, activeTab) && MatchesSearch(p, searchQuery)
      {
        FilterMembership(PROMISES, activeTab, searchQuery, p);
      }
      if activeTab == "all" && searchQuery == "" {
        FilterShowsEverything(PROMISES);
      }
    }
  }
}
