/**
 `formatTabLabel` (script.js lines 97-99): the button text of a tab and the
 text of a status badge. It upper-cases the first character and replaces
 the first `-` after it by a space.
 */
module TabLabel {
  import opened Text
  import opened PromiseData

  /**
   `tab.charAt(0).toUpperCase() + tab.slice(1).replace('-', ' ')`. On the
   empty string `charAt(0)` and `slice(1)` are both empty.
   */
  function FormatTabLabel(tab: string): string
  {
    if tab == "" then "" else [UpperChar(tab[0])] + ReplaceFirst(tab[1..], '-', ' ')
  }

  /**
   The label has the tab's length; its first character is the tab's first
   character upper-cased; after that, only the first `-` past position 0
   becomes a space and every other character is kept.
   */
  lemma FormatTabLabelShape(tab: string)
    ensures |FormatTabLabel(tab)| == |tab|
    ensures tab != "" ==> FormatTabLabel(tab)[0] == UpperChar(tab[0])
    ensures forall i :: 1 <= i < |tab| ==>
      FormatTabLabel(tab)[i] == (if tab[i] == '-' && '-' !in tab[1..i] then ' ' else tab[i])
  {
    if tab != "" {
      var rest := tab[1..];
      ReplaceFirstChangesOnlyFirst(rest, '-', ' ');
      forall i | 1 <= i < |tab|
        ensures FormatTabLabel(tab)[i] == (if tab[i] == '-' && '-' !in tab[1..i] then ' ' else tab[i])
      {
        assert rest[i - 1] == tab[i];
        assert rest[..i - 1] == tab[1..i];
      }
    }
  }

  /** A tab without `-` only has its first character upper-cased. */
  lemma FormatTabLabelWithoutDash(tab: string)
    requires tab != "" && '-' !in tab
    ensures FormatTabLabel(tab) == [UpperChar(tab[0])] + tab[1..]
  {
    assert forall c :: c in tab[1..] ==> c in tab;
    ReplaceFirstAbsent(tab[1..], '-', ' ');
  }

  /** The labels of the four tab buttons. */
  lemma TabButtonLabels(tab: string)
    requires tab in TABS
    ensures FormatTabLabel(tab) ==
      if tab == "all" then "All"
      else if tab == "fulfilled" then "Fulfilled"
      else if tab == "in-progress" then "In progress"
      else "Delayed"
  {
    if tab == "all" {
      AllLabel(tab);
    } else if tab == "fulfilled" {
      FulfilledLabel(tab);
    } else if tab == "in-progress" {
      InProgressLabel(tab);
    } else {
      DelayedLabel(tab);
    }
  }

  // One helper per tab keeps each literal in its own proof, which keeps
  // `TabButtonLabels` within the resource limit.

  lemma AllLabel(tab: string)
    requires tab == "all"
    ensures FormatTabLabel(tab) == "All"
  {
    FormatTabLabelWithoutDash(tab);
  }

  lemma FulfilledLabel(tab: string)
    requires tab == "fulfilled"
    ensures FormatTabLabel(tab) == "Fulfilled"
  {
    FormatTabLabelWithoutDash(tab);
  }

  lemma DelayedLabel(tab: string)
    requires tab == "delayed"
    ensures FormatTabLabel(tab) == "Delayed"
  {
    FormatTabLabelWithoutDash(tab);
  }

  /** The one tab with a `-` gets a space in its place. */
  lemma InProgressLabel(tab: string)
    requires tab == "in-progress"
    ensures FormatTabLabel(tab) == "In progress"
  {
    assert tab[1..] == "n" + ['-'] + "progress";
    ReplaceFirstAfter("n", '-', "progress", ' ');
  }

  /** The first `from` after a prefix without one is the one replaced. */
  lemma {:induction false} ReplaceFirstAfter(pre: string, from: char, post: string, to: char)
    requires from !in pre
    ensures ReplaceFirst(pre + [from] + post, from, to) == pre + [to] + post
  {
    if pre != [] {
      assert (pre + [from] + post)[1..] == pre[1..] + [from] + post;
      ReplaceFirstAfter(pre[1..], from, post, to);
    }
  }
}
