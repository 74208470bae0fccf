/**
 * The portfolio filter (`initPortfolioFilters`): a click on a filter button makes
 * that button the only active one, displays every item the filter selects and
 * schedules, 300 ms later, `display: none` for every other item. Those timeouts
 * are never cancelled; `FireHide` is the source's callback and `FireHideChecked`
 * the corrected one (see the findings in README.md).
 */
module Portfolio {
  /** The filter value that selects every item. */
  const All: string := "all"
  /** Delay of the timeout that sets `display: none` on a rejected item. */
  const HideDelay: nat := 300

  /** An item is shown iff the filter is `all` or names the item's category. */
  predicate Matches(filter: string, category: string)
  {
    filter == All || category == filter
  }

  /** The items a filter rejects, by position, in page order. */
  function Rejected(filter: string, categories: seq<string>): (r: seq<nat>)
    ensures forall j :: 0 <= j < |r| ==> r[j] < |categories|
  {
    if categories == [] then []
    else
      var n := |categories| - 1;
      Rejected(filter, categories[..n]) + (if Matches(filter, categories[n]) then [] else [n])
  }

  /** A position is listed iff the filter rejects the item there. */
  lemma {:induction false} RejectedExactly(filter: string, categories: seq<string>, k: int)
    requires 0 <= k < |categories|
    ensures k in Rejected(filter, categories) <==> !Matches(filter, categories[k])
  {
    var n := |categories| - 1;
    assert categories[..n][..] == categories[..n];
    if k < n {
      RejectedExactly(filter, categories[..n], k);
      assert categories[..n][k] == categories[k];
    } else {
      RejectedBelow(filter, categories[..n], k);
    }
  }

  lemma RejectedBelow(filter: string, categories: seq<string>, k: int)
    requires k >= |categories|
    ensures k !in Rejected(filter, categories)
  {
  }

  predicate Increasing(s: seq<nat>)
  {
    forall i, j :: 0 <= i < j < |s| ==> s[i] < s[j]
  }

  /** The positions are listed in increasing order, each at most once. */
  lemma {:induction false} RejectedIncreasing(filter: string, categories: seq<string>)
    ensures Increasing(Rejected(filter, categories))
  {
    if categories != [] {
      var n := |categories| - 1;
      var p := Rejected(filter, categories[..n]);
      RejectedIncreasing(filter, categories[..n]);
      var r := p + (if Matches(filter, categories[n]) then [] else [n]);
      assert Rejected(filter, categories) == r;
      forall i, j | 0 <= i < j < |r|
        ensures r[i] < r[j]
      {
        assert r[i] == p[i] && p[i] < n;
        if j < |p| {
          assert r[j] == p[j];
        }
      }
    }
  }

  /** Taking one more item into account appends its position when the filter rejects it. */
  lemma RejectedSnoc(filter: string, categories: seq<string>, k: nat)
    requires k < |categories|
    ensures Rejected(filter, categories[..k + 1])
         == Rejected(filter, categories[..k]) + (if Matches(filter, categories[k]) then [] else [k])
  {
    assert categories[..k + 1][..k] == categories[..k];
  }

  /** The `all` filter rejects no item, so a click on it schedules no hide timeout. */
  lemma {:induction false} AllRejectsNothing(categories: seq<string>)
    ensures Rejected(All, categories) == []
  {
    if categories != [] {
      AllRejectsNothing(categories[..|categories| - 1]);
    }
  }

  /** A filter other than `all` that no item's category names rejects every item, in page order. */
  lemma {:induction false} UnmatchedFilterRejectsAll(filter: string, categories: seq<string>)
    requires filter != All
    requires forall k :: 0 <= k < |categories| ==> categories[k] != filter
    ensures |Rejected(filter, categories)| == |categories|
    ensures forall k :: 0 <= k < |categories| ==> Rejected(filter, categories)[k] == k
  {
    if categories != [] {
      var n := |categories| - 1;
      UnmatchedFilterRejectsAll(filter, categories[..n]);
    }
  }

  class Grid {
    /** `data-filter` of each button. */
    const filters: seq<string>
    /** `data-category` of each item. */
    const categories: seq<string>
    /** The `active` class of each button. */
    var buttonActive: seq<bool>
    /** Whether each item's `display` is other than `none`. */
    var displayed: seq<bool>
    /** Items whose `display: none` timeout is pending; all have the same delay, so they fire in this order. */
    var pendingHides: seq<nat>
    /** The filter of the active button: that of the last click, `all` at load. */
    var filter: string

    ghost predicate Valid()
      reads this
    {
      && |buttonActive| == |filters|
      && |displayed| == |categories|
      && forall j :: 0 <= j < |pendingHides| ==> pendingHides[j] < |categories|
    }

    /** Every selected item is displayed, and every displayed item that is not selected is about to be hidden. */
    ghost predicate Consistent()
      reads this
      requires Valid()
    {
      forall k :: 0 <= k < |categories| ==>
        && (Matches(filter, categories[k]) ==> displayed[k])
        && (!Matches(filter, categories[k]) && displayed[k] ==> k in pendingHides)
    }

    /** At load every item is displayed, under the `all` filter. */
    constructor (filters: seq<string>, categories: seq<string>, buttonActive: seq<bool>)
      requires |buttonActive| == |filters|
      ensures Valid() && Consistent()
      ensures this.filters == filters && this.categories == categories && this.buttonActive == buttonActive
      ensures (forall k :: 0 <= k < |categories| ==> displayed[k]) && pendingHides == [] && filter == All
    {
      this.filters := filters;
      this.categories := categories;
      this.buttonActive := buttonActive;
      displayed := seq(|categories|, k => true);
      pendingHides := [];
      filter := All;
    }

    /** A click on filter button `b`. Nothing is wired when the page has no items. */
    method Click(b: nat)
      requires Valid() && b < |filters|
      modifies this
      ensures Valid()
      ensures categories == [] ==> unchanged(this)
      ensures categories != [] ==> Consistent() && filter == filters[b]
      ensures categories != [] ==> forall j :: 0 <= j < |filters| ==> (buttonActive[j] <==> j == b)
      ensures categories != [] ==> forall k :: 0 <= k < |categories| ==>
        displayed[k] == (Matches(filter, categories[k]) || old(displayed[k]))
      ensures categories != [] ==> pendingHides == old(pendingHides) + Rejected(filter, categories)
    {
      if categories == [] {
        return;
      }
      ActivateOnly(b);
      ApplyFilter(filters[b]);
      filter := filters[b];
      forall k | 0 <= k < |categories|
        ensures !Matches(filter, categories[k]) ==> k in pendingHides
      {
        RejectedExactly(filter, categories, k);
      }
    }

    /** The button loop of the click handler: every button loses `active`, then the clicked one gets it. */
    method ActivateOnly(b: nat)
      requires Valid() && b < |filters|
      modifies this`buttonActive
      ensures Valid()
      ensures forall j :: 0 <= j < |filters| ==> (buttonActive[j] <==> j == b)
    {
      var j := 0;
      while j < |buttonActive|
        invariant 0 <= j <= |buttonActive| == |filters|
        invariant forall i :: 0 <= i < j ==> !buttonActive[i]
      {
        buttonActive := buttonActive[j := false];
        j := j + 1;
      }
      buttonActive := buttonActive[b := true];
    }

    /** The item loop of the click handler: display the selected items, schedule hiding the others. */
    method ApplyFilter(f: string)
      requires Valid()
      modifies this`displayed, this`pendingHides
      ensures Valid()
      ensures forall k :: 0 <= k < |categories| ==> displayed[k] == (Matches(f, categories[k]) || old(displayed[k]))
      ensures pendingHides == old(pendingHides) + Rejected(f, categories)
    {
      var k := 0;
      while k < |categories|
        invariant 0 <= k <= |categories| == |displayed|
        invariant forall i :: 0 <= i < |categories| ==>
          displayed[i] == (if i < k then Matches(f, categories[i]) || old(displayed[i]) else old(displayed[i]))
        invariant pendingHides == old(pendingHides) + Rejected(f, categories[..k])
        invariant forall i :: 0 <= i < |pendingHides| ==> pendingHides[i] < |categories|
      {
        RejectedSnoc(f, categories, k);
        if Matches(f, categories[k]) {
          displayed := displayed[k := true];
        } else {
          pendingHides := pendingHides + [k];
        }
        k := k + 1;
      }
      assert categories[..k] == categories;
    }

    /** The oldest pending hide timeout fires, as the source's callback does: it hides the item unconditionally. */
    method FireHide()
      requires Valid() && pendingHides != []
      modifies this`displayed, this`pendingHides
      ensures Valid() && filter == old(filter) && buttonActive == old(buttonActive)
      ensures displayed == old(displayed)[old(pendingHides[0]) := false]
      ensures pendingHides == old(pendingHides[1..])
    {
      displayed := displayed[pendingHides[0] := false];
      pendingHides := pendingHides[1..];
    }

    /** The corrected callback: it hides the item only if the current filter still rejects it. */
    method FireHideChecked()
      requires Valid() && Consistent() && pendingHides != []
      modifies this`displayed, this`pendingHides
      ensures Valid() && Consistent() && filter == old(filter) && buttonActive == old(buttonActive)
      ensures var k := old(pendingHides[0]);
        displayed == if Matches(filter, categories[k]) then old(displayed) else old(displayed)[k := false]
      ensures pendingHides == old(pendingHides[1..])
    {
      var k := pendingHides[0];
      if !Matches(filter, categories[k]) {
        displayed := displayed[k := false];
      }
      pendingHides := pendingHides[1..];
    }

    /** Once no hide is pending, exactly the selected items are displayed. */
    lemma SettledShowsExactlySelected()
      requires Valid() && Consistent() && pendingHides == []
      ensures forall k :: 0 <= k < |categories| ==> (displayed[k] <==> Matches(filter, categories[k]))
    {
    }
  }
}
