/**
 * The multi-select list of the export dialog: row 0 is a tri-state "All"
 * check box, rows 1 to count-1 are labelled two-state check boxes. The "All"
 * box follows the items (checked, unchecked or partially checked) and
 * toggling it sets every item.
 *
 * The widget toolkit is abstract. What the model keeps of it is the rule
 * that a check box reports a state change (and so runs its handler) only
 * when its state really changes, and that a handler attached to a box whose
 * signals are blocked does not run.
 */
module MultiSelect {

  datatype CheckState = Unchecked | PartiallyChecked | Checked

  /** `ToggleAllCheckBox.nextCheckState`: what a click on the "All" box makes of its state. */
  function NextCheckState(state: CheckState): (next: CheckState)
    ensures next != PartiallyChecked
    ensures next == Checked <==> state != Checked
  {
    match state
    case Unchecked | PartiallyChecked => Checked
    case Checked => Unchecked
  }

  /** The state a two-state box shows for `checked`. */
  function StateOf(checked: bool): CheckState {
    if checked then Checked else Unchecked
  }

  /** One item row: the text of its box and whether the box is checked. */
  datatype Item = Item(text: string, checked: bool)

  /** The number of checked items. */
  function CheckedCount(items: seq<Item>): (n: nat)
    ensures n <= |items|
  {
    if items == [] then 0
    else CheckedCount(items[..|items| - 1]) + if items[|items| - 1].checked then 1 else 0
  }

  /** No item is checked exactly when the count is 0, every item exactly when it is the number of items. */
  lemma {:induction false} CheckedCountExtremes(items: seq<Item>)
    ensures CheckedCount(items) == 0 <==> forall i :: 0 <= i < |items| ==> !items[i].checked
    ensures CheckedCount(items) == |items| <==> forall i :: 0 <= i < |items| ==> items[i].checked
  {
    if items != [] {
      var init := items[..|items| - 1];
      CheckedCountExtremes(init);
      assert forall i :: 0 <= i < |init| ==> init[i] == items[i];
    }
  }

  /** The state the item handler gives the "All" box, from the count of checked items. */
  function Aggregate(items: seq<Item>): CheckState {
    var n := CheckedCount(items);
    if n == 0 then Unchecked else if n == |items| then Checked else PartiallyChecked
  }

  /**
   * The "All" state the items call for: unchecked when no item is checked
   * (with no items too), checked when there are items and all are checked,
   * partially checked when some are and some are not.
   */
  lemma AggregateMeaning(items: seq<Item>)
    ensures Aggregate(items) == Unchecked <==> forall i :: 0 <= i < |items| ==> !items[i].checked
    ensures Aggregate(items) == Checked <==> items != [] && forall i :: 0 <= i < |items| ==> items[i].checked
    ensures Aggregate(items) == PartiallyChecked <==>
      (exists i :: 0 <= i < |items| && items[i].checked) && (exists i :: 0 <= i < |items| && !items[i].checked)
  {
    CheckedCountExtremes(items);
  }

  /** The items with every box set to `checked`, labels kept. */
  function WithAll(items: seq<Item>, checked: bool): (r: seq<Item>)
    ensures |r| == |items|
    ensures forall i :: 0 <= i < |items| ==> r[i] == Item(items[i].text, checked)
  {
    seq(|items|, i requires 0 <= i < |items| => Item(items[i].text, checked))
  }

  /** Setting every item leaves the "All" state the items call for equal to that setting (when there are items). */
  lemma AggregateWithAll(items: seq<Item>, checked: bool)
    ensures Aggregate(WithAll(items, checked)) == if checked && items != [] then Checked else Unchecked
  {
    AggregateMeaning(WithAll(items, checked));
  }

  /** When the "All" state already agrees with a setting, setting every item changes nothing. */
  lemma WithAllAgreeing(items: seq<Item>, checked: bool)
    requires Aggregate(items) == StateOf(checked) || items == []
    ensures WithAll(items, checked) == items
  {
    AggregateMeaning(items);
  }

  /** The labels of the checked items, in row order. */
  function CheckedLabels(items: seq<Item>): (labels: seq<string>)
    ensures |labels| == CheckedCount(items)
  {
    if items == [] then []
    else CheckedLabels(items[..|items| - 1]) + if items[|items| - 1].checked then [items[|items| - 1].text] else []
  }

  /** A label is selected exactly when some checked item carries it. */
  lemma {:induction false} CheckedLabelsMembership(items: seq<Item>)
    ensures forall x :: x in CheckedLabels(items) <==> exists i :: 0 <= i < |items| && items[i].checked && items[i].text == x
  {
    if items != [] {
      var init := items[..|items| - 1];
      CheckedLabelsMembership(init);
      assert forall i :: 0 <= i < |init| ==> init[i] == items[i];
    }
  }

  /** The texts of all items, in row order. */
  function Texts(items: seq<Item>): (texts: seq<string>)
    ensures |texts| == |items|
    ensures forall i :: 0 <= i < |items| ==> texts[i] == items[i].text
  {
    if items == [] then [] else Texts(items[..|items| - 1]) + [items[|items| - 1].text]
  }

  /** With every item checked the selection is every text in row order; with none, it is empty. */
  lemma {:induction false} CheckedLabelsOfWithAll(items: seq<Item>, checked: bool)
    ensures CheckedLabels(WithAll(items, checked)) == if checked then Texts(items) else []
  {
    if items != [] {
      var init := items[..|items| - 1];
      CheckedLabelsOfWithAll(init, checked);
      assert WithAll(items, checked)[..|items| - 1] == WithAll(init, checked);
    }
  }

  /**
   * The selection as the "All" box shows it: every item's text when the
   * items call for a checked "All" box, nothing when they call for an
   * unchecked one.
   */
  lemma SelectionOfAggregate(items: seq<Item>)
    ensures Aggregate(items) == Checked ==> CheckedLabels(items) == Texts(items)
    ensures Aggregate(items) == Unchecked ==> CheckedLabels(items) == []
  {
    AggregateMeaning(items);
    if Aggregate(items) == Checked {
      WithAllAgreeing(items, true);
      CheckedLabelsOfWithAll(items, true);
    } else if Aggregate(items) == Unchecked {
      WithAllAgreeing(items, false);
      CheckedLabelsOfWithAll(items, false);
    }
  }

  class MultiSelect {
    /** The item rows 1 to count-1, in row order. */
    var items: seq<Item>
    /** The state of the "All" box in row 0. */
    var all: CheckState

    /**
     * The "All" box shows the state its items call for; the one exception is
     * a list with no items whose "All" box has been clicked to checked.
     */
    ghost predicate Valid()
      reads this
    {
      all == Aggregate(items) || (items == [] && all == Checked)
    }

    /** A list holding only the unchecked "All" row. */
    constructor()
      ensures Valid() && items == [] && all == Unchecked
    {
      items := [];
      all := Unchecked;
    }

    /** `count()`: the number of rows, "All" included. */
    function Count(): nat
      reads this
    {
      |items| + 1
    }

    /** `add_item`: a new box, created unchecked and then checked, so that the item handler runs. */
    method AddItem(text: string)
      requires Valid()
      modifies this
      ensures Valid()
      ensures items == old(items) + [Item(text, true)]
      ensures all == Aggregate(items)
    {
      items := items + [Item(text, false)];
      SetItemChecked(|items|, true);
    }

    /** `setChecked` on item row `row`: when the box's state changes, the item handler runs. */
    method SetItemChecked(row: nat, checked: bool)
      requires 1 <= row < Count()
      modifies this
      ensures items == old(items)[row - 1 := Item(old(items)[row - 1].text, checked)]
      ensures old(items)[row - 1].checked != checked ==> all == Aggregate(items)
      ensures old(items)[row - 1].checked == checked ==> all == old(all) && items == old(items)
    {
      if items[row - 1].checked != checked {
        items := items[row - 1 := Item(items[row - 1].text, checked)];
        OnItemStateChanged();
      } else {
        assert items[row - 1] == Item(items[row - 1].text, checked);
      }
    }

    /** `_on_item_state_changed`: counts the checked items and sets the "All" box, its signals blocked. */
    method OnItemStateChanged()
      modifies this
      ensures items == old(items)
      ensures all == Aggregate(items)
    {
      var checkedCount := 0;
      var i := 1;
      while i < Count()
        invariant 1 <= i <= Count()
        invariant checkedCount == CheckedCount(items[..i - 1])
      {
        assert items[..i] == items[..i - 1] + [items[i - 1]];
        if items[i - 1].checked {
          checkedCount := checkedCount + 1;
        }
        i := i + 1;
      }
      assert items[..i - 1] == items;
      if checkedCount == 0 {
        all := Unchecked;
      } else if checkedCount == Count() - 1 {
        all := Checked;
      } else {
        all := PartiallyChecked;
      }
    }

    /**
     * `_on_check_all`: with a partial state nothing happens; otherwise every
     * item box is set to that state with its signals blocked, so the item
     * handler does not run.
     */
    method OnCheckAll(state: CheckState)
      modifies this
      ensures all == old(all)
      ensures items == if state == PartiallyChecked then old(items) else WithAll(old(items), state == Checked)
    {
      if state == PartiallyChecked {
        return;
      }
      var i := 1;
      while i < Count()
        invariant 1 <= i <= Count()
        invariant all == old(all) && |items| == |old(items)|
        invariant forall k :: 0 <= k < i - 1 ==> items[k] == Item(old(items)[k].text, state == Checked)
        invariant forall k :: i - 1 <= k < |items| ==> items[k] == old(items)[k]
      {
        items := items[i - 1 := Item(items[i - 1].text, state == Checked)];
        i := i + 1;
      }
    }

    /** A click on the "All" box: `nextCheckState`, then the "All" handler with the new state. */
    method ClickAll()
      requires Valid()
      modifies this
      ensures Valid()
      ensures all == NextCheckState(old(all))
      ensures items == WithAll(old(items), all == Checked)
    {
      all := NextCheckState(all);
      OnCheckAll(all);
      AggregateWithAll(old(items), all == Checked);
    }

    /** A click on item row `row`: its box toggles and the item handler runs. */
    method ClickItem(row: nat)
      requires Valid()
      requires 1 <= row < Count()
      modifies this
      ensures Valid()
      ensures items == old(items)[row - 1 := Item(old(items)[row - 1].text, !old(items)[row - 1].checked)]
      ensures all == Aggregate(items)
    {
      SetItemChecked(row, !items[row - 1].checked);
    }

    /**
     * `set_checked(row, checked)`. On an item row only that row changes and
     * the "All" box follows; on row 0 the "All" box takes the state and, when
     * that is a change, its handler sets every item to it.
     */
    method SetChecked(row: nat, checked: bool)
      requires Valid()
      requires row < Count()
      modifies this
      ensures Valid()
      ensures row == 0 ==> all == StateOf(checked) && items == WithAll(old(items), checked)
      ensures row > 0 ==> items == old(items)[row - 1 := Item(old(items)[row - 1].text, checked)] && all == Aggregate(items)
    {
      if row == 0 {
        if all != StateOf(checked) {
          all := StateOf(checked);
          OnCheckAll(all);
          AggregateWithAll(old(items), checked);
        } else {
          WithAllAgreeing(items, checked);
        }
      } else {
        SetItemChecked(row, checked);
      }
    }

    /** `label(row)`: the text of the row's box, "All" for row 0. */
    method Label(row: nat) returns (text: string)
      requires row < Count()
      ensures text == if row == 0 then "All" else items[row - 1].text
    {
      if row == 0 {
        text := "All";
      } else {
        text := items[row - 1].text;
      }
    }

    /** `selected_labels`: the labels of the checked item rows, in row order; row 0 is never among them. */
    method SelectedLabels() returns (labels: seq<string>)
      ensures labels == CheckedLabels(items)
    {
      labels := [];
      var i := 1;
      while i < Count()
        invariant 1 <= i <= Count()
        invariant labels == CheckedLabels(items[..i - 1])
      {
        assert items[..i] == items[..i - 1] + [items[i - 1]];
        assert items[..i][..i - 1] == items[..i - 1];
        if items[i - 1].checked {
          labels := labels + [items[i - 1].text];
        }
        i := i + 1;
      }
      assert items[..i - 1] == items;
    }
  }

  /**
   * Two added items start checked with "All" checked; unchecking the first
   * leaves "All" partially checked and only the second selected; clicking
   * "All" then checks everything again.
   */
  method TwoItemsScenario() returns (afterToggle: seq<string>, allAfterToggle: CheckState, afterAll: seq<string>)
    ensures afterToggle == ["b"] && allAfterToggle == PartiallyChecked
    ensures afterAll == ["a", "b"]
  {
    var list := new MultiSelect();
    list.AddItem("a");
    list.AddItem("b");
    assert list.items == [Item("a", true), Item("b", true)];
    list.ClickItem(1);
    assert list.items == [Item("a", false), Item("b", true)];
    afterToggle := list.SelectedLabels();
    allAfterToggle := list.all;
    list.ClickAll();
    assert list.items == [Item("a", true), Item("b", true)];
    afterAll := list.SelectedLabels();
  }
}
