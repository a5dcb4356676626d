/** The address step of the add-space wizard: a list of candidate businesses,
    at most one of them selected. */
module AddressStep {
  import opened Wrappers

  /** Clicking card `index`: the selected card is deselected, any other becomes the only selection. */
  function Toggled(selected: Option<int>, index: int): (r: Option<int>)
    ensures selected == Some(index) ==> r.None?
    ensures selected != Some(index) ==> r == Some(index)
  {
    if selected == Some(index) then None else Some(index)
  }

  predicate Checked(selected: Option<int>, index: int) {
    selected == Some(index)
  }

  /** Next stays disabled while nothing is selected. */
  predicate NextDisabled(selected: Option<int>) {
    selected.None?
  }

  /** After a click, the clicked card is the only checked one, or none is. */
  lemma ClickChecksAtMostClicked(selected: Option<int>, index: int, other: int)
    ensures Checked(Toggled(selected, index), other) ==> other == index
    ensures Checked(Toggled(selected, index), index) <==> !Checked(selected, index)
    ensures NextDisabled(Toggled(selected, index)) <==> Checked(selected, index)
  {
  }

  /** Two clicks on the same card leave it checked if it was, and otherwise leave nothing selected. */
  lemma ClickTwice(selected: Option<int>, index: int)
    ensures Toggled(Toggled(selected, index), index) == if selected == Some(index) then selected else None
  {
  }

  class AddressPicker {
    var selected: Option<int>

    constructor ()
      ensures selected.None? && NextDisabled(selected)
    {
      selected := None;
    }

    predicate IsChecked(index: int)
      reads this
    {
      Checked(selected, index)
    }

    method OnCheck(index: int)
      modifies this
      ensures selected == Toggled(old(selected), index)
      ensures forall i :: IsChecked(i) ==> i == index
    {
      if selected == Some(index) {
        selected := None;
      } else {
        selected := Some(index);
      }
    }
  }
}
