/**
 * The "available constraints" menu: each template carries a selected
 * mark (set for separators from the start, set for a constraint once it
 * has been added), and the menu always shows the first template that is
 * not marked (`set_constraint_selected_state`).
 */
module Menu {
  import opened Wrappers
  import opened Catalog

  /** Whether template i is marked in the table's initial state. */
  predicate InitiallySelected(i: nat)
    requires i <= MaximumPossible
  {
    KindAt(i) == Separator
  }

  /**
   * The first template before the end marker that is not marked, None
   * when every one of them is.
   */
  function FirstUnselected(sel: seq<bool>, from: nat): (r: Option<nat>)
    requires |sel| == MaximumPossible + 1 && from <= MaximumPossible
    ensures r.Some? ==> (from <= r.value < MaximumPossible && !sel[r.value]
      && forall j :: from <= j < r.value ==> sel[j])
    ensures r.None? ==> forall j :: from <= j < MaximumPossible ==> sel[j]
    decreases MaximumPossible - from
  {
    if KindAt(from) == End then None
    else if !sel[from] then Some(from)
    else FirstUnselected(sel, from + 1)
  }

  /** Every separator carries its mark. */
  predicate SeparatorsMarked(sel: seq<bool>)
    requires |sel| == MaximumPossible + 1
  {
    forall i :: 0 <= i <= MaximumPossible && KindAt(i) == Separator ==> sel[i]
  }

  /** The menu is active on a selectable constraint, never on a separator. */
  lemma ActiveIsNeverSeparator(sel: seq<bool>)
    requires |sel| == MaximumPossible + 1 && SeparatorsMarked(sel)
    ensures var r := FirstUnselected(sel, 0); r.Some? ==> KindAt(r.value) != Separator && KindAt(r.value) != End
  {
  }

  /** A constraint just added is never the one the menu then offers. */
  lemma AddedIsNotOffered(sel: seq<bool>, id: ConstraintId)
    requires |sel| == MaximumPossible + 1
    ensures FirstUnselected(sel[id := true], 0) != Some(id)
  {
  }

  /**
   * Once every constraint is added, nothing is offered; while one is
   * missing, some constraint is.
   */
  lemma AllAddedDisablesMenu(sel: seq<bool>)
    requires |sel| == MaximumPossible + 1
    ensures FirstUnselected(sel, 0).None? <==> forall j :: 0 <= j < MaximumPossible ==> sel[j]
  {
  }

  /** Marking keeps the separators marked, unless a separator is unmarked. */
  lemma MarkingKeepsSeparators(sel: seq<bool>, id: nat, state: bool)
    requires |sel| == MaximumPossible + 1 && SeparatorsMarked(sel) && id <= MaximumPossible
    requires state || KindAt(id) != Separator
    ensures SeparatorsMarked(sel[id := state])
  {
  }

  class ConstraintMenu {
    /** The `is_selected` marks of the template table, end marker included. */
    var isSelected: array<bool>
    /** The index the menu shows. */
    var active: nat
    /** Whether the add button, the menu and its label are sensitive. */
    var sensitive: bool

    predicate Valid()
      reads this
    {
      isSelected.Length == MaximumPossible + 1
    }

    /** The marks of the table as written, the first entry shown. */
    constructor ()
      ensures Valid() && fresh(isSelected) && active == 0 && sensitive
      ensures forall i :: 0 <= i <= MaximumPossible ==> isSelected[i] == InitiallySelected(i)
      ensures SeparatorsMarked(isSelected[..])
    {
      isSelected := new bool[MaximumPossible + 1](i requires 0 <= i <= MaximumPossible => InitiallySelected(i));
      active := 0;
      sensitive := true;
    }

    /** `set_constraint_selected_state (constraint_id, state)`. */
    method SetConstraintSelectedState(id: nat, state: bool)
      requires Valid() && id <= MaximumPossible
      modifies this, isSelected
      ensures Valid() && isSelected == old(isSelected)
      ensures isSelected[..] == old(isSelected[..])[id := state]
      ensures var first := FirstUnselected(isSelected[..], 0);
        if first.Some? then active == first.value && sensitive
        else active == old(active) && !sensitive
    {
      isSelected[id] := state;
      var index := 0;
      while KindAt(index) != End
        invariant 0 <= index <= MaximumPossible
        invariant FirstUnselected(isSelected[..], index) == FirstUnselected(isSelected[..], 0)
        invariant active == old(active) && isSelected[..] == old(isSelected[..])[id := state]
        decreases MaximumPossible - index
      {
        if !isSelected[index] {
          active := index;
          sensitive := true;
          return;
        }
        index := index + 1;
      }
      sensitive := false;
    }
  }
}
