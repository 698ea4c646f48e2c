/** The `expandedSections` state of the Results card: one flag per
    collapsible panel, flipped by `toggleSection`. */
module Expansion {

  /** The panels that start out in the state map. */
  const InitialKeys: set<string> := {"comprehensive", "ats", "gaps", "sections", "industry"}

  /** The state `useState` starts with: the five panels, all expanded. */
  function Initial(): (m: map<string, bool>)
    ensures m.Keys == InitialKeys
    ensures forall k :: k in m ==> m[k]
  {
    map["comprehensive" := true, "ats" := true, "gaps" := true, "sections" := true, "industry" := true]
  }

  /** Reading `expandedSections[key]`: a key that is not in the map reads as
      `undefined`, which is falsy, so its panel is collapsed. */
  predicate IsExpanded(m: map<string, bool>, key: string) {
    key in m && m[key]
  }

  /** `{...prev, [key]: !prev[key]}`: the entry for `key` is negated (a missing
      entry becomes `true`) and every other entry keeps its value. */
  function Toggled(m: map<string, bool>, key: string): (m': map<string, bool>)
    ensures m'.Keys == m.Keys + {key}
    ensures IsExpanded(m', key) == !IsExpanded(m, key)
    ensures forall k :: k in m && k != key ==> m'[k] == m[k]
  {
    m[key := !IsExpanded(m, key)]
  }

  /** Toggling a panel never opens or closes another one. */
  lemma ToggleIsolated(m: map<string, bool>, key: string, other: string)
    requires other != key
    ensures IsExpanded(Toggled(m, key), other) == IsExpanded(m, other)
  {
  }

  /** Toggling a key that is in the map twice restores the map. */
  lemma ToggleTwice(m: map<string, bool>, key: string)
    requires key in m
    ensures Toggled(Toggled(m, key), key) == m
  {
  }

  /** Toggling twice restores the visible state of every panel, including
      keys that were missing; a missing key is then present with `false`. */
  lemma ToggleTwiceVisible(m: map<string, bool>, key: string, k: string)
    ensures IsExpanded(Toggled(Toggled(m, key), key), k) == IsExpanded(m, k)
    ensures key !in m ==> Toggled(Toggled(m, key), key) == m[key := false]
  {
  }

  /** From the initial state, toggling a panel once collapses it, twice
      expands it again. */
  lemma InitialToggle(key: string)
    requires key in InitialKeys
    ensures !IsExpanded(Toggled(Initial(), key), key)
    ensures Toggled(Toggled(Initial(), key), key) == Initial()
  {
    ToggleTwice(Initial(), key);
  }

  /** The component's state slot. */
  class ExpandedSections {
    var flags: map<string, bool>

    constructor ()
      ensures flags == Initial()
    {
      flags := Initial();
    }

    /** Whether the panel for `key` shows its body. */
    function IsOpen(key: string): bool
      reads this
    {
      IsExpanded(flags, key)
    }

    /** `toggleSection(key)`. */
    method Toggle(key: string)
      modifies this
      ensures flags == Toggled(old(flags), key)
      ensures IsOpen(key) == !old(IsOpen(key))
      ensures forall k :: k != key ==> IsOpen(k) == old(IsOpen(k))
    {
      flags := flags[key := !IsExpanded(flags, key)];
    }
  }
}
