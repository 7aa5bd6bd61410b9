/** The per-tick update walks each entity list from its last index down to 0,
    moves the entity, and then either keeps it in place or splices it out
    (dropping it, or -- for crowns -- collecting it). This module specifies that
    walk once for all three lists: `Sweep` gives the kept entities, in list
    order, and the taken ones, in the order the backward walk meets them. */
module Sweeping {

  /** What the walk does with an entity once it has been moved. */
  datatype Fate = Keep | Drop | Take

  datatype Swept<T> = Swept(kept: seq<T>, taken: seq<T>)

  /** The walk over `s[i..]`; `c` is whatever the moves and the decisions depend on
      (a distance, or the player and a distance). */
  function SweepFrom<T, C>(s: seq<T>, i: nat, c: C, move: (T, C) -> T, fate: (T, C) -> Fate): (r: Swept<T>)
    requires i <= |s|
    ensures |r.kept| + |r.taken| <= |s| - i
    decreases |s| - i
  {
    if i == |s| then Swept([], [])
    else
      var rest := SweepFrom(s, i + 1, c, move, fate);
      var m := move(s[i], c);
      match fate(m, c)
      case Keep => Swept([m] + rest.kept, rest.taken)
      case Drop => rest
      case Take => Swept(rest.kept, rest.taken + [m])
  }

  function Sweep<T, C>(s: seq<T>, c: C, move: (T, C) -> T, fate: (T, C) -> Fate): Swept<T>
  {
    SweepFrom(s, 0, c, move, fate)
  }

  /** Every kept entity has fate `Keep` and every taken one fate `Take`. */
  lemma {:induction false} SweepFates<T, C>(s: seq<T>, i: nat, c: C, move: (T, C) -> T, fate: (T, C) -> Fate)
    requires i <= |s|
    ensures forall k :: 0 <= k < |SweepFrom(s, i, c, move, fate).kept| ==>
      fate(SweepFrom(s, i, c, move, fate).kept[k], c) == Keep
    ensures forall k :: 0 <= k < |SweepFrom(s, i, c, move, fate).taken| ==>
      fate(SweepFrom(s, i, c, move, fate).taken[k], c) == Take
    decreases |s| - i
  {
    if i < |s| {
      SweepFates(s, i + 1, c, move, fate);
      var rest := SweepFrom(s, i + 1, c, move, fate);
      var m := move(s[i], c);
      var r := SweepFrom(s, i, c, move, fate);
      assert forall k :: 0 <= k < |rest.kept| ==> fate(rest.kept[k], c) == Keep;
      assert forall k :: 0 <= k < |rest.taken| ==> fate(rest.taken[k], c) == Take;
      if fate(m, c) == Keep {
        assert r.kept == [m] + rest.kept && r.taken == rest.taken;
        assert forall k :: 0 < k < |r.kept| ==> r.kept[k] == rest.kept[k - 1];
      } else if fate(m, c) == Take {
        assert r.kept == rest.kept && r.taken == rest.taken + [m];
      } else {
        assert r == rest;
      }
    }
  }

  /** The indices `j` of `s[i..]`, ascending, whose moved entity meets fate `f`. */
  function Picked<T, C>(s: seq<T>, i: nat, c: C, move: (T, C) -> T, fate: (T, C) -> Fate, f: Fate): (ix: seq<nat>)
    requires i <= |s|
    ensures forall k :: 0 <= k < |ix| ==> i <= ix[k] < |s|
    decreases |s| - i
  {
    if i == |s| then []
    else (if fate(move(s[i], c), c) == f then [i] else []) + Picked(s, i + 1, c, move, fate, f)
  }

  ghost predicate Ascending(ix: seq<nat>)
  {
    forall k, l :: 0 <= k < l < |ix| ==> ix[k] < ix[l]
  }

  /** `Picked` is exactly the set of indices whose entity meets the fate, in order. */
  lemma {:induction false} PickedExactly<T, C>(s: seq<T>, i: nat, c: C, move: (T, C) -> T, fate: (T, C) -> Fate, f: Fate)
    requires i <= |s|
    ensures Ascending(Picked(s, i, c, move, fate, f))
    ensures forall j :: i <= j < |s| ==> (j in Picked(s, i, c, move, fate, f) <==> fate(move(s[j], c), c) == f)
    decreases |s| - i
  {
    if i < |s| {
      PickedExactly(s, i + 1, c, move, fate, f);
    }
  }

  /** The kept entities are, in list order, the moved entities whose fate is `Keep`:
      survivors keep their relative order and each is exactly its moved self. */
  lemma {:induction false} KeptInOrder<T, C>(s: seq<T>, i: nat, c: C, move: (T, C) -> T, fate: (T, C) -> Fate)
    requires i <= |s|
    ensures var ix := Picked(s, i, c, move, fate, Keep);
      var kept := SweepFrom(s, i, c, move, fate).kept;
      |kept| == |ix| &&
      forall k :: 0 <= k < |ix| ==> kept[k] == move(s[ix[k]], c)
    decreases |s| - i
  {
    if i < |s| {
      KeptInOrder(s, i + 1, c, move, fate);
      PickedExactly(s, i + 1, c, move, fate, Keep);
    }
  }

  /** The taken entities are the moved entities whose fate is `Take`, last index first. */
  lemma {:induction false} TakenInReverseOrder<T, C>(s: seq<T>, i: nat, c: C, move: (T, C) -> T, fate: (T, C) -> Fate)
    requires i <= |s|
    ensures var ix := Picked(s, i, c, move, fate, Take);
      var taken := SweepFrom(s, i, c, move, fate).taken;
      |taken| == |ix| &&
      forall k :: 0 <= k < |ix| ==> taken[k] == move(s[ix[|ix| - 1 - k]], c)
    decreases |s| - i
  {
    if i < |s| {
      TakenInReverseOrder(s, i + 1, c, move, fate);
    }
  }

  /** One step of the backward walk on the list being edited: the entity at `i`
      is replaced by its moved self, and possibly spliced out. */
  lemma SpliceStep<T>(s: seq<T>, i: nat, rest: seq<T>, m: T)
    requires i < |s|
    ensures (s[..i + 1] + rest)[i] == s[i]
    ensures (s[..i + 1] + rest)[i := m] == s[..i] + [m] + rest
    ensures (s[..i] + [m] + rest)[..i] + (s[..i] + [m] + rest)[i + 1..] == s[..i] + rest
  {
    assert (s[..i] + [m] + rest)[..i] == s[..i];
    assert (s[..i] + [m] + rest)[i + 1..] == rest;
  }
}
