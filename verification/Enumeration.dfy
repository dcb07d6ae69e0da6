/**
 * The MTD table and its enumeration: which devices a filter selects, how the
 * walk visits them, and what taking and dropping references does.
 */
module Enumeration {
  import opened Kernel

  datatype MtdType = NorFlash | NandFlash | MlcNandFlash | OtherType

  datatype Mtd = Mtd(isPartition: bool, kind: MtdType)

  /** The MTD table by device number; a hole is a number with no device. */
  type Slots = seq<Option<Mtd>>

  datatype Filter = All | Nand | Nor

  /** The filter tests as the walk makes them; the NAND one accepts NOR flash and rejects plain NAND. */
  predicate Matches(f: Filter, m: Mtd) {
    && !m.isPartition
    && match f
       case All => true
       case Nor => m.kind.NorFlash?
       case Nand => m.kind.NorFlash? || m.kind.MlcNandFlash?
  }

  /** What the filters' names say. */
  predicate Wanted(f: Filter, m: Mtd) {
    && !m.isPartition
    && match f
       case All => true
       case Nor => m.kind.NorFlash?
       case Nand => m.kind.NandFlash? || m.kind.MlcNandFlash?
  }

  /** __mtd_next_device: the first device numbered `from` or higher. */
  function Next(slots: Slots, from: nat): (r: Option<nat>)
    ensures r.Some? ==> from <= r.value < |slots| && slots[r.value].Some?
    decreases |slots| - from
  {
    if from >= |slots| then None
    else if slots[from].Some? then Some(from)
    else Next(slots, from + 1)
  }

  /** Nothing is skipped: the numbers before the device found, or all of them, are holes. */
  lemma {:induction false} NextMeaning(slots: Slots, from: nat)
    ensures forall k :: from <= k < |slots| && (Next(slots, from).Some? ==> k < Next(slots, from).value) ==> slots[k].None?
    decreases |slots| - from
  {
    if from < |slots| && slots[from].None? {
      NextMeaning(slots, from + 1);
    }
  }

  predicate Selected(slots: Slots, f: Filter, i: nat) {
    i < |slots| && slots[i].Some? && Matches(f, slots[i].value)
  }

  /** The numbers of the selected devices below `end`, in increasing order. */
  function Selection(slots: Slots, f: Filter, end: nat): (r: seq<nat>)
    requires end <= |slots|
  {
    if end == 0 then [] else
    Selection(slots, f, end - 1) + if Selected(slots, f, end - 1) then [end - 1] else []
  }

  /** The selection is the increasing sequence of exactly the selected devices. */
  lemma {:induction false} SelectionMeaning(slots: Slots, f: Filter, end: nat)
    requires end <= |slots|
    ensures var r := Selection(slots, f, end);
            && (forall i, j :: 0 <= i < j < |r| ==> r[i] < r[j])
            && (forall i: nat :: i in r <==> i < end && Selected(slots, f, i))
  {
    if end > 0 {
      SelectionMeaning(slots, f, end - 1);
      var init := Selection(slots, f, end - 1);
      assert forall i :: 0 <= i < |init| ==> init[i] in init;
    }
  }

  lemma SelectionInRange(slots: Slots, f: Filter, sel: seq<nat>)
    requires sel == Selection(slots, f, |slots|)
    ensures forall k :: 0 <= k < |sel| ==> sel[k] < |slots|
  {
    SelectionMeaning(slots, f, |slots|);
    assert forall k :: 0 <= k < |sel| ==> sel[k] in sel;
  }

  /** Slots with no selected device add nothing to the selection. */
  lemma {:induction false} SelectionSkips(slots: Slots, f: Filter, from: nat, end: nat)
    requires from <= end <= |slots|
    requires forall k :: from <= k < end ==> !Selected(slots, f, k)
    ensures Selection(slots, f, from) == Selection(slots, f, end)
    decreases end
  {
    if end > from {
      SelectionSkips(slots, f, from, end - 1);
    }
  }

  lemma {:induction false} SelectionGrows(slots: Slots, f: Filter, from: nat, end: nat)
    requires from <= end <= |slots|
    ensures Selection(slots, f, from) <= Selection(slots, f, end)
    decreases end
  {
    if end > from {
      SelectionGrows(slots, f, from, end - 1);
    }
  }

  /** One step of the walk: the device found next is the next of the selection, if it is selected at all. */
  lemma WalkStep(slots: Slots, f: Filter, from: nat, found: nat)
    requires Next(slots, from) == Some(found)
    requires from <= |slots|
    ensures var done, sel := Selection(slots, f, from), Selection(slots, f, |slots|);
            var after := Selection(slots, f, found + 1);
            && done <= after <= sel
            && (if Selected(slots, f, found) then |after| == |done| + 1 && sel[|done|] == found else after == done)
  {
    NextMeaning(slots, from);
    SelectionSkips(slots, f, from, found);
    SelectionGrows(slots, f, found + 1, |slots|);
  }

  lemma WalkEnd(slots: Slots, f: Filter, from: nat)
    requires Next(slots, from) == None && from <= |slots|
    ensures Selection(slots, f, from) == Selection(slots, f, |slots|)
  {
    NextMeaning(slots, from);
    SelectionSkips(slots, f, from, |slots|);
  }

  /** The devices the filter's name asks for, in increasing order. */
  function Asked(slots: Slots, f: Filter, end: nat): seq<nat>
    requires end <= |slots|
  {
    if end == 0 then [] else
    Asked(slots, f, end - 1) +
    if slots[end - 1].Some? && Wanted(f, slots[end - 1].value) then [end - 1] else []
  }

  lemma {:induction false} AskedMeaning(slots: Slots, f: Filter, end: nat)
    requires end <= |slots|
    ensures forall i: nat :: i in Asked(slots, f, end) <==> i < end && slots[i].Some? && Wanted(f, slots[i].value)
  {
    if end > 0 {
      AskedMeaning(slots, f, end - 1);
    }
  }

  predicate Misfiled(m: Option<Mtd>) {
    m.Some? && !m.value.isPartition && (m.value.kind.NorFlash? || m.value.kind.NandFlash?)
  }

  lemma {:induction false} NothingMisfiled(slots: Slots, f: Filter, end: nat)
    requires end <= |slots|
    requires f.Nand? ==> forall i :: 0 <= i < |slots| ==> !Misfiled(slots[i])
    ensures Selection(slots, f, end) == Asked(slots, f, end)
  {
    if end > 0 {
      NothingMisfiled(slots, f, end - 1);
    }
  }

  /**
   * The walk selects what the filter's name asks for, unless the filter is NAND
   * and some master device is NOR (taken) or plain NAND (left out); then it
   * does not.
   */
  lemma FilterMeaning(slots: Slots, f: Filter)
    ensures Selection(slots, f, |slots|) == Asked(slots, f, |slots|) <==>
            (f.Nand? ==> forall i :: 0 <= i < |slots| ==> !Misfiled(slots[i]))
  {
    if f.Nand? && exists i :: 0 <= i < |slots| && Misfiled(slots[i]) {
      var i: nat :| i < |slots| && Misfiled(slots[i]);
      SelectionMeaning(slots, f, |slots|);
      AskedMeaning(slots, f, |slots|);
      assert i in Selection(slots, f, |slots|) <==> i !in Asked(slots, f, |slots|);
    } else {
      NothingMisfiled(slots, f, |slots|);
    }
  }

  /** A single NOR device is taken by the NAND filter, a single plain NAND device is not. */
  lemma NandFilterFails()
    ensures Selection([Some(Mtd(false, NorFlash))], Nand, 1) == [0] != Asked([Some(Mtd(false, NorFlash))], Nand, 1)
    ensures Selection([Some(Mtd(false, NandFlash))], Nand, 1) == [] != Asked([Some(Mtd(false, NandFlash))], Nand, 1)
  {
    var nor, nand := [Some(Mtd(false, NorFlash))], [Some(Mtd(false, NandFlash))];
    assert Selection(nor, Nand, 0) == [] == Asked(nor, Nand, 0);
    assert Selection(nand, Nand, 0) == [] == Asked(nand, Nand, 0);
  }

  // ----- references -----

  function Occurrences(ids: seq<nat>, i: nat): nat {
    multiset(ids)[i]
  }

  /** Every device's count moved by `delta` once for each time it is listed. */
  function Shift(refs: seq<int>, ids: seq<nat>, delta: int): (r: seq<int>)
    ensures |r| == |refs|
  {
    seq(|refs|, i requires 0 <= i < |refs| => refs[i] + delta * Occurrences(ids, i))
  }

  /** Dropping what was taken, once each, restores every count. */
  lemma ShiftBack(refs: seq<int>, ids: seq<nat>)
    ensures Shift(Shift(refs, ids, 1), ids, -1) == refs
  {
  }

  lemma ShiftNone(refs: seq<int>, ids: seq<nat>, delta: int)
    ensures Shift(refs, ids[..0], delta) == refs
  {
  }

  /** Taking one more reference. */
  lemma ShiftStep(refs: seq<int>, ids: seq<nat>, k: nat, delta: int)
    requires k < |ids| && ids[k] < |refs|
    ensures Shift(refs, ids[..k + 1], delta) ==
            Shift(refs, ids[..k], delta)[ids[k] := Shift(refs, ids[..k], delta)[ids[k]] + delta]
  {
    assert ids[..k + 1] == ids[..k] + [ids[k]];
    assert multiset(ids[..k + 1]) == multiset(ids[..k]) + multiset{ids[k]};
    var a, b := Shift(refs, ids[..k + 1], delta), Shift(refs, ids[..k], delta);
    forall i | 0 <= i < |refs|
      ensures a[i] == if i == ids[k] then b[i] + delta else b[i]
    {
      var n := Occurrences(ids[..k], i);
      assert delta * (n + 1) == delta * n + delta;
    }
  }
}
