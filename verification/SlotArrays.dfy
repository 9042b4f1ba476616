/** The shifts by which both ladders make room for a level and close the gap of one. */
module SlotArrays {
  import opened Ladder

  /** The shift of `insert...Depth`: everything moves back one slot from `pos` and the last slot is lost. */
  method ShiftIn(a: array<Depth>, pos: nat, d: Depth)
    requires pos < a.Length
    modifies a
    ensures a[..] == old(a[..pos] + [d] + a[pos..a.Length - 1])
  {
    var i := a.Length - 1;
    while i > pos
      invariant pos <= i < a.Length
      invariant forall k :: 0 <= k <= i ==> a[k] == old(a[k])
      invariant forall k :: i < k < a.Length ==> a[k] == old(a[k - 1])
    {
      a[i] := a[i - 1];
      i := i - 1;
    }
    a[pos] := d;
  }

  /** The shift of `delete...Depth`: the last slot becomes empty. */
  method ShiftOut(a: array<Depth>, pos: nat)
    requires pos < a.Length
    modifies a
    ensures a[..] == old(a[..pos] + a[pos + 1..] + [EMPTY])
  {
    var i := pos;
    while i < a.Length - 1
      invariant pos <= i < a.Length
      invariant forall k :: 0 <= k < pos ==> a[k] == old(a[k])
      invariant forall k :: pos <= k < i ==> a[k] == old(a[k + 1])
      invariant forall k :: i <= k < a.Length ==> a[k] == old(a[k])
    {
      a[i] := a[i + 1];
      i := i + 1;
    }
    a[a.Length - 1] := EMPTY;
  }
}
