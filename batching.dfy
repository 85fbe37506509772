/** Groups of ten: the bulk operations (attendance for many workers, deleting
    many workers) cut their input into consecutive groups of at most ten and
    handle one group after the other. */
module Batching {

  /** The size of a full group. */
  const GroupSize: nat := 10

  /** The groups laid end to end. */
  function Flatten<T>(groups: seq<seq<T>>): seq<T> {
    if groups == [] then [] else Flatten(groups[..|groups| - 1]) + groups[|groups| - 1]
  }

  /** Laying out one more group appends its items. */
  lemma FlattenAppend<T>(groups: seq<seq<T>>, g: seq<T>)
    ensures Flatten(groups + [g]) == Flatten(groups) + g
  {
    assert (groups + [g])[..|groups|] == groups;
  }

  /** Every item of every group is among the items laid out. */
  lemma {:induction false} FlattenMember<T>(groups: seq<seq<T>>, g: int, i: int)
    requires 0 <= g < |groups| && 0 <= i < |groups[g]|
    ensures groups[g][i] in Flatten(groups)
    decreases |groups|
  {
    var last := |groups| - 1;
    var init := groups[..last];
    assert groups == init + [groups[last]];
    FlattenAppend(init, groups[last]);
    if g < last {
      assert init[g] == groups[g];
      FlattenMember(init, g, i);
    } else {
      assert Flatten(groups)[|Flatten(init)| + i] == groups[g][i];
    }
  }

  /** Laying out two runs of groups one after the other lays out their items
      one after the other. */
  lemma {:induction false} FlattenConcat<T>(a: seq<seq<T>>, b: seq<seq<T>>)
    ensures Flatten(a + b) == Flatten(a) + Flatten(b)
    decreases |b|
  {
    if b != [] {
      var b' := b[..|b| - 1];
      FlattenConcat(a, b');
      assert a + b == (a + b') + [b[|b| - 1]];
      assert b == b' + [b[|b| - 1]];
      FlattenAppend(a + b', b[|b| - 1]);
      FlattenAppend(b', b[|b| - 1]);
    } else {
      assert a + b == a;
    }
  }

  /** Every group holds exactly ten items. */
  predicate FullGroups<T>(groups: seq<seq<T>>) {
    forall j :: 0 <= j < |groups| ==> |groups[j]| == GroupSize
  }

  /** Every group holds one to ten items, and only the last may hold fewer than ten. */
  predicate WellGrouped<T>(groups: seq<seq<T>>) {
    && (forall j :: 0 <= j < |groups| ==> 1 <= |groups[j]| <= GroupSize)
    && (forall j :: 0 <= j < |groups| - 1 ==> |groups[j]| == GroupSize)
  }

  /** Closing a group of one to ten items after full groups keeps the grouping
      well formed, and full when the new group is full. */
  lemma CloseGroup<T>(groups: seq<seq<T>>, g: seq<T>)
    requires FullGroups(groups) && 1 <= |g| <= GroupSize
    ensures WellGrouped(groups + [g])
    ensures |g| == GroupSize ==> FullGroups(groups + [g])
    ensures Flatten(groups + [g]) == Flatten(groups) + g
  {
    FlattenAppend(groups, g);
    assert forall j :: 0 <= j < |groups| ==> (groups + [g])[j] == groups[j];
  }

  /** The temp/batch loop: items are pushed onto temp, and temp is copied into
      a new group whenever it holds ten items or the last item was pushed. */
  method MakeBatches<T>(items: seq<T>) returns (batch: seq<seq<T>>)
    ensures Flatten(batch) == items
    ensures WellGrouped(batch)
  {
    batch := [];
    var temp: seq<T> := [];
    for i := 0 to |items|
      invariant Flatten(batch) + temp == items[..i]
      invariant |temp| < GroupSize
      invariant if i < |items| then FullGroups(batch) else temp == [] && WellGrouped(batch)
    {
      temp := temp + [items[i]];
      assert items[..i + 1] == items[..i] + [items[i]];
      if |temp| == GroupSize || i == |items| - 1 {
        CloseGroup(batch, temp);
        batch := batch + [temp];
        temp := [];
      }
    }
    assert items[..|items|] == items;
  }
}
