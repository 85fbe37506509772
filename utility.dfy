/** The window sum of a monthly record's daily entries: the wages and the
    advances of the entries whose day lies in (lastSettlementDate, todayDate].
    Settlement nets these sums against the carried balance. */
module Utility {
  import opened Common

  /** True when entry e falls in the half-open window (from, to]. */
  predicate InWindow(e: DailyRecord, from: int, to: int) {
    from < e.dayDate <= to
  }

  /** Which amount of an entry a sum adds up. */
  datatype Kind = Wages | Advances

  /** The wages of an entry, or its advance (0 when it has none). */
  function AmountOf(e: DailyRecord, kind: Kind): int {
    if kind == Wages then e.wagesOfDay else AdvanceOf(e)
  }

  /** The sum of the kind's amount over the entries of rs in the window
      (from, to], accumulated from the first entry to the last: the window's
      wages, or its advances, where an entry with an empty advance adds none. */
  function Sum(rs: seq<DailyRecord>, from: int, to: int, kind: Kind): int {
    if rs == [] then 0
    else Sum(rs[..|rs| - 1], from, to, kind) + (if InWindow(rs[|rs| - 1], from, to) then AmountOf(rs[|rs| - 1], kind) else 0)
  }

  /** The plain sum of the kind's amount over every entry of rs, whatever its day. */
  function Total(rs: seq<DailyRecord>, kind: Kind): int {
    if rs == [] then 0 else Total(rs[..|rs| - 1], kind) + AmountOf(rs[|rs| - 1], kind)
  }

  /** The entries of rs that lie in (from, to], in their order. */
  function InWindowOnly(rs: seq<DailyRecord>, from: int, to: int): (r: seq<DailyRecord>)
  {
    if rs == [] then []
    else if InWindow(rs[|rs| - 1], from, to) then InWindowOnly(rs[..|rs| - 1], from, to) + [rs[|rs| - 1]]
    else InWindowOnly(rs[..|rs| - 1], from, to)
  }

  /** calculateAmounts: one pass over the entries, adding up the wages and the
      advances of those in (lastSettlementDate, todayDate]. */
  method CalculateAmounts(recordsArray: seq<DailyRecord>, lastSettlementDate: int, todayDate: int)
    returns (currentWages: int, currentAdvance: int)
    ensures currentWages == Sum(recordsArray, lastSettlementDate, todayDate, Wages)
    ensures currentAdvance == Sum(recordsArray, lastSettlementDate, todayDate, Advances)
  {
    currentWages, currentAdvance := 0, 0;
    for i := 0 to |recordsArray|
      invariant currentWages == Sum(recordsArray[..i], lastSettlementDate, todayDate, Wages)
      invariant currentAdvance == Sum(recordsArray[..i], lastSettlementDate, todayDate, Advances)
    {
      var record := recordsArray[i];
      assert recordsArray[..i + 1][..i] == recordsArray[..i];
      if record.dayDate > lastSettlementDate && record.dayDate <= todayDate {
        currentWages := currentWages + record.wagesOfDay;
        if record.advance.Some? {
          currentAdvance := currentAdvance + record.advance.value.amount;
        }
      }
    }
    assert recordsArray[..|recordsArray|] == recordsArray;
  }

  /** The window sum is the plain sum of exactly the entries in the window. */
  lemma {:induction false} SumIsTotalOfWindowEntries(rs: seq<DailyRecord>, from: int, to: int, kind: Kind)
    ensures Sum(rs, from, to, kind) == Total(InWindowOnly(rs, from, to), kind)
  {
    if rs != [] {
      var init, last := rs[..|rs| - 1], rs[|rs| - 1];
      SumIsTotalOfWindowEntries(init, from, to, kind);
      if InWindow(last, from, to) {
        var f := InWindowOnly(init, from, to) + [last];
        assert f[..|f| - 1] == InWindowOnly(init, from, to);
      }
    }
  }

  /** The window's entries are exactly the entries of rs whose day is in (from, to]. */
  lemma {:induction false} InWindowOnlyMembers(rs: seq<DailyRecord>, from: int, to: int)
    ensures forall e :: e in InWindowOnly(rs, from, to) <==> e in rs && InWindow(e, from, to)
  {
    if rs != [] {
      var init := rs[..|rs| - 1];
      InWindowOnlyMembers(init, from, to);
      assert rs == init + [rs[|rs| - 1]];
    }
  }

  /** An empty window, to <= from, sums to zero whatever the entries. */
  lemma {:induction false} EmptyWindow(rs: seq<DailyRecord>, from: int, to: int, kind: Kind)
    requires to <= from
    ensures Sum(rs, from, to, kind) == 0
  {
    if rs != [] {
      EmptyWindow(rs[..|rs| - 1], from, to, kind);
    }
  }

  /** Adjacent windows add up: (a, c] is (a, b] followed by (b, c]. */
  lemma {:induction false} WindowSplit(rs: seq<DailyRecord>, a: int, b: int, c: int, kind: Kind)
    requires a <= b <= c
    ensures Sum(rs, a, c, kind) == Sum(rs, a, b, kind) + Sum(rs, b, c, kind)
  {
    if rs != [] {
      WindowSplit(rs[..|rs| - 1], a, b, c, kind);
    }
  }

  /** The sum over a concatenation is the sum of the parts. */
  lemma {:induction false} SumConcat(xs: seq<DailyRecord>, ys: seq<DailyRecord>, from: int, to: int, kind: Kind)
    ensures Sum(xs + ys, from, to, kind) == Sum(xs, from, to, kind) + Sum(ys, from, to, kind)
  {
    if ys != [] {
      var zs := xs + ys;
      assert zs[..|zs| - 1] == xs + ys[..|ys| - 1];
      assert zs[|zs| - 1] == ys[|ys| - 1];
      SumConcat(xs, ys[..|ys| - 1], from, to, kind);
    } else {
      assert xs + ys == xs;
    }
  }

  /** The sum over a single entry is that entry's amount when it is in the window. */
  lemma SumSingle(e: DailyRecord, from: int, to: int, kind: Kind)
    ensures Sum([e], from, to, kind) == if InWindow(e, from, to) then AmountOf(e, kind) else 0
  {
    assert [e][..0] == [];
  }

  /** Taking one entry out of the middle removes its amount from the sum. */
  lemma SumWithout(left: seq<DailyRecord>, e: DailyRecord, right: seq<DailyRecord>, from: int, to: int, kind: Kind)
    ensures Sum(left + [e] + right, from, to, kind)
         == Sum(left + right, from, to, kind) + (if InWindow(e, from, to) then AmountOf(e, kind) else 0)
  {
    SumConcat(left + [e], right, from, to, kind);
    SumConcat(left, [e], from, to, kind);
    SumConcat(left, right, from, to, kind);
    SumSingle(e, from, to, kind);
  }

  /** Cancelling the same entry on both sides of a permutation leaves a permutation. */
  lemma CancelEntry(xs: seq<DailyRecord>, ys: seq<DailyRecord>, k: nat)
    requires multiset(xs) == multiset(ys) && xs != [] && k < |ys| && ys[k] == xs[|xs| - 1]
    ensures multiset(xs[..|xs| - 1]) == multiset(ys[..k] + ys[k + 1..])
  {
    var e := ys[k];
    assert xs == xs[..|xs| - 1] + [e];
    assert ys == ys[..k] + [e] + ys[k + 1..];
    calc {
      multiset(xs[..|xs| - 1]);
      multiset(xs) - multiset{e};
      multiset(ys) - multiset{e};
      multiset(ys[..k]) + multiset(ys[k + 1..]);
      multiset(ys[..k] + ys[k + 1..]);
    }
  }

  /** The sum does not depend on the order of the entries. */
  lemma {:induction false} SumPermutation(xs: seq<DailyRecord>, ys: seq<DailyRecord>, from: int, to: int, kind: Kind)
    requires multiset(xs) == multiset(ys)
    ensures Sum(xs, from, to, kind) == Sum(ys, from, to, kind)
    decreases |xs|
  {
    if xs == [] {
      assert |ys| == |multiset(ys)| == 0;
    } else {
      var e := xs[|xs| - 1];
      assert e in multiset(ys);
      var k :| 0 <= k < |ys| && ys[k] == e;
      CancelEntry(xs, ys, k);
      SumPermutation(xs[..|xs| - 1], ys[..k] + ys[k + 1..], from, to, kind);
      assert ys == ys[..k] + [e] + ys[k + 1..];
      SumWithout(ys[..k], e, ys[k + 1..], from, to, kind);
    }
  }

  /** An advance counts only for an entry that has one: entries without an
      advance leave the advance sum at zero. */
  lemma {:induction false} NoAdvanceNoAdvanceSum(rs: seq<DailyRecord>, from: int, to: int)
    requires forall i :: 0 <= i < |rs| ==> rs[i].advance.None?
    ensures Sum(rs, from, to, Advances) == 0
  {
    if rs != [] {
      NoAdvanceNoAdvanceSum(rs[..|rs| - 1], from, to);
    }
  }

  // ---- Day lookup over the entries of a record

  /** At most one entry per day. */
  ghost predicate DaysUnique(rs: seq<DailyRecord>) {
    forall i, j :: 0 <= i < j < |rs| ==> rs[i].dayDate != rs[j].dayDate
  }

  /** Whether some entry is for day d (the findIndex !== -1 test). */
  predicate HasDay(rs: seq<DailyRecord>, d: int) {
    exists i :: 0 <= i < |rs| && rs[i].dayDate == d
  }

  /** The index of the first entry for day d (the find call). */
  function FindDay(rs: seq<DailyRecord>, d: int): (k: nat)
    requires HasDay(rs, d)
    ensures k < |rs| && rs[k].dayDate == d
    ensures forall i :: 0 <= i < k ==> rs[i].dayDate != d
  {
    if rs[0].dayDate == d then 0
    else
      assert HasDay(rs[1..], d) by {
        var i :| 0 <= i < |rs| && rs[i].dayDate == d;
        assert rs[1..][i - 1] == rs[i];
      }
      1 + FindDay(rs[1..], d)
  }

  /** The entries that are not for day d, in their order (the filter call). */
  function WithoutDay(rs: seq<DailyRecord>, d: int): (r: seq<DailyRecord>)
  {
    if rs == [] then []
    else if rs[|rs| - 1].dayDate == d then WithoutDay(rs[..|rs| - 1], d)
    else WithoutDay(rs[..|rs| - 1], d) + [rs[|rs| - 1]]
  }

  /** With days unique, filtering out the day of entry k drops exactly that
      entry and keeps the others in order. */
  lemma {:induction false} WithoutDayDropsOne(rs: seq<DailyRecord>, k: nat)
    requires DaysUnique(rs) && k < |rs|
    ensures WithoutDay(rs, rs[k].dayDate) == rs[..k] + rs[k + 1..]
  {
    var d := rs[k].dayDate;
    var init, last := rs[..|rs| - 1], rs[|rs| - 1];
    if k == |rs| - 1 {
      WithoutOtherDays(init, d);
      assert rs[..k] + rs[k + 1..] == init;
    } else {
      assert init[k] == rs[k];
      WithoutDayDropsOne(init, k);
      assert rs[..k] + rs[k + 1..] == (init[..k] + init[k + 1..]) + [last];
    }
  }

  /** Removing the one entry for day d removes exactly its amount from the
      sum and shortens the list by one. */
  lemma RemoveDay(rs: seq<DailyRecord>, k: nat, from: int, to: int, kind: Kind)
    requires DaysUnique(rs) && k < |rs|
    ensures |WithoutDay(rs, rs[k].dayDate)| == |rs| - 1
    ensures Sum(rs, from, to, kind)
         == Sum(WithoutDay(rs, rs[k].dayDate), from, to, kind) + (if InWindow(rs[k], from, to) then AmountOf(rs[k], kind) else 0)
  {
    WithoutDayDropsOne(rs, k);
    var left, right := rs[..k], rs[k + 1..];
    assert rs == left + [rs[k]] + right;
    SumConcat(left + [rs[k]], right, from, to, kind);
    SumConcat(left, [rs[k]], from, to, kind);
    SumConcat(left, right, from, to, kind);
    SumSingle(rs[k], from, to, kind);
  }

  /** Filtering out a day no entry has changes nothing. */
  lemma {:induction false} WithoutOtherDays(rs: seq<DailyRecord>, d: int)
    requires forall i :: 0 <= i < |rs| ==> rs[i].dayDate != d
    ensures WithoutDay(rs, d) == rs
  {
    if rs != [] {
      WithoutOtherDays(rs[..|rs| - 1], d);
      assert rs[..|rs| - 1] + [rs[|rs| - 1]] == rs;
    }
  }
}
