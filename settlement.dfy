/** Settlement arithmetic of a monthly record: how a settlement splits the net
    amount into wages owed or advance owed, how cash given on the settlement
    day re-splits what remains, and the order the settlements of a month keep. */
module Settlements {
  import opened Common

  /** A carried balance: wages owed to the worker and advance owed by the
      worker, never negative and never both non-zero. */
  predicate Carry(wages: int, advance: int) {
    wages >= 0 && advance >= 0 && (wages == 0 || advance == 0)
  }

  /** A well-formed settlement: what occurred and what is transferred are both
      carried balances, and the transferred net is the occurred net less the
      cash taken. */
  predicate SettlementWf(s: Settlement) {
    && Carry(s.wagesOccured, s.advanceOccured)
    && Carry(s.wagesTransferred, s.advanceTransferred)
    && s.amountTaken >= 0
    && s.wagesTransferred - s.advanceTransferred == s.wagesOccured - s.advanceOccured - s.amountTaken
  }

  /** The settlement built for a net amount: a positive net is wages owed, a
      negative net an advance owed, a zero net leaves every field at 0. */
  function NewSettlement(dayDate: int, amount: int): (s: Settlement)
    ensures s.dayDate == dayDate && s.amountTaken == 0
    ensures s.wagesOccured - s.advanceOccured == amount
    ensures s.wagesTransferred == s.wagesOccured && s.advanceTransferred == s.advanceOccured
    ensures SettlementWf(s)
  {
    if amount > 0 then Settlement(dayDate, amount, 0, 0, amount, 0)
    else if amount < 0 then Settlement(dayDate, 0, -amount, 0, 0, -amount)
    else Settlement(dayDate, 0, 0, 0, 0, 0)
  }

  /** The settlement is the only description of the net: two nets give the
      same carried balance exactly when they are equal. */
  lemma NewSettlementInjective(d: int, a: int, b: int)
    ensures NewSettlement(d, a) == NewSettlement(d, b) <==> a == b
  {
  }

  /** What an adjustment produces: the replaced settlement and the balances the
      record carries from then on. */
  datatype Adjustment = Adjustment(settlement: Settlement, prevWages: int, prevAdvance: int)

  /** Cash given against a settlement. While wages are still owed
      (wagesOccured - amountTaken > 0) the rest of the occurred wages less all
      cash taken is re-split into wages or advance carried; otherwise the cash
      is added to the advance carried. The occurred amounts never change. */
  function Adjust(s: Settlement, given: int): (r: Adjustment)
    ensures r.settlement.dayDate == s.dayDate
    ensures r.settlement.wagesOccured == s.wagesOccured && r.settlement.advanceOccured == s.advanceOccured
    ensures r.settlement.amountTaken == s.amountTaken + given
    ensures SettlementWf(s) && given >= 0 ==> SettlementWf(r.settlement)
    ensures SettlementWf(s) ==> r.prevWages == r.settlement.wagesTransferred && r.prevAdvance == r.settlement.advanceTransferred
  {
    if s.wagesOccured - s.amountTaken > 0 then
      var remaining := s.wagesOccured - (s.amountTaken + given);
      if remaining > 0 then
        Adjustment(s.(amountTaken := s.amountTaken + given, wagesTransferred := remaining), remaining, 0)
      else if remaining < 0 then
        Adjustment(s.(amountTaken := s.amountTaken + given, wagesTransferred := 0, advanceTransferred := -remaining), 0, -remaining)
      else
        Adjustment(s.(amountTaken := s.amountTaken + given, wagesTransferred := 0, advanceTransferred := 0), 0, 0)
    else
      var advance := s.advanceTransferred + given;
      Adjustment(s.(amountTaken := s.amountTaken + given, wagesTransferred := 0, advanceTransferred := advance), 0, advance)
  }

  /** Cash given lowers the transferred net by exactly that amount: wages owed
      shrink first, and the excess becomes advance owed. */
  lemma AdjustLowersBalance(s: Settlement, given: int)
    requires SettlementWf(s) && given >= 0
    ensures Adjust(s, given).settlement.wagesTransferred - Adjust(s, given).settlement.advanceTransferred
         == s.wagesTransferred - s.advanceTransferred - given
    ensures Carry(Adjust(s, given).prevWages, Adjust(s, given).prevAdvance)
  {
  }

  /** Giving cash in two instalments on the settlement day ends where giving
      their total at once does. */
  lemma AdjustInInstalments(s: Settlement, a: int, b: int)
    requires SettlementWf(s) && a >= 0 && b >= 0
    ensures Adjust(Adjust(s, a).settlement, b) == Adjust(s, a + b)
  {
  }

  /** A worker owed 1000 in wages who is handed 400 and then 600 ends with
      nothing carried either way. */
  lemma PayInFull()
    ensures Adjust(Adjust(NewSettlement(12, 1000), 400).settlement, 600)
         == Adjustment(Settlement(12, 1000, 0, 1000, 0, 0), 0, 0)
  {
  }

  /** The settlements of a month: strictly increasing days inside the month,
      each well formed. */
  ghost predicate SettlementsWf(ss: seq<Settlement>, numberOfDays: int) {
    && (forall i, j :: 0 <= i < j < |ss| ==> ss[i].dayDate < ss[j].dayDate)
    && (forall i :: 0 <= i < |ss| ==> 1 <= ss[i].dayDate <= numberOfDays && SettlementWf(ss[i]))
  }

  /** The first settlement on day d, if any (the find call and the [0] of the
      filter call). */
  function FindSettlement(ss: seq<Settlement>, d: int): (r: Option<Settlement>)
    ensures r.Some? ==> r.value in ss && r.value.dayDate == d
    ensures r.None? ==> forall i :: 0 <= i < |ss| ==> ss[i].dayDate != d
  {
    if ss == [] then None
    else if ss[0].dayDate == d then Some(ss[0])
    else FindSettlement(ss[1..], d)
  }

  /** The settlements that are not on day d, in order (the filter call). */
  function WithoutSettlementDay(ss: seq<Settlement>, d: int): seq<Settlement> {
    if ss == [] then []
    else if ss[|ss| - 1].dayDate == d then WithoutSettlementDay(ss[..|ss| - 1], d)
    else WithoutSettlementDay(ss[..|ss| - 1], d) + [ss[|ss| - 1]]
  }

  /** With days strictly increasing, the latest settlement is the one found on
      its day, and filtering its day out removes exactly it. */
  lemma {:induction false} LatestSettlement(ss: seq<Settlement>, n: int)
    requires SettlementsWf(ss, n) && ss != []
    ensures FindSettlement(ss, ss[|ss| - 1].dayDate) == Some(ss[|ss| - 1])
    ensures WithoutSettlementDay(ss, ss[|ss| - 1].dayDate) == ss[..|ss| - 1]
  {
    var d := ss[|ss| - 1].dayDate;
    EarlierSettlementsKept(ss[..|ss| - 1], d);
    if |ss| > 1 {
      assert ss[0].dayDate < d;
      assert ss[1..] == ss[1..][..|ss[1..]| - 1] + [ss[|ss| - 1]];
      LatestSettlement(ss[1..], n);
    }
  }

  /** Filtering out a day after every settlement's day changes nothing. */
  lemma {:induction false} EarlierSettlementsKept(ss: seq<Settlement>, d: int)
    requires forall i :: 0 <= i < |ss| ==> ss[i].dayDate < d
    ensures WithoutSettlementDay(ss, d) == ss
  {
    if ss != [] {
      EarlierSettlementsKept(ss[..|ss| - 1], d);
      assert ss[..|ss| - 1] + [ss[|ss| - 1]] == ss;
    }
  }

  /** Appending a settlement after the latest one, inside the month, keeps the
      settlements ordered and well formed. */
  lemma AppendSettlement(ss: seq<Settlement>, n: int, s: Settlement)
    requires SettlementsWf(ss, n) && SettlementWf(s) && 1 <= s.dayDate <= n
    requires ss != [] ==> ss[|ss| - 1].dayDate < s.dayDate
    ensures SettlementsWf(ss + [s], n)
  {
    var ts := ss + [s];
    forall i, j | 0 <= i < j < |ts|
      ensures ts[i].dayDate < ts[j].dayDate
    {
      if j == |ss| && i < |ss| - 1 {
        assert ss[i].dayDate < ss[|ss| - 1].dayDate;
      }
    }
  }

  /** Replacing the latest settlement by a well-formed one on the same day
      keeps the settlements ordered and well formed. */
  lemma ReplaceLatest(ss: seq<Settlement>, n: int, t: Settlement)
    requires SettlementsWf(ss, n) && ss != [] && SettlementWf(t) && t.dayDate == ss[|ss| - 1].dayDate
    ensures SettlementsWf(ss[..|ss| - 1] + [t], n)
  {
    var ts := ss[..|ss| - 1] + [t];
    assert forall i :: 0 <= i < |ss| - 1 ==> ts[i] == ss[i];
    forall i, j | 0 <= i < j < |ts|
      ensures ts[i].dayDate < ts[j].dayDate
    {
      assert ts[i].dayDate == ss[i].dayDate;
      assert ts[j].dayDate == ss[j].dayDate;
    }
  }
}
