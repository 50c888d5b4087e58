/** The demand page of src/pages/admin/AdminDemand.tsx: the day filter, the
    colour band of each bar and the weekly count of low-demand hours. */
module AdminDemand {
  import opened Records
  import opened Seqs
  import opened Tables
  import opened Seed
  import opened Arith

  /** `dayData`: the predictions of the selected day, in stored order. */
  function DayData(predictions: seq<DemandPrediction>, day: string): (r: seq<DemandPrediction>)
    ensures forall p :: p in r <==> p in predictions && p.day == day
    ensures |r| <= |predictions|
  {
    Filter(predictions, DayIs(day))
  }

  /** The day's predictions keep the table's order: selecting from a
      longer table puts the later part's hours after the earlier part's. */
  lemma DayDataAppend(a: seq<DemandPrediction>, b: seq<DemandPrediction>, day: string)
    ensures DayData(a + b, day) == DayData(a, day) + DayData(b, day)
  {
    FilterAppend(a, b, DayIs(day));
  }

  /** Whichever day is selected, the generated table shows its sixteen
      hours from 8 to 23, in order. */
  lemma DayDataOfTable(noise: nat -> int, d: nat)
    requires d < |Days|
    ensures var r := DayData(DemandTable(noise), Days[d]);
      |r| == HoursPerDay && forall j :: 0 <= j < |r| ==> r[j].hour == FirstHour + j
  {
    DemandTableOfDay(noise, d);
  }

  datatype BarColor = Secondary | Accent | Destructive

  /** `getBarColor`: below 40, from 40 to 69, and 70 or more. A usage of
      exactly 70 is in the top band. */
  function BarColorOf(usage: int): (c: BarColor)
    ensures c == Secondary <==> usage < 40
    ensures c == Accent <==> 40 <= usage < 70
    ensures c == Destructive <==> usage >= 70
  {
    if usage < 40 then Secondary else if usage < 70 then Accent else Destructive
  }

  function Rank(c: BarColor): nat {
    match c
    case Secondary => 0
    case Accent => 1
    case Destructive => 2
  }

  /** More usage never gets a lower band. */
  lemma BarColorMonotone(u: int, v: int)
    requires u <= v
    ensures Rank(BarColorOf(u)) <= Rank(BarColorOf(v))
  {
  }

  function IsLow(): DemandPrediction -> bool {
    (p: DemandPrediction) => p.predictedUsage < 40
  }

  /** `lowDemandHours`: the predictions below 40, divided by the seven days
      and rounded. */
  function LowDemandHours(predictions: seq<DemandPrediction>): (r: int)
    ensures var low := |Filter(predictions, IsLow())|;
      7 * (2 * r - 1) <= 2 * low < 7 * (2 * r + 1)
    ensures 0 <= r
  {
    RoundDiv(|Filter(predictions, IsLow())|, 7)
  }

  /** Low demand comes only from the random variation pulling an hour
      down: the lowest base usage is exactly 40, so draws that are never
      negative leave no hour below 40. */
  lemma NoLowHoursWithoutNegativeDraws(noise: nat -> int)
    requires forall k: nat :: noise(k) >= 0
    ensures LowDemandHours(DemandTable(noise)) == 0
  {
    var t := DemandTable(noise);
    DemandTableShape(noise);
    forall i | 0 <= i < |t|
      ensures !IsLow()(t[i])
    {
      assert t[i].predictedUsage == Clamp(BaseUsage(t[i].day, t[i].hour) + noise(i));
    }
  }
}
