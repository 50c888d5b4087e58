/** The fixture content `initializeMockData` writes on first load
    (src/utils/mockData.ts:62-180): three accounts, twenty PCs, two sessions,
    one reservation, one report, no orders and the demand table. */
module Seed {
  import opened Wrappers
  import opened Records
  import opened Text
  import opened Seqs
  import opened Tables

  const DemoPassword: string := "123456"

  /** The admin and the two customers, all with the demo password. */
  function SeedUsers(createdAt: string): (users: seq<Account>)
    ensures |users| == 3
    ensures UniqueEmails(users)
    ensures forall i :: 0 <= i < 3 ==> users[i].password == DemoPassword && !users[i].isBanned
    ensures users[0].role == Admin && users[1].role == Cliente && users[2].role == Cliente
  {
    [ Account("1", "Admin Cyber", "admin@cybercafe.com", DemoPassword, Admin, createdAt, false),
      Account("2", "Juan Pérez", "juan@cybercafe.com", DemoPassword, Cliente, createdAt, false),
      Account("3", "María Gómez", "maria@cybercafe.com", DemoPassword, Cliente, createdAt, false) ]
  }

  // ----- the twenty PCs -----

  const PCCount: nat := 20

  /** Every 7th PC from the first is occupied, else every 11th is under
      maintenance, else it is free. */
  function SeedStatus(i: nat): PCStatus {
    if i % 7 == 0 then Ocupada else if i % 11 == 0 then Mantenimiento else Libre
  }

  /** `Math.floor(i / 5) + 1`: five PCs per zone. */
  function SeedZone(i: nat): (z: nat)
    requires i < PCCount
    ensures 1 <= z <= 4
    ensures 5 * (z - 1) <= i < 5 * z
  {
    i / 5 + 1
  }

  function SeedPC(i: nat): PC
    requires i < PCCount
  {
    PC("pc-" + NatToString(i + 1), i + 1, SeedStatus(i),
       "Zona " + NatToString(SeedZone(i)), "Intel i7, 16GB RAM, RTX 3060")
  }

  /** `Array.from({ length: 20 }, (_, i) => ...)`. */
  function SeedPCs(): (pcs: seq<PC>)
    ensures |pcs| == PCCount
    ensures forall i :: 0 <= i < PCCount ==> pcs[i].number == i + 1
  {
    seq(PCCount, i requires 0 <= i < PCCount => SeedPC(i))
  }

  /** Entry i has id `pc-(i+1)`, number i+1 and its zone label; ids and
      numbers are all distinct. */
  lemma SeedPCsWellFormed()
    ensures UniquePCs(SeedPCs())
    ensures forall i :: 0 <= i < PCCount ==>
      SeedPCs()[i].id == "pc-" + NatToString(i + 1) &&
      SeedPCs()[i].location == "Zona " + NatToString(SeedZone(i))
  {
    var pcs := SeedPCs();
    forall i, j | 0 <= i < j < PCCount
      ensures pcs[i].id != pcs[j].id
    {
      if pcs[i].id == pcs[j].id {
        assert NatToString(i + 1) == pcs[i].id[3..];
        assert NatToString(j + 1) == pcs[j].id[3..];
        NatToStringInjective(i + 1, j + 1);
      }
    }
  }

  lemma SeedPrefixSnoc(n: nat)
    requires 0 < n <= PCCount
    ensures SeedPCs()[..n] == SeedPCs()[..n - 1] + [SeedPC(n - 1)]
  {
  }

  /** Among the first twenty indices only 11 is a multiple of 11 but not of 7. */
  lemma MaintenanceOnlyAt11(i: nat)
    requires i < PCCount
    ensures SeedStatus(i) == Mantenimiento <==> i == 11
  {
    if i % 11 == 0 {
      assert i == 11 * (i / 11);
      assert i / 11 <= 1;
    }
  }

  lemma OccupiedStep(m: nat)
    ensures (m + 6) / 7 + (if m % 7 == 0 then 1 else 0) == (m + 7) / 7
  {
  }

  lemma {:induction false} SeedOccupiedPrefix(n: nat)
    requires n <= PCCount
    ensures |Filter(SeedPCs()[..n], StatusIs(Ocupada))| == (n + 6) / 7
  {
    if n > 0 {
      SeedOccupiedPrefix(n - 1);
      SeedPrefixSnoc(n);
      var x := SeedPC(n - 1);
      FilterSnoc(SeedPCs()[..n - 1], x, StatusIs(Ocupada));
      assert StatusIs(Ocupada)(x) <==> (n - 1) % 7 == 0;
      OccupiedStep(n - 1);
    }
  }

  lemma {:induction false} SeedMaintenancePrefix(n: nat)
    requires n <= PCCount
    ensures |Filter(SeedPCs()[..n], StatusIs(Mantenimiento))| == (if n > 11 then 1 else 0)
  {
    if n > 0 {
      SeedMaintenancePrefix(n - 1);
      SeedPrefixSnoc(n);
      var x := SeedPC(n - 1);
      FilterSnoc(SeedPCs()[..n - 1], x, StatusIs(Mantenimiento));
      MaintenanceOnlyAt11(n - 1);
      assert StatusIs(Mantenimiento)(x) <==> n - 1 == 11;
    }
  }

  lemma {:induction false} SeedFreePrefix(n: nat)
    requires n <= PCCount
    ensures |Filter(SeedPCs()[..n], StatusIs(Libre))| == n - (n + 6) / 7 - (if n > 11 then 1 else 0)
  {
    if n > 0 {
      SeedFreePrefix(n - 1);
      SeedPrefixSnoc(n);
      var x := SeedPC(n - 1);
      FilterSnoc(SeedPCs()[..n - 1], x, StatusIs(Libre));
      MaintenanceOnlyAt11(n - 1);
      assert StatusIs(Libre)(x) <==> (n - 1) % 7 != 0 && n - 1 != 11;
      OccupiedStep(n - 1);
    }
  }

  /** Of the twenty seeded PCs, PCs 1, 8 and 15 are occupied, PC 12 is under
      maintenance and the other sixteen are free. */
  lemma SeedStatusCounts()
    ensures |Filter(SeedPCs(), StatusIs(Ocupada))| == 3
    ensures |Filter(SeedPCs(), StatusIs(Mantenimiento))| == 1
    ensures |Filter(SeedPCs(), StatusIs(Libre))| == 16
  {
    SeedOccupiedPrefix(PCCount);
    SeedMaintenancePrefix(PCCount);
    SeedFreePrefix(PCCount);
    assert SeedPCs()[..PCCount] == SeedPCs();
  }

  // ----- sessions, reservation, report -----

  /** Juan on PC 3 since 45 minutes ago, María on PC 10 since 20 minutes ago. */
  function SeedSessions(nowMs: int): (sessions: seq<Session>)
    ensures |sessions| == 2 && sessions[0].id != sessions[1].id
    ensures forall i :: 0 <= i < 2 ==> sessions[i].elapsedTime == ElapsedMinutes(sessions[i].startMs, nowMs)
  {
    [ Session("sess-1", "2", "Juan Pérez", "pc-3", 3, nowMs - 45 * 60000, 45),
      Session("sess-2", "3", "María Gómez", "pc-10", 10, nowMs - 20 * 60000, 20) ]
  }

  function SeedReservations(): seq<Reservation> {
    [ Reservation("res-1", Some("2"), "pc-5", "2025-04-05T18:00:00", 2, Activa) ]
  }

  function SeedReports(timestamp: string): seq<Report> {
    [ Report("rep-1", Some("2"), Some("Juan Pérez"), "PC #3 se reinicia sola", "3",
             "Cada 10 minutos se apaga y reinicia. Urgente.", timestamp, Pendiente) ]
  }

  // ----- the demand table -----

  const Days: seq<string> := ["Lunes", "Martes", "Miércoles", "Jueves", "Viernes", "Sábado", "Domingo"]
  const FirstHour: int := 8
  const LastHour: int := 23
  const HoursPerDay: nat := 16

  /** 70 in the afternoon peak (14 to 22), 40 otherwise, 20 more at weekends. */
  function BaseUsage(day: string, hour: int): (b: int)
    ensures b == 40 || b == 60 || b == 70 || b == 90
    ensures (b >= 70) <==> (14 <= hour <= 22)
    ensures (b == 60 || b == 90) <==> (day == "Sábado" || day == "Domingo")
  {
    var isPeak := 14 <= hour <= 22;
    var isWeekend := day == "Sábado" || day == "Domingo";
    (if isPeak then 70 else 40) + (if isWeekend then 20 else 0)
  }

  /** `Math.max(0, Math.min(100, x))`. */
  function Clamp(x: int): (r: int)
    ensures 0 <= r <= 100
    ensures 0 <= x <= 100 ==> r == x
    ensures x < 0 ==> r == 0
    ensures x > 100 ==> r == 100
  {
    if x < 0 then 0 else if x > 100 then 100 else x
  }

  /** The prediction for day `d` at `hour`, given the rounded variance drawn for it. */
  function Sample(d: nat, hour: int, noise: int): DemandPrediction
    requires d < |Days|
  {
    DemandPrediction(hour, Days[d], Clamp(BaseUsage(Days[d], hour) + noise))
  }

  /** The sixteen predictions of day `d`; the k-th draw of the random source
      is `noise(k)`, counted over the whole table. */
  function DayBlock(d: nat, noise: nat -> int): (block: seq<DemandPrediction>)
    requires d < |Days|
    ensures |block| == HoursPerDay
    ensures forall j :: 0 <= j < HoursPerDay ==> block[j].day == Days[d] && block[j].hour == FirstHour + j
  {
    var block := seq(HoursPerDay, j requires 0 <= j < HoursPerDay => Sample(d, FirstHour + j, noise(HoursPerDay * d + j)));
    assert forall j :: 0 <= j < HoursPerDay ==> block[j] == Sample(d, FirstHour + j, noise(HoursPerDay * d + j));
    block
  }

  /** The predictions of the first n days, day after day. */
  function DemandDays(n: nat, noise: nat -> int): (t: seq<DemandPrediction>)
    requires n <= |Days|
    ensures |t| == HoursPerDay * n
  {
    if n == 0 then [] else DemandDays(n - 1, noise) + DayBlock(n - 1, noise)
  }

  function DemandTable(noise: nat -> int): seq<DemandPrediction> {
    DemandDays(|Days|, noise)
  }

  lemma {:induction false} DemandDaysAt(n: nat, noise: nat -> int, k: nat)
    requires n <= |Days| && k < HoursPerDay * n
    ensures DemandDays(n, noise)[k] == Sample(k / HoursPerDay, FirstHour + k % HoursPerDay, noise(k))
  {
    if k < HoursPerDay * (n - 1) {
      DemandDaysAt(n - 1, noise, k);
    } else {
      var j := k - HoursPerDay * (n - 1);
      assert k / HoursPerDay == n - 1 && k % HoursPerDay == j;
      assert DemandDays(n, noise)[k] == DayBlock(n - 1, noise)[j];
    }
  }

  /** The table holds 7 x 16 = 112 predictions; entry k is for day k / 16 at
      hour 8 + k % 16 and is the base usage plus the k-th variance, clamped:
      so every hour lies in 8..23, every day is one of the seven names and
      every predicted usage lies in [0, 100] whatever the variance. */
  lemma DemandTableShape(noise: nat -> int)
    ensures |DemandTable(noise)| == 112
    ensures forall k :: 0 <= k < 112 ==>
      var p := DemandTable(noise)[k];
      p.day == Days[k / 16] && p.hour == 8 + k % 16 &&
      p.predictedUsage == Clamp(BaseUsage(p.day, p.hour) + noise(k))
    ensures forall p :: p in DemandTable(noise) ==>
      FirstHour <= p.hour <= LastHour && p.day in Days && 0 <= p.predictedUsage <= 100
  {
    forall k | 0 <= k < 112
      ensures DemandTable(noise)[k] == Sample(k / 16, 8 + k % 16, noise(k))
    {
      DemandDaysAt(|Days|, noise, k);
    }
  }

  /** `Math.random() * 15 - 7.5` rounds, with the integer base, to a variance
      in -7..7; within that range the clamp never applies and every
      prediction lies in 33..97. */
  lemma DemandWithinVariance(noise: nat -> int)
    requires forall k: nat :: -7 <= noise(k) <= 7
    ensures forall k :: 0 <= k < 112 ==>
      var p := DemandTable(noise)[k];
      p.predictedUsage == BaseUsage(p.day, p.hour) + noise(k) && 33 <= p.predictedUsage <= 97
  {
    DemandTableShape(noise);
  }

  lemma DaysDistinct()
    ensures forall i, j :: 0 <= i < j < |Days| ==> Days[i] != Days[j]
  {
    assert Days[0][0] == 'L' && Days[1][0] == 'M' && Days[2][0] == 'M' && Days[3][0] == 'J';
    assert Days[4][0] == 'V' && Days[5][0] == 'S' && Days[6][0] == 'D';
    assert Days[1][1] == 'a' && Days[2][1] == 'i';
  }

  /** A day's block is all kept by its own day and all dropped by another. */
  lemma DayBlockOfDay(e: nat, noise: nat -> int, d: nat)
    requires e < |Days| && d < |Days|
    ensures Filter(DayBlock(e, noise), DayIs(Days[d])) == if d == e then DayBlock(e, noise) else []
  {
    var block := DayBlock(e, noise);
    if d == e {
      assert forall j :: 0 <= j < |block| ==> DayIs(Days[d])(block[j]);
    } else {
      DaysDistinct();
      assert Days[e] != Days[d];
      assert forall j :: 0 <= j < |block| ==> !DayIs(Days[d])(block[j]);
    }
  }

  lemma {:induction false} DemandDaysOfDay(n: nat, noise: nat -> int, d: nat)
    requires n <= |Days| && d < |Days|
    ensures Filter(DemandDays(n, noise), DayIs(Days[d])) == if d < n then DayBlock(d, noise) else []
  {
    if n > 0 {
      DemandDaysOfDay(n - 1, noise, d);
      FilterAppend(DemandDays(n - 1, noise), DayBlock(n - 1, noise), DayIs(Days[d]));
      DayBlockOfDay(n - 1, noise, d);
    }
  }

  /** Selecting one day of the table gives that day's sixteen hours 8..23 in order. */
  lemma DemandTableOfDay(noise: nat -> int, d: nat)
    requires d < |Days|
    ensures var dayData := Filter(DemandTable(noise), DayIs(Days[d]));
      |dayData| == HoursPerDay &&
      forall j :: 0 <= j < HoursPerDay ==> dayData[j].hour == FirstHour + j && dayData[j].day == Days[d]
  {
    DemandDaysOfDay(|Days|, noise, d);
  }

  /** The nested `days.forEach` / `for (hour = 8; hour <= 23; hour++)` loop
      that pushes one prediction per day and hour. */
  method GenerateDemand(noise: nat -> int) returns (predictions: seq<DemandPrediction>)
    ensures predictions == DemandTable(noise)
  {
    predictions := [];
    var d := 0;
    while d < |Days|
      invariant 0 <= d <= |Days|
      invariant predictions == DemandDays(d, noise)
    {
      var day := Days[d];
      var hour := FirstHour;
      while hour <= LastHour
        invariant FirstHour <= hour <= LastHour + 1
        invariant predictions == DemandDays(d, noise) + DayBlock(d, noise)[..hour - FirstHour]
      {
        var isPeak := 14 <= hour <= 22;
        var isWeekend := day == "Sábado" || day == "Domingo";
        var baseUsage := if isPeak then 70 else 40;
        if isWeekend {
          baseUsage := baseUsage + 20;
        }
        var predictedUsage := Clamp(baseUsage + noise(|predictions|));
        predictions := predictions + [DemandPrediction(hour, day, predictedUsage)];
        assert DayBlock(d, noise)[..hour + 1 - FirstHour]
            == DayBlock(d, noise)[..hour - FirstHour] + [Sample(d, hour, noise(HoursPerDay * d + hour - FirstHour))];
        hour := hour + 1;
      }
      assert DayBlock(d, noise)[..HoursPerDay] == DayBlock(d, noise);
      d := d + 1;
    }
  }
}
