/** The simulated energy service. Each call perturbs a fixed baseline: the
    current demand by up to ±100 MW, the renewable share by up to ±5 points,
    clamped to [45, 75]. The spread `{ ...baseline }` copies only the top
    level, so the `renewable` record written to is the baseline's own: the
    share is a clamped random walk across calls rather than a perturbation of
    61. Both that behaviour and the deep-copy one are modelled. Random draws
    and the clock are parameters. */
module EnergyApi {
  import opened Common

  /** A value of `Math.random()`. */
  type Draw = r: real | 0.0 <= r < 1.0

  datatype DemandPoint = DemandPoint(timestamp: string, demand: real, forecast: real)
  datatype PricePoint = PricePoint(timestamp: string, price: real, currency: string)
  datatype Renewable = Renewable(solar: real, wind: real, hydro: real, total: real, percentage: real)
  datatype EnergyData = EnergyData(currentDemand: real, peakDemand: real, forecastDemand: seq<DemandPoint>,
                                   pricing: seq<PricePoint>, renewable: Renewable, lastUpdated: string)

  const BaselineDemand: real := 4250.0
  const BaselinePeak: real := 5100.0
  const BaselineRenewable: Renewable := Renewable(1250.0, 890.0, 450.0, 2590.0, 61.0)
  const MinShare: real := 45.0
  const MaxShare: real := 75.0

  /** The sources add up to the total. */
  predicate Balanced(r: Renewable) {
    r.total == r.solar + r.wind + r.hydro
  }

  /** The mock record; its two 24-hour series are generated from random draws
      at load time and enter here as given. */
  function MockEnergyData(forecast: seq<DemandPoint>, pricing: seq<PricePoint>, loadedAt: string): (d: EnergyData)
    ensures d.currentDemand == 4250.0 && d.peakDemand == 5100.0
    ensures Balanced(d.renewable) && d.renewable.total == 2590.0 && d.renewable.percentage == 61.0
    ensures MinShare <= d.renewable.percentage <= MaxShare
  {
    EnergyData(BaselineDemand, BaselinePeak, forecast, pricing, BaselineRenewable, loadedAt)
  }

  /** The service's state: the module-level baseline record. */
  datatype Service = Service(baseline: EnergyData)

  /** The perturbed share before and after clamping. */
  function Nudge(share: real, r: Draw): (x: real)
    ensures share - 5.0 <= x < share + 5.0
  {
    share + (r - 0.5) * 10.0
  }

  function NextShare(share: real, r: Draw): (p: real)
    ensures MinShare <= p <= MaxShare
    ensures MinShare <= share <= MaxShare ==> share - 5.0 <= p < share + 5.0
  {
    Clamp(MinShare, MaxShare, Nudge(share, r))
  }

  /** The demand seen by a call: always relative to the untouched baseline. */
  function NextDemand(demand: real, r: Draw): (d: real)
    ensures demand - 100.0 <= d < demand + 100.0
  {
    demand + (r - 0.5) * 200.0
  }

  /** `getEnergyData` as written: draws r1 for the demand and r2 for the
      share; the share is written through the shared `renewable` record, so
      the baseline carries it into the next call. */
  function GetEnergyDataAsWritten(s: Service, r1: Draw, r2: Draw, now: string): (res: (Service, EnergyData))
    ensures var (s', d) := res;
            && d.currentDemand == NextDemand(s.baseline.currentDemand, r1)
            && d.renewable.percentage == NextShare(s.baseline.renewable.percentage, r2)
            && d.peakDemand == s.baseline.peakDemand
            && d.forecastDemand == s.baseline.forecastDemand && d.pricing == s.baseline.pricing
            && d.renewable.(percentage := 0.0) == s.baseline.renewable.(percentage := 0.0)
            && d.lastUpdated == now
            && s'.baseline == s.baseline.(renewable := d.renewable)
  {
    var shared := s.baseline.renewable.(percentage := NextShare(s.baseline.renewable.percentage, r2));
    var d := s.baseline.(currentDemand := NextDemand(s.baseline.currentDemand, r1), renewable := shared, lastUpdated := now);
    (Service(s.baseline.(renewable := shared)), d)
  }

  /** `getEnergyData` with the renewable record copied too: the baseline is
      never written. */
  function GetEnergyData(s: Service, r1: Draw, r2: Draw, now: string): (res: (Service, EnergyData))
    ensures var (s', d) := res;
            && s' == s
            && d.currentDemand == NextDemand(s.baseline.currentDemand, r1)
            && d.renewable.percentage == NextShare(s.baseline.renewable.percentage, r2)
            && d.peakDemand == s.baseline.peakDemand
            && d.forecastDemand == s.baseline.forecastDemand && d.pricing == s.baseline.pricing
            && d.renewable.(percentage := 0.0) == s.baseline.renewable.(percentage := 0.0)
            && d.lastUpdated == now
  {
    var copy := s.baseline.renewable.(percentage := NextShare(s.baseline.renewable.percentage, r2));
    (s, s.baseline.(currentDemand := NextDemand(s.baseline.currentDemand, r1), renewable := copy, lastUpdated := now))
  }

  /** Both versions keep the demand within ±100 of 4250, the share in
      [45, 75], and the sources summing to the total. */
  lemma CallBounds(forecast: seq<DemandPoint>, pricing: seq<PricePoint>, loadedAt: string, r1: Draw, r2: Draw, now: string)
    ensures var s := Service(MockEnergyData(forecast, pricing, loadedAt));
            forall d :: d == GetEnergyDataAsWritten(s, r1, r2, now).1 || d == GetEnergyData(s, r1, r2, now).1 ==>
              4150.0 <= d.currentDemand < 4350.0 && MinShare <= d.renewable.percentage <= MaxShare
              && Balanced(d.renewable) && d.renewable.total == 2590.0
  {
  }

  /** Invariant of the as-written service over any number of calls: the
      baseline share stays in [45, 75], the demand at 4250, and the renewable
      sources balanced. */
  ghost predicate ServiceInvariant(s: Service) {
    && s.baseline.currentDemand == BaselineDemand
    && MinShare <= s.baseline.renewable.percentage <= MaxShare
    && Balanced(s.baseline.renewable)
  }

  lemma AsWrittenPreservesInvariant(s: Service, r1: Draw, r2: Draw, now: string)
    requires ServiceInvariant(s)
    ensures ServiceInvariant(GetEnergyDataAsWritten(s, r1, r2, now).0)
    ensures var d := GetEnergyDataAsWritten(s, r1, r2, now).1;
            4150.0 <= d.currentDemand < 4350.0
            && s.baseline.renewable.percentage - 5.0 <= d.renewable.percentage < s.baseline.renewable.percentage + 5.0
  {
  }

  /** The share after a run of as-written calls, each with its own draw. */
  function ShareAfter(s: Service, draws: seq<Draw>): (p: real)
    decreases |draws|
  {
    if |draws| == 0 then s.baseline.renewable.percentage
    else ShareAfter(GetEnergyDataAsWritten(s, 0.5, draws[0], "").0, draws[1..])
  }

  /** The drift: two calls drawing 0.99 each move the share from 61 to 70.8,
      a value no single call from the baseline reaches (those stay below 66). */
  lemma AsWrittenDrifts(forecast: seq<DemandPoint>, pricing: seq<PricePoint>, loadedAt: string)
    ensures ShareAfter(Service(MockEnergyData(forecast, pricing, loadedAt)), [0.99, 0.99]) == 70.8
    ensures forall r: Draw, now :: GetEnergyData(Service(MockEnergyData(forecast, pricing, loadedAt)), 0.5, r, now).1.renewable.percentage < 66.0
  {
    var s0 := Service(MockEnergyData(forecast, pricing, loadedAt));
    var s1 := GetEnergyDataAsWritten(s0, 0.5, 0.99, "").0;
    assert s1.baseline.renewable.percentage == 65.9;
    var s2 := GetEnergyDataAsWritten(s1, 0.5, 0.99, "").0;
    assert s2.baseline.renewable.percentage == 70.8;
    assert [0.99, 0.99][1..] == [0.99 as Draw];
    assert ShareAfter(s2, []) == 70.8;
  }

  /** With the copy, any run of calls leaves the service as it was: every
      call perturbs the same 61. */
  lemma {:induction false} CorrectedHasNoDrift(s: Service, r1s: seq<Draw>, r2s: seq<Draw>, now: string)
    requires |r1s| == |r2s|
    ensures Replay(s, r1s, r2s, now) == s
    decreases |r1s|
  {
    if |r1s| > 0 {
      CorrectedHasNoDrift(GetEnergyData(s, r1s[0], r2s[0], now).0, r1s[1..], r2s[1..], now);
    }
  }

  /** The service after a run of corrected calls. */
  function Replay(s: Service, r1s: seq<Draw>, r2s: seq<Draw>, now: string): Service
    requires |r1s| == |r2s|
    decreases |r1s|
  {
    if |r1s| == 0 then s else Replay(GetEnergyData(s, r1s[0], r2s[0], now).0, r1s[1..], r2s[1..], now)
  }

  // ---------------------------------------------------------------- history

  const DefaultHistoryDays: int := 30

  datatype HistoricalPoint = HistoricalPoint(date: string, avgDemand: real, peakDemand: real, renewable: real)

  /** `getHistoricalEnergyData(days)`: one point per day, oldest first.
      `sin` stands for `Math.sin`, `rand(k)` for the k-th random draw (three
      per point), `dayBefore(k)` for the timestamp k days before now. A
      negative count gives no points (`Array.from` clamps the length). */
  function GetHistoricalEnergyData(days: int, sin: real -> real, rand: nat -> Draw, dayBefore: int -> string): (r: seq<HistoricalPoint>)
    ensures |r| == if days < 0 then 0 else days
    ensures forall i :: 0 <= i < |r| ==> r[i].date == dayBefore(days - i)
    ensures forall i :: 0 <= i < |r| ==>
              r[i].avgDemand == 4200.0 + sin(i as real / 7.0) * 400.0 + rand(3 * i) * 300.0
              && r[i].peakDemand == 4800.0 + sin(i as real / 7.0) * 500.0 + rand(3 * i + 1) * 400.0
              && r[i].renewable == 55.0 + sin(i as real / 5.0) * 10.0 + rand(3 * i + 2) * 15.0
  {
    var n := if days < 0 then 0 else days;
    seq(n, i requires 0 <= i < n =>
      HistoricalPoint(dayBefore(days - i),
                      4200.0 + sin(i as real / 7.0) * 400.0 + rand(3 * i) * 300.0,
                      4800.0 + sin(i as real / 7.0) * 500.0 + rand(3 * i + 1) * 400.0,
                      55.0 + sin(i as real / 5.0) * 10.0 + rand(3 * i + 2) * 15.0))
  }

  /** With a sine in [-1, 1], every point lies in its band: average demand in
      [3800, 4900), peak in [4300, 5700), renewable share in [45, 80). The
      default call yields thirty points. */
  lemma HistoricalBounds(days: int, sin: real -> real, rand: nat -> Draw, dayBefore: int -> string)
    requires forall x :: -1.0 <= sin(x) <= 1.0
    ensures var r := GetHistoricalEnergyData(days, sin, rand, dayBefore);
            forall i :: 0 <= i < |r| ==>
              3800.0 <= r[i].avgDemand < 4900.0 && 4300.0 <= r[i].peakDemand < 5700.0
              && 45.0 <= r[i].renewable < 80.0
    ensures |GetHistoricalEnergyData(DefaultHistoryDays, sin, rand, dayBefore)| == 30
  {
    var r := GetHistoricalEnergyData(days, sin, rand, dayBefore);
    forall i | 0 <= i < |r|
      ensures 3800.0 <= r[i].avgDemand < 4900.0 && 4300.0 <= r[i].peakDemand < 5700.0
              && 45.0 <= r[i].renewable < 80.0
    {
      var s7 := sin(i as real / 7.0);
      var s5 := sin(i as real / 5.0);
      assert -400.0 <= s7 * 400.0 <= 400.0;
      assert -500.0 <= s7 * 500.0 <= 500.0;
      assert -10.0 <= s5 * 10.0 <= 10.0;
      assert 0.0 <= rand(3 * i) * 300.0 < 300.0;
      assert 0.0 <= rand(3 * i + 1) * 400.0 < 400.0;
      assert 0.0 <= rand(3 * i + 2) * 15.0 < 15.0;
    }
  }
}
