/**
 * Health derivation (App.tsx, `calculateHealth`, `partsHealth` and the dashboard counts).
 *
 * The evaluation instant `now` is an explicit parameter. The percentage is an exact
 * rational, so the band thresholds are compared without rounding.
 */
module Health {
  import opened PartTypes

  /** One day in milliseconds. */
  const DAY_MS: int := 1000 * 60 * 60 * 24

  function Abs(x: int): nat {
    if x < 0 then -x else x
  }

  /**
   * Whole days between the install instant and now, rounded up: the least day count
   * whose span covers the absolute distance between the two instants.
   */
  function DaysElapsed(installDate: int, now: int): (d: nat)
    ensures d * DAY_MS >= Abs(now - installDate)
    ensures d > 0 ==> (d - 1) * DAY_MS < Abs(now - installDate)
  {
    (Abs(now - installDate) + DAY_MS - 1) / DAY_MS
  }

  /**
   * `(daysElapsed / lifespanDays) * 100`: zero exactly for a fresh part, and not clamped,
   * so it exceeds 100 exactly when the part has outlived its lifespan.
   */
  function PercentageUsed(daysElapsed: nat, lifespanDays: int): (pct: real)
    requires lifespanDays > 0
    ensures pct >= 0.0
    ensures pct == 0.0 <==> daysElapsed == 0
    ensures pct > 100.0 <==> daysElapsed > lifespanDays
  {
    var l := lifespanDays as real;
    QuotientAbove(daysElapsed as real, 1.0, l);
    QuotientAbove(daysElapsed as real, 0.0, l);
    (daysElapsed as real / l) * 100.0
  }

  /** Dividing by a positive factor: `x / k > c` exactly when `x > c * k`. */
  lemma QuotientAbove(x: real, c: real, k: real)
    requires k > 0.0
    ensures x / k > c <==> x > c * k
  {
    var q := x / k;
    assert q * k == x;
    if q > c {
      assert (q - c) * k > 0.0;
    } else {
      assert (c - q) * k >= 0.0;
    }
  }

  /**
   * The bands are checked in order, Critical first: Critical from 100% up, Warning from
   * 85% up to but excluding 100%, Good below 85%.
   */
  function StatusOf(percentageUsed: real): (s: PartStatus)
    ensures s == Critical <==> percentageUsed >= 100.0
    ensures s == Warning <==> 85.0 <= percentageUsed < 100.0
    ensures s == Good <==> percentageUsed < 85.0
  {
    if percentageUsed >= 100.0 then Critical
    else if percentageUsed >= 85.0 then Warning
    else Good
  }

  /**
   * The health of a part at instant `now`. Its status is Critical exactly when the
   * elapsed days reach the lifespan, Warning exactly when they reach 85% of it but not
   * all of it, and Good otherwise.
   */
  function CalculateHealth(p: Part, now: int): (h: PartHealth)
    requires p.lifespanDays > 0
    ensures h.daysElapsed == DaysElapsed(p.installDate, now)
    ensures h.daysRemaining == p.lifespanDays - h.daysElapsed
    ensures h.percentageUsed == PercentageUsed(h.daysElapsed, p.lifespanDays)
    ensures h.status == StatusOf(h.percentageUsed)
    ensures h.status == Critical <==> h.daysElapsed >= p.lifespanDays
    ensures h.status == Warning <==> 85 * p.lifespanDays <= 100 * h.daysElapsed < 100 * p.lifespanDays
    ensures h.status == Good <==> 100 * h.daysElapsed < 85 * p.lifespanDays
  {
    var daysElapsed := DaysElapsed(p.installDate, now);
    var percentageUsed := PercentageUsed(daysElapsed, p.lifespanDays);
    StatusBands(daysElapsed, p.lifespanDays);
    PartHealth(daysElapsed, p.lifespanDays - daysElapsed, percentageUsed, StatusOf(percentageUsed))
  }

  /** The real-valued percentage thresholds agree with exact integer comparisons. */
  lemma StatusBands(d: nat, lifespan: int)
    requires lifespan > 0
    ensures PercentageUsed(d, lifespan) >= 100.0 <==> d >= lifespan
    ensures PercentageUsed(d, lifespan) >= 85.0 <==> 100 * d >= 85 * lifespan
  {
    var l := lifespan as real;
    QuotientAtLeast(d as real, 1.0, l);
    QuotientAtLeast(d as real, 0.85, l);
    assert (85 * lifespan) as real == 85.0 * l;
    assert (100 * d) as real == 100.0 * (d as real);
  }

  /** Dividing by a positive factor: `x / k >= c` exactly when `x >= c * k`. */
  lemma QuotientAtLeast(x: real, c: real, k: real)
    requires k > 0.0
    ensures x / k >= c <==> x >= c * k
  {
    var q := x / k;
    assert q * k == x;
    if q >= c {
      assert (q - c) * k >= 0.0;
    } else {
      assert (c - q) * k > 0.0;
    }
  }

  /** A future install instant yields the same elapsed days as a past one the same distance away. */
  lemma ElapsedIgnoresDirection(now: int, k: nat)
    ensures DaysElapsed(now + k, now) == DaysElapsed(now - k, now)
  {
  }

  /** Exactly `n` whole days ago gives `n` elapsed days; one millisecond more gives `n + 1`. */
  lemma ElapsedWholeDays(now: int, n: nat)
    ensures DaysElapsed(now - n * DAY_MS, now) == n
    ensures DaysElapsed(now - n * DAY_MS - 1, now) == n + 1
  {
    assert Abs(now - (now - n * DAY_MS)) == n * DAY_MS;
    assert Abs(now - (now - n * DAY_MS - 1)) == n * DAY_MS + 1;
  }

  /** A part with a one-year lifespan passes from Good to Warning to Critical and then overruns. */
  lemma OneYearScenario(p: Part, now: int)
    requires p.lifespanDays == 365
    ensures p.installDate == now - 300 * DAY_MS ==> CalculateHealth(p, now).status == Good
    ensures p.installDate == now - 311 * DAY_MS ==> CalculateHealth(p, now).status == Warning
    ensures p.installDate == now - 365 * DAY_MS ==> CalculateHealth(p, now).status == Critical
    ensures p.installDate == now - 400 * DAY_MS ==> CalculateHealth(p, now).daysRemaining == -35
  {
    ElapsedWholeDays(now, 300);
    ElapsedWholeDays(now, 311);
    ElapsedWholeDays(now, 365);
    ElapsedWholeDays(now, 400);
  }

  /** A part installed at the evaluation instant has no wear. */
  lemma FreshInstallIsGood(p: Part, now: int)
    requires p.lifespanDays > 0
    ensures CalculateHealth(p.(installDate := now), now)
         == PartHealth(0, p.lifespanDays, 0.0, Good)
  {
  }

  /**
   * The health map: one entry per id, filled in list order, so that a later part
   * overwrites an earlier one with the same id.
   */
  function HealthMap(ps: seq<Part>, now: int): (m: map<string, PartHealth>)
    requires PositiveLifespans(ps)
    ensures m.Keys == Ids(ps)
    decreases |ps|
  {
    if ps == [] then map[]
    else
      var init, last := ps[..|ps| - 1], ps[|ps| - 1];
      assert Ids(ps) == Ids(init) + {last.id} by {
        assert forall i | 0 <= i < |init| :: init[i] == ps[i];
      }
      HealthMap(init, now)[last.id := CalculateHealth(last, now)]
  }

  /** The entry for an id is the health of the last part carrying that id. */
  lemma {:induction false} HealthMapLastWins(ps: seq<Part>, now: int, i: int)
    requires PositiveLifespans(ps)
    requires 0 <= i < |ps|
    requires forall j :: i < j < |ps| ==> ps[j].id != ps[i].id
    ensures ps[i].id in HealthMap(ps, now)
    ensures HealthMap(ps, now)[ps[i].id] == CalculateHealth(ps[i], now)
  {
    var init := ps[..|ps| - 1];
    assert ps[i].id in Ids(ps);
    if i < |ps| - 1 {
      assert PositiveLifespans(init) by {
        assert forall k | 0 <= k < |init| :: init[k] == ps[k];
      }
      HealthMapLastWins(init, now, i);
    }
  }

  /** With unique ids, every part's entry is its own health. */
  lemma HealthMapOfUnique(ps: seq<Part>, now: int)
    requires ValidParts(ps)
    ensures forall i :: 0 <= i < |ps| ==> HealthMap(ps, now)[ps[i].id] == CalculateHealth(ps[i], now)
  {
    forall i | 0 <= i < |ps|
      ensures HealthMap(ps, now)[ps[i].id] == CalculateHealth(ps[i], now)
    {
      HealthMapLastWins(ps, now, i);
    }
  }

  /** The ids whose entry is in band `s`. */
  function StatusIds(m: map<string, PartHealth>, s: PartStatus): set<string> {
    set k | k in m && m[k].status == s
  }

  /** `Object.values(partsHealth).filter(h => h.status === s).length`: one value per id. */
  function StatusCount(m: map<string, PartHealth>, s: PartStatus): (n: nat)
    ensures n <= |m|
  {
    assert StatusIds(m, s) <= m.Keys;
    SubsetCardinality(StatusIds(m, s), m.Keys);
    |StatusIds(m, s)|
  }

  lemma {:induction false} SubsetCardinality(a: set<string>, b: set<string>)
    requires a <= b
    ensures |a| <= |b|
    decreases |b|
  {
    if a != {} {
      var x :| x in a;
      SubsetCardinality(a - {x}, b - {x});
    }
  }

  /** The number of parts of a list whose health at `now` is in band `s`. */
  function BandCount(ps: seq<Part>, now: int, s: PartStatus): nat
    requires PositiveLifespans(ps)
    decreases |ps|
  {
    if ps == [] then 0
    else
      var init, last := ps[..|ps| - 1], ps[|ps| - 1];
      assert PositiveLifespans(init) by {
        assert forall k | 0 <= k < |init| :: init[k] == ps[k];
      }
      BandCount(init, now, s) + (if CalculateHealth(last, now).status == s then 1 else 0)
  }

  /** Every part lies in exactly one band, so the three band counts add up to the inventory size. */
  lemma {:induction false} BandsPartition(ps: seq<Part>, now: int)
    requires PositiveLifespans(ps)
    ensures BandCount(ps, now, Good) + BandCount(ps, now, Warning) + BandCount(ps, now, Critical) == |ps|
    decreases |ps|
  {
    if ps != [] {
      var init := ps[..|ps| - 1];
      assert PositiveLifespans(init) by {
        assert forall k | 0 <= k < |init| :: init[k] == ps[k];
      }
      BandsPartition(init, now);
    }
  }

  /**
   * With unique ids the dashboard counts, taken over the values of the health map,
   * equal the number of parts in each band.
   */
  lemma {:induction false} StatusCountOfUnique(ps: seq<Part>, now: int, s: PartStatus)
    requires ValidParts(ps)
    ensures StatusCount(HealthMap(ps, now), s) == BandCount(ps, now, s)
    decreases |ps|
  {
    if ps != [] {
      var init, last := ps[..|ps| - 1], ps[|ps| - 1];
      assert ValidParts(init) by {
        assert forall k | 0 <= k < |init| :: init[k] == ps[k];
      }
      StatusCountOfUnique(init, now, s);
      var before := HealthMap(init, now);
      assert last.id !in before by {
        assert forall k | 0 <= k < |init| :: init[k] == ps[k];
      }
      StatusIdsAdd(before, last.id, CalculateHealth(last, now), s);
    }
  }

  /** Adding an entry under a new id grows the count of its band by one and leaves the others. */
  lemma StatusIdsAdd(m: map<string, PartHealth>, k: string, h: PartHealth, s: PartStatus)
    requires k !in m
    ensures StatusCount(m[k := h], s) == StatusCount(m, s) + (if h.status == s then 1 else 0)
  {
    if h.status == s {
      assert StatusIds(m[k := h], s) == StatusIds(m, s) + {k};
    } else {
      assert StatusIds(m[k := h], s) == StatusIds(m, s);
    }
  }
}
