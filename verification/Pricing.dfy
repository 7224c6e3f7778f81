/** Pricing one call (internal/pricing/pricing.go): exact rational arithmetic, rounded once at the end. */
module Pricing {
  import opened Prelude
  import opened Events
  import opened ArchiveDb

  const NANOS_PER_HOUR: int := 3600000000000

  /** Peak hours: [start, end) hour ranges, Monday to Friday, UTC, except on the listed days. */
  datatype PeakWindow = PeakWindow(multiplier: real, hours: seq<(int, int)>, offPeakDays: set<Day>)

  /** 1970-01-01 was a Thursday; 0 is Sunday. */
  function Weekday(at: int): int {
    (DayOf(at) + 4) % 7
  }

  function Hour(at: int): int {
    at % NANOS_PER_DAY / NANOS_PER_HOUR
  }

  /** The weekday moves on by one every 24 hours from a Thursday, and the hour is the one begun since midnight. */
  lemma CalendarExactly(at: int, other: int)
    ensures 0 <= Weekday(at) < 7 && Weekday(0) == 4
    ensures DayOf(at) == DayOf(other) ==> Weekday(at) == Weekday(other)
    ensures Weekday(at + 24 * 3600 * 1000000000) == (Weekday(at) + 1) % 7
    ensures 0 <= Hour(at) < 24
    ensures var begun := DayOf(at) * (24 * 3600 * 1000000000) + Hour(at) * (3600 * 1000000000);
            begun <= at < begun + 3600 * 1000000000
  {
    assert DayOf(at + 24 * 3600 * 1000000000) == DayOf(at) + 1;
  }

  predicate InSpan(h: int, span: (int, int)) {
    span.0 <= h < span.1
  }

  predicate Peak(w: PeakWindow, at: int) {
    && 1 <= Weekday(at) <= 5
    && DayOf(at) !in w.offPeakDays
    && exists s :: s in w.hours && InSpan(Hour(at), s)
  }

  method IsPeak(w: PeakWindow, at: int) returns (peak: bool)
    ensures peak == Peak(w, at)
    ensures peak <==> Weekday(at) != 0 && Weekday(at) != 6 && DayOf(at) !in w.offPeakDays
                      && exists i :: 0 <= i < |w.hours| && w.hours[i].0 <= Hour(at) < w.hours[i].1
  {
    var d := Weekday(at);
    if d == 6 || d == 0 {
      return false;
    }
    if DayOf(at) in w.offPeakDays {
      return false;
    }
    var h := Hour(at);
    for i := 0 to |w.hours|
      invariant forall k :: 0 <= k < i ==> !InSpan(h, w.hours[k])
    {
      if h >= w.hours[i].0 && h < w.hours[i].1 {
        assert w.hours[i] in w.hours;
        return true;
      }
    }
    return false;
  }

  /** A model's rates; an absent one is a class that cannot be priced. */
  datatype Rate = Rate(input: Option<real>, output: Option<real>, cacheWrite5m: Option<real>,
                       cacheWrite1h: Option<real>, cacheRead: Option<real>, fastInput: Option<real>,
                       fastOutput: Option<real>, source: CostSource, peak: Option<PeakWindow>)

  type Table = map<string, Rate>

  /** The counts a price depends on; `ttlUnknown` says the cache writes' lifetime had to be guessed. */
  datatype Usage = Usage(tokens: Tokens, ttlUnknown: bool)

  datatype Price = NoPrice | Price(usd: real, source: CostSource)

  // ---------- the closed form ----------

  /** The five billed classes; thinking tokens are part of the output and never billed again. */
  function Classes(r: Rate, t: Tokens, speed: string): seq<(int, Option<real>)> {
    var fast := speed == "fast" && r.fastInput.Some?;
    [(t.input, if fast then r.fastInput else r.input), (t.output, if fast then r.fastOutput else r.output),
     (t.cacheWrite5m, r.cacheWrite5m), (t.cacheWrite1h, r.cacheWrite1h), (t.cacheRead, r.cacheRead)]
  }

  /** Every class that was used has a rate. */
  predicate Priceable(classes: seq<(int, Option<real>)>) {
    forall i :: 0 <= i < |classes| && classes[i].0 != 0 ==> classes[i].1.Some?
  }

  function Times(a: real, b: real): real {
    a * b
  }

  /** Tokens times rate, summed over the used classes. */
  function Base(classes: seq<(int, Option<real>)>): real {
    if classes == [] then 0.0
    else
      var c := classes[|classes| - 1];
      Base(classes[..|classes| - 1]) + ClassBase(c)
  }

  function ClassBase(c: (int, Option<real>)): real {
    if c.0 != 0 && c.1.Some? then Times(c.0 as real, c.1.value) else 0.0
  }

  /** Batch halves and peak multiplies, each the whole call alike. */
  function Modifier(batch: bool, peak: Option<real>): real {
    if batch then 0.5 * peak.GetOr(1.0) else peak.GetOr(1.0)
  }

  function PeakMultiplier(r: Rate, at: int): Option<real> {
    if r.peak.Some? && Peak(r.peak.value, at) then Some(r.peak.value.multiplier) else None
  }

  function Factor(r: Rate, tier: string, at: int): real {
    Modifier(tier == "batch", PeakMultiplier(r, at))
  }

  /** The exact total: modifiers apply to the whole call alike. */
  function Exact(r: Rate, t: Tokens, speed: string, tier: string, at: int): real {
    Times(Base(Classes(r, t, speed)), Factor(r, tier, at))
  }

  function Priced(table: Table, round: real -> real, model: string, u: Usage, speed: string, tier: string, at: int): Price {
    if model !in table then NoPrice
    else
      var r := table[model];
      if !Priceable(Classes(r, u.tokens, speed)) then NoPrice
      else Price(round(Exact(r, u.tokens, speed, tier, at)), if u.ttlUnknown then CacheTtlUnknown else r.source)
  }

  // ---------- the same, class by class and by name ----------

  function InputRate(r: Rate, speed: string): Option<real> {
    if speed == "fast" && r.fastInput.Some? then r.fastInput else r.input
  }

  /** The fast pair goes together: with a fast input rate it is the fast output rate that counts, absent or not. */
  function OutputRate(r: Rate, speed: string): Option<real> {
    if speed == "fast" && r.fastInput.Some? then r.fastOutput else r.output
  }

  /** So many tokens at a rate; nothing for none. */
  function Charge(n: int, rate: Option<real>): real {
    if n != 0 && rate.Some? then Times(n as real, rate.value) else 0.0
  }

  function Charges(r: Rate, t: Tokens, speed: string): real {
    Charge(t.input, InputRate(r, speed)) + Charge(t.output, OutputRate(r, speed))
    + Charge(t.cacheWrite5m, r.cacheWrite5m) + Charge(t.cacheWrite1h, r.cacheWrite1h) + Charge(t.cacheRead, r.cacheRead)
  }

  /** Every class with tokens in it has a rate of its own. */
  predicate Rated(r: Rate, t: Tokens, speed: string) {
    && (t.input != 0 ==> InputRate(r, speed).Some?) && (t.output != 0 ==> OutputRate(r, speed).Some?)
    && (t.cacheWrite5m != 0 ==> r.cacheWrite5m.Some?) && (t.cacheWrite1h != 0 ==> r.cacheWrite1h.Some?)
    && (t.cacheRead != 0 ==> r.cacheRead.Some?)
  }

  lemma {:induction false} BaseOfFive(a: (int, Option<real>), b: (int, Option<real>), c: (int, Option<real>),
                                      d: (int, Option<real>), e: (int, Option<real>))
    ensures Base([a, b, c, d, e]) == ClassBase(a) + ClassBase(b) + ClassBase(c) + ClassBase(d) + ClassBase(e)
  {
    var all := [a, b, c, d, e];
    assert all[..0] == [] && all[..5] == all;
    BaseNext(all, 0);
    BaseNext(all, 1);
    BaseNext(all, 2);
    BaseNext(all, 3);
    BaseNext(all, 4);
  }

  /** The sum over the classes is the sum of each class's own count at its own rate. */
  lemma ByName(r: Rate, t: Tokens, speed: string)
    ensures Base(Classes(r, t, speed)) == Charges(r, t, speed)
    ensures Priceable(Classes(r, t, speed)) <==> Rated(r, t, speed)
  {
    var all := Classes(r, t, speed);
    BaseOfFive(all[0], all[1], all[2], all[3], all[4]);
    assert all == [all[0], all[1], all[2], all[3], all[4]];
    forall i | Rated(r, t, speed) && 0 <= i < |all| && all[i].0 != 0
      ensures all[i].1.Some?
    {
    }
    if Priceable(all) {
      assert all[0] == (t.input, InputRate(r, speed)) && all[1] == (t.output, OutputRate(r, speed));
      assert all[2] == (t.cacheWrite5m, r.cacheWrite5m) && all[3] == (t.cacheWrite1h, r.cacheWrite1h);
      assert all[4] == (t.cacheRead, r.cacheRead);
    }
  }

  lemma ChargeMore(n: int, more: int, rate: real)
    ensures Charge(n + more, Some(rate)) == Charge(n, Some(rate)) + Times(more as real, rate)
  {
  }

  lemma ScaledMore(base: real, more: real, factor: real)
    ensures Times(base + more, factor) == Times(base, factor) + Times(more, factor)
  {
  }

  /** More tokens of one class cost that many times that class's own rate, times the factor, and no other rate. */
  lemma EachClassAtItsOwnRate(r: Rate, t: Tokens, speed: string, tier: string, at: int, n: int)
    ensures var cost := Times(n as real, r.input.GetOr(0.0));
            speed != "fast" && r.input.Some? ==>
              Exact(r, t.(input := t.input + n), speed, tier, at) == Exact(r, t, speed, tier, at) + Times(cost, Factor(r, tier, at))
    ensures var cost := Times(n as real, r.output.GetOr(0.0));
            speed != "fast" && r.output.Some? ==>
              Exact(r, t.(output := t.output + n), speed, tier, at) == Exact(r, t, speed, tier, at) + Times(cost, Factor(r, tier, at))
    ensures var cost := Times(n as real, r.fastInput.GetOr(0.0));
            speed == "fast" && r.fastInput.Some? ==>
              Exact(r, t.(input := t.input + n), speed, tier, at) == Exact(r, t, speed, tier, at) + Times(cost, Factor(r, tier, at))
    ensures var cost := Times(n as real, r.fastOutput.GetOr(0.0));
            speed == "fast" && r.fastInput.Some? && r.fastOutput.Some? ==>
              Exact(r, t.(output := t.output + n), speed, tier, at) == Exact(r, t, speed, tier, at) + Times(cost, Factor(r, tier, at))
    ensures var cost := Times(n as real, r.cacheWrite5m.GetOr(0.0));
            r.cacheWrite5m.Some? ==>
              Exact(r, t.(cacheWrite5m := t.cacheWrite5m + n), speed, tier, at)
              == Exact(r, t, speed, tier, at) + Times(cost, Factor(r, tier, at))
    ensures var cost := Times(n as real, r.cacheWrite1h.GetOr(0.0));
            r.cacheWrite1h.Some? ==>
              Exact(r, t.(cacheWrite1h := t.cacheWrite1h + n), speed, tier, at)
              == Exact(r, t, speed, tier, at) + Times(cost, Factor(r, tier, at))
    ensures var cost := Times(n as real, r.cacheRead.GetOr(0.0));
            r.cacheRead.Some? ==>
              Exact(r, t.(cacheRead := t.cacheRead + n), speed, tier, at)
              == Exact(r, t, speed, tier, at) + Times(cost, Factor(r, tier, at))
  {
    ByName(r, t, speed);
    var f := Factor(r, tier, at);
    var base := Charges(r, t, speed);
    if InputRate(r, speed).Some? {
      MoreOf(r, t, t.(input := t.input + n), speed, tier, at, t.input, n, InputRate(r, speed).value);
    }
    if OutputRate(r, speed).Some? {
      MoreOf(r, t, t.(output := t.output + n), speed, tier, at, t.output, n, OutputRate(r, speed).value);
    }
    if r.cacheWrite5m.Some? {
      MoreOf(r, t, t.(cacheWrite5m := t.cacheWrite5m + n), speed, tier, at, t.cacheWrite5m, n, r.cacheWrite5m.value);
    }
    if r.cacheWrite1h.Some? {
      MoreOf(r, t, t.(cacheWrite1h := t.cacheWrite1h + n), speed, tier, at, t.cacheWrite1h, n, r.cacheWrite1h.value);
    }
    if r.cacheRead.Some? {
      MoreOf(r, t, t.(cacheRead := t.cacheRead + n), speed, tier, at, t.cacheRead, n, r.cacheRead.value);
    }
  }

  lemma MoreOf(r: Rate, t: Tokens, t': Tokens, speed: string, tier: string, at: int, count: int, n: int, rate: real)
    requires Charges(r, t', speed) == Charges(r, t, speed) - Charge(count, Some(rate)) + Charge(count + n, Some(rate))
    ensures Exact(r, t', speed, tier, at)
         == Exact(r, t, speed, tier, at) + Times(Times(n as real, rate), Factor(r, tier, at))
  {
    ByName(r, t, speed);
    ByName(r, t', speed);
    ChargeMore(count, n, rate);
    ScaledMore(Charges(r, t, speed), Times(n as real, rate), Factor(r, tier, at));
  }

  /** A call without tokens costs nothing, and the rate of a class it did not use does not matter. */
  lemma UnusedIsFree(r: Rate, r': Rate, t: Tokens, speed: string, tier: string, at: int)
    ensures Exact(r, ZERO_TOKENS, speed, tier, at) == 0.0
    ensures r'.peak == r.peak
            && (t.input != 0 ==> InputRate(r', speed) == InputRate(r, speed))
            && (t.output != 0 ==> OutputRate(r', speed) == OutputRate(r, speed))
            && (t.cacheWrite5m != 0 ==> r'.cacheWrite5m == r.cacheWrite5m)
            && (t.cacheWrite1h != 0 ==> r'.cacheWrite1h == r.cacheWrite1h)
            && (t.cacheRead != 0 ==> r'.cacheRead == r.cacheRead) ==>
              Exact(r', t, speed, tier, at) == Exact(r, t, speed, tier, at)
              && (Rated(r', t, speed) <==> Rated(r, t, speed))
  {
    ByName(r, ZERO_TOKENS, speed);
    ByName(r, t, speed);
    ByName(r', t, speed);
  }

  lemma Accumulates(sum: real, base: real, more: real, cost: real, f: real)
    requires sum == Times(base, f) && cost == Times(more, f)
    ensures sum + cost == Times(base + more, f)
  {
  }

  /** One class: tokens times rate, then each modifier on its own. */
  method ClassCost(plain: real, batch: bool, peak: Option<real>) returns (cost: real)
    ensures cost == Times(plain, Modifier(batch, peak))
  {
    cost := plain;
    if batch {
      cost := cost * 0.5;
    }
    if peak.Some? {
      cost := cost * peak.value;
    }
  }

  lemma {:induction false} BaseNext(classes: seq<(int, Option<real>)>, i: nat)
    requires i < |classes|
    ensures Base(classes[..i + 1]) == Base(classes[..i]) + ClassBase(classes[i])
  {
    assert classes[..i + 1][..i] == classes[..i];
  }

  /** The loop of Compute: None once a used class has no rate. */
  method Total(classes: seq<(int, Option<real>)>, batch: bool, peak: Option<real>) returns (total: Option<real>)
    ensures total.Some? <==> Priceable(classes)
    ensures total.Some? ==> total.value == Times(Base(classes), Modifier(batch, peak))
  {
    var sum := 0.0;
    ghost var f := Modifier(batch, peak);
    assert classes[..0] == [];
    for i := 0 to |classes|
      invariant forall k :: 0 <= k < i && classes[k].0 != 0 ==> classes[k].1.Some?
      invariant sum == Times(Base(classes[..i]), f)
    {
      BaseNext(classes, i);
      if classes[i].0 == 0 {
        continue;
      }
      if classes[i].1.None? {
        return None;
      }
      var cost := ClassCost(ClassBase(classes[i]), batch, peak);
      Accumulates(sum, Base(classes[..i]), ClassBase(classes[i]), cost, f);
      sum := sum + cost;
    }
    assert classes[..|classes|] == classes;
    total := Some(sum);
  }

  /** Compute. */
  method Compute(table: Table, round: real -> real, model: string, u: Usage, speed: string, tier: string, at: int)
    returns (p: Price)
    ensures p == Priced(table, round, model, u, speed, tier, at)
    ensures p.Price? <==> model in table && Rated(table[model], u.tokens, speed)
    ensures p.Price? ==> p.usd == round(Times(Charges(table[model], u.tokens, speed), Factor(table[model], tier, at)))
  {
    if model in table {
      ByName(table[model], u.tokens, speed);
    }
    if model !in table {
      return NoPrice;
    }
    var r := table[model];
    var peak: Option<real> := None;
    if r.peak.Some? {
      var isPeak := IsPeak(r.peak.value, at);
      if isPeak {
        peak := Some(r.peak.value.multiplier);
      }
    }
    var total := Total(Classes(r, u.tokens, speed), tier == "batch", peak);
    if total.None? {
      return NoPrice;
    }
    assert peak == PeakMultiplier(r, at);
    assert total.value == Exact(r, u.tokens, speed, tier, at);
    p := Price(round(total.value), if u.ttlUnknown then CacheTtlUnknown else r.source);
  }

  // ---------- what a price means ----------

  /** A call has a price exactly when its model is in the table and every class it used has a rate. */
  lemma PricedExactly(table: Table, round: real -> real, model: string, u: Usage, speed: string, tier: string, at: int)
    ensures Priced(table, round, model, u, speed, tier, at) == NoPrice <==>
              model !in table || !Rated(table[model], u.tokens, speed)
  {
    if model in table {
      ByName(table[model], u.tokens, speed);
    }
  }

  /** A batch call costs exactly half, and a peak call exactly the multiple, of the same call without. */
  lemma ModifiersExact(r: Rate, t: Tokens, speed: string, tier: string, at: int, off: int)
    requires tier != "batch" && !(r.peak.Some? && Peak(r.peak.value, off))
    ensures Exact(r, t, speed, tier, off) == Charges(r, t, speed)
    ensures Exact(r, t, speed, "batch", off) == Charges(r, t, speed) * 0.5
    ensures r.peak.Some? && Peak(r.peak.value, at) ==>
              && Exact(r, t, speed, tier, at) == Charges(r, t, speed) * r.peak.value.multiplier
              && Exact(r, t, speed, "batch", at) == Charges(r, t, speed) * (0.5 * r.peak.value.multiplier)
  {
    ByName(r, t, speed);
    assert Factor(r, tier, off) == 1.0 && Factor(r, "batch", off) == 0.5;
    if r.peak.Some? && Peak(r.peak.value, at) {
      assert Factor(r, tier, at) == r.peak.value.multiplier;
      assert Factor(r, "batch", at) == 0.5 * r.peak.value.multiplier;
    }
  }

  /** The lifetime guess changes the label only, and thinking tokens change nothing. */
  lemma LabelOnly(table: Table, round: real -> real, model: string, t: Tokens, thinking: int, speed: string,
                  tier: string, at: int)
    ensures var known := Priced(table, round, model, Usage(t, false), speed, tier, at);
            var guessed := Priced(table, round, model, Usage(t.(thinking := thinking), true), speed, tier, at);
            match known
            case NoPrice => guessed == NoPrice
            case Price(usd, source) => guessed == Price(usd, CacheTtlUnknown) && source == table[model].source
  {
    if model in table {
      var r, t' := table[model], t.(thinking := thinking);
      assert Classes(r, t, speed) == Classes(r, t', speed);
      assert Exact(r, t, speed, tier, at) == Exact(r, t', speed, tier, at);
    }
  }

  // ---------- local calls ----------

  const LOCAL_PRICE_MODEL: string := "deepseek-flash"

  /** 2026-10-24 12:00 UTC. */
  const LOCAL_PRICE_AT: int := 1792843200000000000

  /** The instant local calls are priced at is a Saturday: no window ever counts it as peak. */
  lemma LocalNeverPeak(w: PeakWindow)
    ensures !Peak(w, LOCAL_PRICE_AT)
  {
    assert DayOf(LOCAL_PRICE_AT) == 20750;
  }
}
