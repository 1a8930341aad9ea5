/** The reading generator of SimulationEngine: a point's configuration and
    the value one simulated reading takes under it (simular_valor). The
    random module is replaced by the samples it would have produced. */
module Generator {

  const STATUS_ACTIVE := "activo"
  const STATUS_INACTIVE := "inactivo"
  const RULE_CONSTANT := "constante"
  const RULE_RANGE := "rango"
  const RULE_PROBABILISTIC := "probabilistico"

  /** One point's configuration dictionary. Status and rule are free text,
      as the editable combo boxes that set them allow any text. */
  datatype PointConfig = PointConfig(
    status: string,
    rule: string,
    min: real,
    max: real,
    constant: real,
    prob: real)

  /** The configuration every point starts with. */
  const DEFAULT_CONFIG := PointConfig(STATUS_ACTIVE, RULE_RANGE, 10.0, 100.0, 50.0, 80.0)

  /** The random.random() samples one call of simular_valor may consume:
      `first` feeds its first random.uniform call, `second` its second
      (only the probabilistic rule makes two). */
  datatype Draw = Draw(first: real, second: real)

  predicate IsUnitSample(u: real) {
    0.0 <= u <= 1.0
  }

  /** random.uniform(a, b) for the sample u, as the library defines it. */
  function Uniform(a: real, b: real, u: real): real {
    a + (b - a) * u
  }

  /** x is a whole number of hundredths. */
  predicate IsCents(x: real) {
    (x * 100.0).Floor as real == x * 100.0
  }

  /** round(x, 2), rounding halves up. */
  function Round2(x: real): (r: real)
    ensures IsCents(r)
    ensures x - 0.005 < r <= x + 0.005
  {
    ((x * 100.0 + 0.5).Floor as real) / 100.0
  }

  /** simular_valor. The hour is accepted but not consulted: the source keeps
      one configuration per point for every hour. */
  function SimulateValue(cfg: PointConfig, hour: int, d: Draw): real {
    if cfg.status == STATUS_INACTIVE then 0.0
    else if cfg.rule == RULE_CONSTANT then cfg.constant
    else if cfg.rule == RULE_RANGE then Round2(Uniform(cfg.min, cfg.max, d.first))
    else if cfg.rule == RULE_PROBABILISTIC then
      (if Uniform(0.0, 100.0, d.first) <= cfg.prob then Round2(Uniform(0.0, cfg.max, d.second)) else 0.0)
    else 0.0
  }

  /** An inactive point yields 0, the constant rule its constant, an unknown
      rule 0, and the two random rules whole hundredths. */
  lemma SimulateValueCases(cfg: PointConfig, hour: int, d: Draw)
    ensures var v := SimulateValue(cfg, hour, d);
      && (cfg.status == STATUS_INACTIVE ==> v == 0.0)
      && (cfg.status != STATUS_INACTIVE && cfg.rule == RULE_CONSTANT ==> v == cfg.constant)
      && (cfg.rule !in {RULE_CONSTANT, RULE_RANGE, RULE_PROBABILISTIC} ==> v == 0.0)
      && (cfg.rule in {RULE_RANGE, RULE_PROBABILISTIC} ==> IsCents(v))
  {
  }

  /** The configuration save_point_config stores from the form: the first
      entry is the constant, the minimum or the probability, the second the
      maximum, each only for the rule that uses it and 0 otherwise. */
  function ConfigFromForm(status: string, rule: string, p1: real, p2: real): PointConfig {
    PointConfig(
      status,
      rule,
      if rule == RULE_RANGE then p1 else 0.0,
      if rule == RULE_RANGE || rule == RULE_PROBABILISTIC then p2 else 0.0,
      if rule == RULE_CONSTANT then p1 else 0.0,
      if rule == RULE_PROBABILISTIC then p1 else 0.0)
  }

  function Min(a: real, b: real): real {
    if a <= b then a else b
  }

  function Max(a: real, b: real): real {
    if a <= b then b else a
  }

  lemma ScaleBetween(c: real, u: real)
    requires IsUnitSample(u)
    ensures Min(0.0, c) <= c * u <= Max(0.0, c)
  {
    if c >= 0.0 {
      assert c * u <= c * 1.0;
    } else {
      assert (-c) * u <= (-c) * 1.0;
    }
  }

  /** random.uniform stays between its bounds, whichever is larger. */
  lemma UniformBetween(a: real, b: real, u: real)
    requires IsUnitSample(u)
    ensures Min(a, b) <= Uniform(a, b, u) <= Max(a, b)
  {
    ScaleBetween(b - a, u);
  }

  lemma Round2Monotone(x: real, y: real)
    requires x <= y
    ensures Round2(x) <= Round2(y)
  {
    assert (x * 100.0 + 0.5).Floor <= (y * 100.0 + 0.5).Floor;
  }

  lemma Round2KeepsCents(x: real)
    requires IsCents(x)
    ensures Round2(x) == x
  {
    var k := (x * 100.0).Floor;
    assert x * 100.0 + 0.5 == k as real + 0.5;
    assert (x * 100.0 + 0.5).Floor == k;
  }

  /** Rounding a value between two whole-hundredth bounds stays between them. */
  lemma Round2Between(lo: real, x: real, hi: real)
    requires IsCents(lo) && IsCents(hi) && lo <= x <= hi
    ensures lo <= Round2(x) <= hi
  {
    Round2Monotone(lo, x);
    Round2Monotone(x, hi);
    Round2KeepsCents(lo);
    Round2KeepsCents(hi);
  }

  /** The range rule yields the draw rounded to hundredths: within half a
      hundredth of a value between min and max, and between min and max
      themselves when they are whole hundredths. */
  lemma RangeWithinBounds(cfg: PointConfig, hour: int, d: Draw)
    requires cfg.status != STATUS_INACTIVE && cfg.rule == RULE_RANGE
    requires IsUnitSample(d.first)
    ensures var x := Uniform(cfg.min, cfg.max, d.first);
      Min(cfg.min, cfg.max) <= x <= Max(cfg.min, cfg.max)
      && x - 0.005 < SimulateValue(cfg, hour, d) <= x + 0.005
    ensures IsCents(cfg.min) && IsCents(cfg.max) ==>
      Min(cfg.min, cfg.max) <= SimulateValue(cfg, hour, d) <= Max(cfg.min, cfg.max)
  {
    var x := Uniform(cfg.min, cfg.max, d.first);
    UniformBetween(cfg.min, cfg.max, d.first);
    if IsCents(cfg.min) && IsCents(cfg.max) {
      Round2Between(Min(cfg.min, cfg.max), x, Max(cfg.min, cfg.max));
    }
  }

  /** The probabilistic rule: the gate draw uniform(0, 100) accepts exactly
      when the first sample is at most prob / 100 (so with probability
      prob / 100 for 0 <= prob <= 100); a rejected draw yields 0, an accepted
      one a rounded value between 0 and max. */
  lemma ProbabilisticOutcome(cfg: PointConfig, hour: int, d: Draw)
    requires cfg.status != STATUS_INACTIVE && cfg.rule == RULE_PROBABILISTIC
    ensures (Uniform(0.0, 100.0, d.first) <= cfg.prob) <==> d.first <= cfg.prob / 100.0
    ensures d.first > cfg.prob / 100.0 ==> SimulateValue(cfg, hour, d) == 0.0
    ensures SimulateValue(cfg, hour, d) != 0.0 ==> d.first <= cfg.prob / 100.0
    ensures IsUnitSample(d.second) && IsCents(cfg.max) ==>
      Min(0.0, cfg.max) <= SimulateValue(cfg, hour, d) <= Max(0.0, cfg.max)
  {
    if IsUnitSample(d.second) && IsCents(cfg.max) {
      var x := Uniform(0.0, cfg.max, d.second);
      UniformBetween(0.0, cfg.max, d.second);
      assert IsCents(0.0);
      Round2Between(Min(0.0, cfg.max), x, Max(0.0, cfg.max));
    }
  }

  /** What the two form entries mean once saved: the first is the constant
      the point yields, or the lower bound of its range, or its acceptance
      percentage; the second is the upper bound of the range or of the
      probabilistic value. */
  lemma FormEntriesMeaning(status: string, p1: real, p2: real, hour: int, d: Draw)
    requires status != STATUS_INACTIVE && IsUnitSample(d.first) && IsUnitSample(d.second)
    requires IsCents(p1) && IsCents(p2)
    ensures SimulateValue(ConfigFromForm(status, RULE_CONSTANT, p1, p2), hour, d) == p1
    ensures Min(p1, p2) <= SimulateValue(ConfigFromForm(status, RULE_RANGE, p1, p2), hour, d) <= Max(p1, p2)
    ensures var v := SimulateValue(ConfigFromForm(status, RULE_PROBABILISTIC, p1, p2), hour, d);
      (d.first > p1 / 100.0 ==> v == 0.0) && Min(0.0, p2) <= v <= Max(0.0, p2)
  {
    RangeWithinBounds(ConfigFromForm(status, RULE_RANGE, p1, p2), hour, d);
    ProbabilisticOutcome(ConfigFromForm(status, RULE_PROBABILISTIC, p1, p2), hour, d);
  }

  /** Under the starting configuration every reading lies in [10, 100]. */
  lemma DefaultReadingInRange(hour: int, d: Draw)
    requires IsUnitSample(d.first)
    ensures 10.0 <= SimulateValue(DEFAULT_CONFIG, hour, d) <= 100.0
  {
    assert IsCents(10.0) && IsCents(100.0);
    RangeWithinBounds(DEFAULT_CONFIG, hour, d);
  }
}
