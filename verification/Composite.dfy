/** The composite score (snapshot_quant_v4/engine/composite.py): a mean of the
    usable features weighted by table weight and confidence, with joint caps on
    groups of near-duplicate features. */
module Composite {
  import opened Prelude
  import opened TimeAwareEmas
  import RegimeDetection

  datatype FeatureValue = FeatureValue(directional: bool, valid: bool, value: real, confidence: real)

  /** A dictionary of features with its insertion order. */
  datatype Features = Features(order: seq<string>, at: map<string, FeatureValue>)

  predicate WellFormed(f: Features) {
    Keyed(f.at, f.order)
  }

  predicate Keyed<T>(m: map<string, T>, names: seq<string>) {
    forall i :: 0 <= i < |names| ==> names[i] in m
  }

  type Weights = map<string, real>

  /** Features whose joint weight is capped. A name may be repeated, absent, or
      in several groups. */
  datatype Group = Group(names: seq<string>, cap: real)

  datatype CompositeConfig = CompositeConfig(
    weights: map<RegimeDetection.Regime, Weights>,
    firstTable: Weights,
    minFeatures: int,
    minConfidence: real,
    groups: seq<Group>)

  /** The range checks of snapshot_quant_v4/config.py:845-864. */
  predicate ValidConfig(c: CompositeConfig) {
    && 1 <= c.minFeatures
    && 0.0 <= c.minConfidence <= 1.0
    && forall i :: 0 <= i < |c.groups| ==> 0.0 <= c.groups[i].cap <= 10.0
  }

  /** The table of a regime, else that of Unknown, else the first one. */
  function WeightsFor(c: CompositeConfig, regime: RegimeDetection.Regime): Weights {
    if regime in c.weights then c.weights[regime]
    else if RegimeDetection.Unknown in c.weights then c.weights[RegimeDetection.Unknown]
    else c.firstTable
  }

  function Get(table: Weights, name: string): real {
    if name in table then table[name] else 0.0
  }

  // -- the weights --------------------------------------------------------------

  predicate Votes(f: Features, table: Weights, name: string)
    requires name in f.at
  {
    f.at[name].directional && f.at[name].valid && Get(table, name) > 0.0
  }

  /** The valid directional features among the first ones listed that the table
      gives a positive weight. */
  function Voters(f: Features, table: Weights, names: seq<string>): (voters: seq<string>)
    requires Keyed(f.at, names)
    ensures Keyed(f.at, voters)
    ensures forall i :: 0 <= i < |voters| ==> Votes(f, table, voters[i])
  {
    if names == [] then []
    else
      var n := |names| - 1;
      Voters(f, table, names[..n]) + if Votes(f, table, names[n]) then [names[n]] else []
  }

  function TableWeights(table: Weights, names: seq<string>): (w: Weights)
    ensures Keyed(w, names)
  {
    map name | name in names :: Get(table, name)
  }

  function Mass(w: Weights, names: seq<string>): real
    requires Keyed(w, names)
  {
    if names == [] then 0.0
    else
      var n := |names| - 1;
      Mass(w, names[..n]) + w[names[n]]
  }

  function Present(w: Weights, names: seq<string>): (members: seq<string>)
    ensures Keyed(w, members)
  {
    if names == [] then []
    else
      var n := |names| - 1;
      Present(w, names[..n]) + if names[n] in w then [names[n]] else []
  }

  /** Every listed weight times the scale, a repeated name once per mention. */
  function Rescaled(w: Weights, members: seq<string>, scale: real): (r: Weights)
    requires Keyed(w, members)
    ensures r.Keys == w.Keys
  {
    if members == [] then w
    else
      var n := |members| - 1;
      var r := Rescaled(w, members[..n], scale);
      r[members[n] := Product(r[members[n]], scale)]
  }

  function CapGroup(w: Weights, g: Group, total: real): (r: Weights)
    ensures r.Keys == w.Keys
  {
    var members := Present(w, g.names);
    var allowed := Product(g.cap, total);
    if |members| < 2 || Mass(w, members) <= allowed || Mass(w, members) <= 0.0 then w
    else Rescaled(w, members, allowed / Mass(w, members))
  }

  function CapAll(w: Weights, groups: seq<Group>, total: real): (r: Weights)
    ensures r.Keys == w.Keys
  {
    if groups == [] then w
    else
      var n := |groups| - 1;
      CapGroup(CapAll(w, groups[..n], total), groups[n], total)
  }

  function Effective(c: CompositeConfig, table: Weights, voters: seq<string>): (w: Weights)
    ensures Keyed(w, voters)
  {
    var w := TableWeights(table, voters);
    CapAll(w, c.groups, Mass(w, voters))
  }

  // -- what the caps guarantee --------------------------------------------------

  ghost predicate NonNegative(w: Weights) {
    forall name :: name in w ==> 0.0 <= w[name]
  }

  /** No weight is raised and none turns negative. */
  ghost predicate Lowered(r: Weights, w: Weights) {
    r.Keys == w.Keys && forall name :: name in w ==> 0.0 <= r[name] <= w[name]
  }

  lemma {:induction false} MassLowered(r: Weights, w: Weights, names: seq<string>)
    requires Lowered(r, w) && Keyed(w, names)
    ensures 0.0 <= Mass(r, names) <= Mass(w, names)
  {
    if names != [] {
      MassLowered(r, w, names[..|names| - 1]);
    }
  }

  lemma {:induction false} RescaledLowers(w: Weights, members: seq<string>, scale: real)
    requires Keyed(w, members) && NonNegative(w) && 0.0 <= scale <= 1.0
    ensures var r := Rescaled(w, members, scale);
      && Lowered(r, w)
      && forall i :: 0 <= i < |members| ==> r[members[i]] <= Product(w[members[i]], scale)
  {
    hide Product;
    if members != [] {
      var n := |members| - 1;
      RescaledLowers(w, members[..n], scale);
      var before := Rescaled(w, members[..n], scale);
      ScaledDown(before[members[n]], w[members[n]], scale);
      assert forall i :: 0 <= i < n ==> before[members[..n][i]] <= Product(w[members[..n][i]], scale);
    }
  }

  lemma ScaledDown(x: real, y: real, scale: real)
    requires 0.0 <= x <= y && 0.0 <= scale <= 1.0
    ensures 0.0 <= Product(x, scale) <= x && Product(x, scale) <= Product(y, scale)
  {
    PartOf(scale, x);
    MulMonotone(scale, x, y);
  }

  lemma {:induction false} MassScaled(r: Weights, w: Weights, names: seq<string>, scale: real)
    requires Keyed(w, names) && Keyed(r, names)
    requires forall i :: 0 <= i < |names| ==> r[names[i]] <= Product(w[names[i]], scale)
    ensures Mass(r, names) <= Product(Mass(w, names), scale)
  {
    if names != [] {
      var n := |names| - 1;
      assert forall i :: 0 <= i < n ==> r[names[..n][i]] <= Product(w[names[..n][i]], scale);
      MassScaled(r, w, names[..n], scale);
    }
  }

  lemma {:induction false} PresentDependsOnKeys(r: Weights, w: Weights, names: seq<string>)
    requires r.Keys == w.Keys
    ensures Present(r, names) == Present(w, names)
  {
    if names != [] {
      PresentDependsOnKeys(r, w, names[..|names| - 1]);
      assert names[|names| - 1] in r <==> names[|names| - 1] in w;
    }
  }

  /** One cap lowers weights only, and leaves its group within the allowance. */
  lemma {:induction false} CapGroupLimits(w: Weights, g: Group, total: real)
    requires NonNegative(w) && 0.0 <= g.cap && 0.0 <= total
    ensures Lowered(CapGroup(w, g, total), w)
    ensures var members := Present(w, g.names);
      |members| >= 2 ==>
        Keyed(CapGroup(w, g, total), members) && Mass(CapGroup(w, g, total), members) <= Product(g.cap, total)
  {
    hide Present, Mass, Rescaled;
    var members, allowed := Present(w, g.names), Product(g.cap, total);
    assert 0.0 <= allowed;
    if |members| >= 2 && Mass(w, members) > allowed {
      var scale := allowed / Mass(w, members);
      QuotientInUnit(allowed, Mass(w, members));
      RescaledLowers(w, members, scale);
      MassScaled(Rescaled(w, members, scale), w, members, scale);
    }
  }

  lemma QuotientInUnit(x: real, y: real)
    requires 0.0 <= x < y
    ensures 0.0 <= x / y <= 1.0 && y * (x / y) == x
  {
    var q := x / y;
    assert y * q == x;
    assert q < 0.0 ==> y * q < 0.0;
    assert q > 1.0 ==> y * (q - 1.0) > 0.0;
  }

  lemma {:induction false} CapsOnlyLower(w: Weights, groups: seq<Group>, total: real)
    requires NonNegative(w) && 0.0 <= total
    requires forall i :: 0 <= i < |groups| ==> 0.0 <= groups[i].cap
    ensures Lowered(CapAll(w, groups, total), w)
  {
    hide CapGroup;
    if groups != [] {
      var n := |groups| - 1;
      CapsOnlyLower(w, groups[..n], total);
      CapGroupLimits(CapAll(w, groups[..n], total), groups[n], total);
    }
  }

  /** Every capped group with at least two present members, overlapping or not,
      ends with at most its share of the total before any capping. */
  lemma {:induction false} EveryGroupEndsCapped(w: Weights, groups: seq<Group>, total: real, k: nat)
    requires NonNegative(w) && 0.0 <= total && k < |groups|
    requires forall i :: 0 <= i < |groups| ==> 0.0 <= groups[i].cap
    requires |Present(w, groups[k].names)| >= 2
    ensures Keyed(CapAll(w, groups, total), Present(w, groups[k].names))
    ensures Mass(CapAll(w, groups, total), Present(w, groups[k].names)) <= Product(groups[k].cap, total)
  {
    hide CapGroup, Present, Mass;
    var n := |groups| - 1;
    var before, members := CapAll(w, groups[..n], total), Present(w, groups[k].names);
    CapsOnlyLower(w, groups[..n], total);
    CapGroupLimits(before, groups[n], total);
    if k == n {
      PresentDependsOnKeys(before, w, groups[k].names);
    } else {
      EveryGroupEndsCapped(w, groups[..n], total, k);
      MassLowered(CapAll(w, groups, total), before, members);
    }
  }

  ghost predicate Distinct(names: seq<string>) {
    forall i, j :: 0 <= i < j < |names| ==> names[i] != names[j]
  }

  lemma {:induction false} RescaledExactly(w: Weights, members: seq<string>, scale: real, name: string)
    requires Keyed(w, members) && Distinct(members) && name in w
    ensures Rescaled(w, members, scale)[name] == if name in members then Product(w[name], scale) else w[name]
  {
    if members != [] {
      var n := |members| - 1;
      RescaledExactly(w, members[..n], scale, name);
      assert members == members[..n] + [members[n]];
      assert members[n] !in members[..n];
    }
  }

  /** A group of distinct features is cut to its allowance exactly, never below,
      keeping the proportions inside it; nothing outside it moves. */
  lemma {:induction false} CapIsTight(w: Weights, g: Group, total: real)
    requires NonNegative(w) && 0.0 <= g.cap && 0.0 <= total
    requires var members := Present(w, g.names); Distinct(members) && |members| >= 2
    ensures var members, r := Present(w, g.names), CapGroup(w, g, total);
      && Keyed(r, members)
      && Mass(r, members) == MinReal(Product(g.cap, total), Mass(w, members))
      && (forall a, b :: 0 <= a < |members| && 0 <= b < |members| ==>
            r[members[a]] * w[members[b]] == r[members[b]] * w[members[a]])
      && (forall name :: name in w && name !in members ==> r[name] == w[name])
  {
    hide Present, Mass, Rescaled;
    var members, allowed, r := Present(w, g.names), Product(g.cap, total), CapGroup(w, g, total);
    assert 0.0 <= allowed;
    if Mass(w, members) > allowed {
      var scale := allowed / Mass(w, members);
      QuotientInUnit(allowed, Mass(w, members));
      forall name | name in w
        ensures r[name] == if name in members then Product(w[name], scale) else w[name]
      {
        RescaledExactly(w, members, scale, name);
      }
      assert forall i :: 0 <= i < |members| ==> members[i] in members;
      MassScaledExactly(r, w, members, scale);
      forall a, b | 0 <= a < |members| && 0 <= b < |members|
        ensures r[members[a]] * w[members[b]] == r[members[b]] * w[members[a]]
      {
        Swap(w[members[a]], w[members[b]], scale);
      }
    }
  }

  /** A voter of no group goes into the score with its table weight. */
  lemma {:induction false} UngroupedKeepTheirWeight(
      c: CompositeConfig, table: Weights, voters: seq<string>, name: string)
    requires name in voters && forall i :: 0 <= i < |c.groups| ==> name !in c.groups[i].names
    ensures Effective(c, table, voters)[name] == Get(table, name)
  {
    CapsPassBy(TableWeights(table, voters), c.groups, Mass(TableWeights(table, voters), voters), name);
  }

  lemma {:induction false} CapsPassBy(w: Weights, groups: seq<Group>, total: real, name: string)
    requires name in w && forall i :: 0 <= i < |groups| ==> name !in groups[i].names
    ensures CapAll(w, groups, total)[name] == w[name]
  {
    hide Mass, Present, Rescaled;
    if groups != [] {
      var n := |groups| - 1;
      CapsPassBy(w, groups[..n], total, name);
      var before := CapAll(w, groups[..n], total);
      var members := Present(before, groups[n].names);
      PresentAreListed(before, groups[n].names);
      if |members| >= 2 && Mass(before, members) > 0.0 {
        OthersAreNotScaled(before, members, Product(groups[n].cap, total) / Mass(before, members), name);
      }
    }
  }

  lemma {:induction false} PresentAreListed(w: Weights, names: seq<string>)
    ensures forall name :: name in Present(w, names) ==> name in names
  {
    if names != [] {
      PresentAreListed(w, names[..|names| - 1]);
    }
  }

  lemma {:induction false} OthersAreNotScaled(w: Weights, members: seq<string>, scale: real, name: string)
    requires Keyed(w, members) && name in w && name !in members
    ensures Rescaled(w, members, scale)[name] == w[name]
  {
    if members != [] {
      OthersAreNotScaled(w, members[..|members| - 1], scale, name);
    }
  }

  lemma Swap(a: real, b: real, scale: real)
    ensures a * scale * b == b * scale * a
  {
  }

  lemma {:induction false} MassScaledExactly(r: Weights, w: Weights, names: seq<string>, scale: real)
    requires Keyed(w, names) && Keyed(r, names)
    requires forall i :: 0 <= i < |names| ==> r[names[i]] == Product(w[names[i]], scale)
    ensures Mass(r, names) == Product(Mass(w, names), scale)
  {
    if names != [] {
      var n := |names| - 1;
      assert forall i :: 0 <= i < n ==> r[names[..n][i]] == Product(w[names[..n][i]], scale);
      MassScaledExactly(r, w, names[..n], scale);
    }
  }

  lemma {:induction false} VotersWeighSomething(f: Features, table: Weights, voters: seq<string>)
    requires Keyed(f.at, voters) && forall i :: 0 <= i < |voters| ==> Votes(f, table, voters[i])
    ensures NonNegative(TableWeights(table, voters))
    ensures voters == [] ==> Mass(TableWeights(table, voters), voters) == 0.0
    ensures voters != [] ==> Mass(TableWeights(table, voters), voters) > 0.0
  {
    var w := TableWeights(table, voters);
    forall name | name in w
      ensures 0.0 < w[name]
    {
      var i :| 0 <= i < |voters| && voters[i] == name;
      assert Votes(f, table, voters[i]);
    }
    MassOfPositive(w, voters);
  }

  lemma {:induction false} MassOfPositive(w: Weights, names: seq<string>)
    requires Keyed(w, names) && forall name :: name in w ==> 0.0 < w[name]
    ensures 0.0 <= Mass(w, names) && (names != [] ==> 0.0 < Mass(w, names))
  {
    if names != [] {
      MassOfPositive(w, names[..|names| - 1]);
    }
  }

  lemma {:induction false} EffectiveIsNonNegative(c: CompositeConfig, f: Features, table: Weights)
    requires ValidConfig(c) && WellFormed(f)
    ensures NonNegative(Effective(c, table, Voters(f, table, f.order)))
  {
    hide Voters, CapAll, Mass;
    var voters := Voters(f, table, f.order);
    VotersWeighSomething(f, table, voters);
    CapsOnlyLower(TableWeights(table, voters), c.groups, Mass(TableWeights(table, voters), voters));
  }

  // -- the score ----------------------------------------------------------------

  /** Running totals of the accumulation loop. */
  datatype Tally = Tally(numerator: real, mass: real, weight: real, used: nat)

  const NOTHING := Tally(0.0, 0.0, 0.0, 0)

  function Add(t: Tally, value: real, weight: real, confidence: real): Tally {
    var mass := Product(weight, confidence);
    if mass <= 0.0 then t
    else Tally(t.numerator + Product(value, mass), t.mass + mass, t.weight + weight, t.used + 1)
  }

  function TallyOf(f: Features, w: Weights, names: seq<string>): (t: Tally)
    requires Keyed(f.at, names) && Keyed(w, names)
    ensures t.used > 0 ==> t.mass > 0.0
    ensures t.used == 0 ==> t == NOTHING
  {
    if names == [] then NOTHING
    else
      var n := |names| - 1;
      Add(TallyOf(f, w, names[..n]), f.at[names[n]].value, w[names[n]], f.at[names[n]].confidence)
  }

  datatype CompositeScore = CompositeScore(
    score: real,
    smoothed: real,
    confidence: real,
    weightMass: real,
    used: nat,
    valid: bool)

  const EMPTY := CompositeScore(0.0, 0.0, 0.0, 0.0, 0, false)

  /** The result for the given totals, and the smoother after it. */
  function Judged(c: CompositeConfig, decay: real -> real, maxDt: real, t: Tally, e: Ema, dt: real)
    : (CompositeScore, Ema)
    requires 1 <= c.minFeatures && (t.used > 0 ==> t.mass > 0.0)
  {
    var confidence := SafeDiv(t.mass, t.weight);
    if t.used < c.minFeatures || confidence < c.minConfidence then
      (CompositeScore(0.0, e.value, confidence, t.mass, t.used, false), e)
    else
      var score := ClampUnit(t.numerator / t.mass);
      var after := Observe(decay, maxDt, e, score, dt);
      (CompositeScore(score, ClampUnit(after.value), confidence, t.mass, t.used, true), after)
  }

  /** One snapshot scored with one weight table. */
  function Assess(c: CompositeConfig, decay: real -> real, maxDt: real, f: Features, table: Weights, e: Ema, dt: real)
    : (CompositeScore, Ema)
    requires ValidConfig(c) && WellFormed(f)
  {
    var voters := Voters(f, table, f.order);
    if voters == [] then (EMPTY, e)
    else Judged(c, decay, maxDt, TallyOf(f, Effective(c, table, voters), voters), e, dt)
  }

  class CompositeScorer {
    const config: CompositeConfig
    const smoother: TimeAwareEMA

    ghost predicate Valid()
      reads this, smoother
    {
      ValidConfig(config) && smoother.Valid()
    }

    constructor (config: CompositeConfig, decay: real -> real, maxDt: real)
      requires ValidConfig(config) && Exponential(decay) && 0.0 < maxDt
      ensures Valid() && this.config == config && smoother.State() == EMPTY_EMA
      ensures smoother.decay == decay && smoother.maxDt == maxDt
      ensures fresh(smoother)
    {
      this.config := config;
      smoother := new TimeAwareEMA(decay, maxDt, 1);
    }

    method Reset()
      requires Valid()
      modifies smoother
      ensures Valid() && smoother.State() == EMPTY_EMA
    {
      smoother.Reset();
    }

    method Score(f: Features, regime: RegimeDetection.Regime, dt: real) returns (r: CompositeScore)
      requires Valid() && WellFormed(f)
      modifies smoother
      ensures Valid()
      ensures (r, smoother.State())
           == Assess(config, smoother.decay, smoother.maxDt, f, WeightsFor(config, regime), old(smoother.State()), dt)
    {
      hide Exponential, Voters, Effective, Product, ClampUnit, Observe;
      var names, weights := EffectiveWeights(f, regime);
      if names == [] {
        return EMPTY;
      }
      var numerator, weightMass, contributing, used := 0.0, 0.0, 0.0, 0;
      for k := 0 to |names|
        invariant Tally(numerator, weightMass, contributing, used) == TallyOf(f, weights, names[..k])
      {
        assert names[..k + 1][..k] == names[..k];
        var feature, weight := f.at[names[k]], weights[names[k]];
        var mass := Product(weight, feature.confidence);
        if mass > 0.0 {
          numerator := numerator + Product(feature.value, mass);
          weightMass := weightMass + mass;
          contributing := contributing + weight;
          used := used + 1;
        }
      }
      assert names[..|names|] == names;
      var confidence := SafeDiv(weightMass, contributing);
      if used < config.minFeatures || confidence < config.minConfidence {
        return CompositeScore(0.0, smoother.value, confidence, weightMass, used, false);
      }
      var score := ClampUnit(numerator / weightMass);
      var smoothed := smoother.Update(score, dt);
      r := CompositeScore(score, ClampUnit(smoothed), confidence, weightMass, used, true);
    }

    method EffectiveWeights(f: Features, regime: RegimeDetection.Regime) returns (names: seq<string>, weights: Weights)
      requires ValidConfig(config) && WellFormed(f)
      ensures names == Voters(f, WeightsFor(config, regime), f.order)
      ensures weights == Effective(config, WeightsFor(config, regime), names)
    {
      hide WeightsFor, TableWeights, Mass, ValidConfig;
      var table := WeightsFor(config, regime);
      names, weights := [], map[];
      NoVoters(table);
      var total := 0.0;
      for k := 0 to |f.order|
        invariant names == Voters(f, table, f.order[..k])
        invariant weights == TableWeights(table, names)
        invariant total == Mass(weights, names)
      {
        assert f.order[..k + 1][..k] == f.order[..k];
        var name := f.order[k];
        var weight := Get(table, name);
        if f.at[name].directional && f.at[name].valid && weight > 0.0 {
          OneMoreVoter(table, names, name);
          total := total + weight;
          weights := weights[name := weight];
          names := names + [name];
        }
      }
      assert f.order[..|f.order|] == f.order;
      VotersWeighSomething(f, table, names);
      if total <= 0.0 {
        return;
      }
      weights := ApplyCollinearityCaps(weights, total);
    }

    method ApplyCollinearityCaps(w: Weights, total: real) returns (weights: Weights)
      ensures weights == CapAll(w, config.groups, total)
    {
      hide Present, Mass, Product, Rescaled;
      weights := w;
      for k := 0 to |config.groups|
        invariant weights == CapAll(w, config.groups[..k], total)
      {
        assert config.groups[..k + 1][..k] == config.groups[..k];
        var group := config.groups[k];
        var members, groupWeight := PresentMembers(weights, group.names);
        var allowed := Product(group.cap, total);
        if |members| >= 2 && groupWeight > allowed && groupWeight > 0.0 {
          weights := Scale(weights, members, allowed / groupWeight);
        }
      }
      assert config.groups[..|config.groups|] == config.groups;
    }
  }

  lemma NoVoters(table: Weights)
    ensures TableWeights(table, []) == map[] && Mass(TableWeights(table, []), []) == 0.0
  {
  }

  lemma OneMoreVoter(table: Weights, names: seq<string>, name: string)
    ensures TableWeights(table, names + [name]) == TableWeights(table, names)[name := Get(table, name)]
    ensures Mass(TableWeights(table, names + [name]), names + [name])
         == Mass(TableWeights(table, names), names) + Get(table, name)
  {
    assert (names + [name])[..|names|] == names;
    MassDependsOnWeights(TableWeights(table, names + [name]), TableWeights(table, names), names);
  }

  lemma {:induction false} MassDependsOnWeights(r: Weights, w: Weights, names: seq<string>)
    requires Keyed(r, names) && Keyed(w, names) && forall i :: 0 <= i < |names| ==> r[names[i]] == w[names[i]]
    ensures Mass(r, names) == Mass(w, names)
  {
    if names != [] {
      var n := |names| - 1;
      assert forall i :: 0 <= i < n ==> names[..n][i] == names[i];
      MassDependsOnWeights(r, w, names[..n]);
    }
  }

  /** The members of a group that carry a weight, and their joint weight. */
  method PresentMembers(w: Weights, names: seq<string>) returns (members: seq<string>, mass: real)
    ensures members == Present(w, names) && mass == Mass(w, members)
  {
    members, mass := [], 0.0;
    for i := 0 to |names|
      invariant members == Present(w, names[..i]) && mass == Mass(w, members)
    {
      assert names[..i + 1][..i] == names[..i];
      if names[i] in w {
        assert (members + [names[i]])[..|members|] == members;
        members := members + [names[i]];
        mass := mass + w[names[i]];
      }
    }
    assert names[..|names|] == names;
  }

  method Scale(w: Weights, members: seq<string>, scale: real) returns (weights: Weights)
    requires Keyed(w, members)
    ensures weights == Rescaled(w, members, scale)
  {
    weights := w;
    for k := 0 to |members|
      invariant weights == Rescaled(w, members[..k], scale)
    {
      assert members[..k + 1][..k] == members[..k];
      weights := weights[members[k] := Product(weights[members[k]], scale)];
    }
    assert members[..|members|] == members;
  }

  // -- a weighted mean ----------------------------------------------------------

  /** Every contributing value lies in [low, high]. */
  predicate ContributorsWithin(f: Features, w: Weights, names: seq<string>, low: real, high: real)
    requires Keyed(f.at, names) && Keyed(w, names)
  {
    forall i :: 0 <= i < |names| && w[names[i]] * f.at[names[i]].confidence > 0.0 ==>
        low <= f.at[names[i]].value <= high
  }

  lemma {:induction false} TallyWithin(f: Features, w: Weights, names: seq<string>, low: real, high: real)
    requires Keyed(f.at, names) && Keyed(w, names) && ContributorsWithin(f, w, names, low, high)
    ensures var t := TallyOf(f, w, names); Product(low, t.mass) <= t.numerator <= Product(high, t.mass)
  {
    hide Product;
    if names == [] {
      ProductWithZero(low);
      ProductWithZero(high);
    } else {
      var n := |names| - 1;
      assert forall i :: 0 <= i < n ==> names[..n][i] == names[i];
      TallyWithin(f, w, names[..n], low, high);
      var t, x := TallyOf(f, w, names[..n]), f.at[names[n]];
      AddWithin(t, x.value, w[names[n]], x.confidence, low, high);
    }
  }

  lemma ProductWithZero(x: real)
    ensures Product(x, 0.0) == 0.0
  {
  }

  lemma AddWithin(t: Tally, value: real, weight: real, confidence: real, low: real, high: real)
    requires weight * confidence > 0.0 ==> low <= value <= high
    requires Product(low, t.mass) <= t.numerator <= Product(high, t.mass)
    ensures var r := Add(t, value, weight, confidence); Product(low, r.mass) <= r.numerator <= Product(high, r.mass)
  {
    var mass := weight * confidence;
    assert Product(weight, confidence) == mass;
    hide Product;
    if mass > 0.0 {
      ProductOrdered(low, value, mass);
      ProductOrdered(value, high, mass);
      Distribute(low, t.mass, mass);
      Distribute(high, t.mass, mass);
    }
  }

  lemma ProductOrdered(x: real, y: real, mass: real)
    requires x <= y && 0.0 <= mass
    ensures Product(x, mass) <= Product(y, mass)
  {
    MulMonotone(mass, x, y);
  }

  lemma QuotientWithin(x: real, mass: real, low: real, high: real)
    requires 0.0 < mass && Product(low, mass) <= x <= Product(high, mass)
    ensures low <= x / mass <= high
  {
    var q := x / mass;
    assert q * mass == x;
    assert (q - low) * mass >= 0.0 && (high - q) * mass >= 0.0;
  }

  predicate UnitValues(f: Features)
    requires WellFormed(f)
  {
    forall i :: 0 <= i < |f.order| ==> -1.0 <= f.at[f.order[i]].value <= 1.0
  }

  /** Nobody votes who may not, and nobody who may is left out. */
  lemma {:induction false} VotersExactly(f: Features, table: Weights, names: seq<string>, name: string)
    requires Keyed(f.at, names)
    ensures name in Voters(f, table, names) <==> name in names && Votes(f, table, name)
  {
    if names != [] {
      var n := |names| - 1;
      VotersExactly(f, table, names[..n], name);
      assert names == names[..n] + [names[n]];
    }
  }

  /** A valid score lies between any two bounds of the contributing values: it
      is a convex combination of them, and with values in [-1, 1] neither clamp
      ever bites. */
  lemma {:induction false} ScoreIsWeightedMean(
      c: CompositeConfig, decay: real -> real, maxDt: real, f: Features, table: Weights, e: Ema,
      dt: real, low: real, high: real)
    requires ValidConfig(c) && WellFormed(f) && UnitValues(f)
    requires Exponential(decay) && 0.0 < maxDt && -1.0 <= e.value <= 1.0
    requires var voters := Voters(f, table, f.order);
      ContributorsWithin(f, Effective(c, table, voters), voters, low, high)
    ensures var (r, after) := Assess(c, decay, maxDt, f, table, e, dt);
      var voters := Voters(f, table, f.order);
      var t := TallyOf(f, Effective(c, table, voters), voters);
      && (r.valid ==> low <= r.score <= high && r.score == t.numerator / t.mass && r.smoothed == after.value)
      && -1.0 <= r.score <= 1.0 && -1.0 <= after.value <= 1.0 && -1.0 <= r.smoothed <= 1.0
  {
    hide Product, Voters, Effective, ContributorsWithin;
    var voters := Voters(f, table, f.order);
    var w := Effective(c, table, voters);
    var t := TallyOf(f, w, voters);
    var (r, after) := Assess(c, decay, maxDt, f, table, e, dt);
    if r.valid {
      TallyWithin(f, w, voters, low, high);
      QuotientWithin(t.numerator, t.mass, low, high);
      UnitContributors(f, table, w);
      TallyWithin(f, w, voters, -1.0, 1.0);
      QuotientWithin(t.numerator, t.mass, -1.0, 1.0);
      BlendIsBetween(decay, maxDt, e.value, r.score, dt);
      hide Blend;
    }
  }

  /** The voters that carry positive mass, each as often as it is listed. */
  function Contributors(f: Features, w: Weights, names: seq<string>): (r: seq<string>)
    requires Keyed(f.at, names) && Keyed(w, names)
    ensures Keyed(f.at, r) && Keyed(w, r)
  {
    if names == [] then []
    else
      var n := |names| - 1;
      Contributors(f, w, names[..n]) + if 0.0 < Product(w[names[n]], f.at[names[n]].confidence) then [names[n]] else []
  }

  /** What each of some features adds to the three sums a score is made of. */
  function WeightsOf(w: Weights, names: seq<string>): (r: seq<real>)
    requires Keyed(w, names)
    ensures |r| == |names|
  {
    seq(|names|, i requires 0 <= i < |names| => w[names[i]])
  }

  function MassesOf(f: Features, w: Weights, names: seq<string>): (r: seq<real>)
    requires Keyed(f.at, names) && Keyed(w, names)
    ensures |r| == |names|
  {
    seq(|names|, i requires 0 <= i < |names| => Product(w[names[i]], f.at[names[i]].confidence))
  }

  function SharesOf(f: Features, w: Weights, names: seq<string>): (r: seq<real>)
    requires Keyed(f.at, names) && Keyed(w, names)
    ensures |r| == |names|
  {
    seq(|names|, i requires 0 <= i < |names| =>
      Product(f.at[names[i]].value, Product(w[names[i]], f.at[names[i]].confidence)))
  }

  lemma {:induction false} TallySums(f: Features, w: Weights, names: seq<string>)
    requires Keyed(f.at, names) && Keyed(w, names)
    ensures var (t, r) := (TallyOf(f, w, names), Contributors(f, w, names));
      && t.used == |r| && t.weight == Sum(WeightsOf(w, r))
      && t.mass == Sum(MassesOf(f, w, r)) && t.numerator == Sum(SharesOf(f, w, r))
  {
    hide Product, Sum;
    if names == [] {
      NothingToSum();
    } else {
      var n := |names| - 1;
      TallySums(f, w, names[..n]);
      var before := Contributors(f, w, names[..n]);
      OneMoreShare(f, w, before, names[n]);
      assert before + [] == before;
    }
  }

  /** The joint weight that a cap is applied to is the sum of the weights. */
  lemma {:induction false} MassIsSum(w: Weights, names: seq<string>)
    requires Keyed(w, names)
    ensures Mass(w, names) == Sum(WeightsOf(w, names))
  {
    if names != [] {
      var n := |names| - 1;
      MassIsSum(w, names[..n]);
      assert WeightsOf(w, names) == WeightsOf(w, names[..n]) + [w[names[n]]];
      SumAppend(WeightsOf(w, names[..n]), w[names[n]]);
    }
  }

  lemma NothingToSum()
    ensures Sum([]) == 0.0
  {
  }

  lemma OneMoreShare(f: Features, w: Weights, names: seq<string>, name: string)
    requires Keyed(f.at, names) && Keyed(w, names) && name in f.at && name in w
    ensures var (more, mass) := (names + [name], Product(w[name], f.at[name].confidence));
      && Sum(WeightsOf(w, more)) == Sum(WeightsOf(w, names)) + w[name]
      && Sum(MassesOf(f, w, more)) == Sum(MassesOf(f, w, names)) + mass
      && Sum(SharesOf(f, w, more)) == Sum(SharesOf(f, w, names)) + Product(f.at[name].value, mass)
  {
    hide Sum, Product;
    var more, mass := names + [name], Product(w[name], f.at[name].confidence);
    assert WeightsOf(w, more) == WeightsOf(w, names) + [w[name]];
    assert MassesOf(f, w, more) == MassesOf(f, w, names) + [mass];
    assert SharesOf(f, w, more) == SharesOf(f, w, names) + [Product(f.at[name].value, mass)];
    SumAppend(WeightsOf(w, names), w[name]);
    SumAppend(MassesOf(f, w, names), mass);
    SumAppend(SharesOf(f, w, names), Product(f.at[name].value, mass));
  }

  /** What a score is, from the features alone: the mean of the contributing
      values, weighted by weight times confidence; its confidence is the mean of
      their confidences, weighted by weight. It is valid exactly when enough of
      them contribute with enough confidence, and only then does it enter the
      smoothed score. */
  lemma ScoreIsTheMean(
      c: CompositeConfig, decay: real -> real, maxDt: real, f: Features, table: Weights, e: Ema, dt: real)
    requires ValidConfig(c) && WellFormed(f) && UnitValues(f)
    requires Exponential(decay) && 0.0 < maxDt && -1.0 <= e.value <= 1.0
    ensures var (r, after) := Assess(c, decay, maxDt, f, table, e, dt);
      var voters := Voters(f, table, f.order);
      var w := Effective(c, table, voters);
      var names := Contributors(f, w, voters);
      var weight, mass, shares := Sum(WeightsOf(w, names)), Sum(MassesOf(f, w, names)), Sum(SharesOf(f, w, names));
      && r.used == |names| && r.weightMass == mass
      && (if weight < EPSILON then r.confidence == 0.0 else Product(r.confidence, weight) == mass)
      && (r.valid <==> c.minFeatures <= |names| && c.minConfidence <= r.confidence)
      && (r.valid ==> 0.0 < mass && Product(r.score, mass) == shares)
      && (!r.valid ==> r.score == 0.0 && r.smoothed == (if voters == [] then 0.0 else e.value) && after == e)
      && (r.valid ==> after.initialised && after.updates == e.updates + 1 && r.smoothed == after.value)
      && (r.valid ==>
            after.value == if !e.initialised then r.score
                           else e.value + Product(Alpha(decay, maxDt, dt), r.score - e.value))
  {
    hide Product, Voters, Effective, Exponential, Contributors, Alpha, Sum, UnitValues, ContributorsWithin;
    var voters := Voters(f, table, f.order);
    var w := Effective(c, table, voters);
    var t := TallyOf(f, w, voters);
    UnitContributors(f, table, w);
    ScoreIsWeightedMean(c, decay, maxDt, f, table, e, dt, -1.0, 1.0);
    TallySums(f, w, voters);
    EffectiveIsNonNegative(c, f, table);
    TallyWeightPositive(f, w, voters);
    NobodyContributes(f, w, voters);
    var r := Assess(c, decay, maxDt, f, table, e, dt).0;
    if t.used > 0 {
      QuotientBack(t.numerator, t.mass);
      QuotientBack(t.mass, t.weight);
    }
    BlendIsStep(decay, maxDt, e.value, r.score, dt);
  }

  lemma QuotientBack(x: real, y: real)
    requires 0.0 < y
    ensures Product(x / y, y) == x
  {
  }

  lemma BlendIsStep(decay: real -> real, maxDt: real, value: real, sample: real, dt: real)
    ensures Blend(decay, maxDt, value, sample, dt) == value + Product(Alpha(decay, maxDt, dt), sample - value)
  {
  }

  lemma {:induction false} UnitContributors(f: Features, table: Weights, w: Weights)
    requires WellFormed(f) && UnitValues(f) && Keyed(w, Voters(f, table, f.order))
    ensures ContributorsWithin(f, w, Voters(f, table, f.order), -1.0, 1.0)
  {
    hide Voters;
    var voters := Voters(f, table, f.order);
    forall i | 0 <= i < |voters|
      ensures -1.0 <= f.at[voters[i]].value <= 1.0
    {
      VotersExactly(f, table, f.order, voters[i]);
      assert voters[i] in voters;
    }
  }

  /** The confidence of a score lies between any two bounds of the confidences
      it rests on; it reads zero when the weight is too small to divide by. */
  lemma {:induction false} ConfidenceIsWeightedMean(
      c: CompositeConfig, decay: real -> real, maxDt: real, f: Features, table: Weights, e: Ema,
      dt: real, low: real, high: real)
    requires ValidConfig(c) && WellFormed(f)
    requires var voters := Voters(f, table, f.order); var w := Effective(c, table, voters);
      forall i :: 0 <= i < |voters| && w[voters[i]] * f.at[voters[i]].confidence > 0.0 ==>
           low <= f.at[voters[i]].confidence <= high
    ensures var voters := Voters(f, table, f.order);
      var confidence := Assess(c, decay, maxDt, f, table, e, dt).0.confidence;
      if TallyOf(f, Effective(c, table, voters), voters).weight >= EPSILON then low <= confidence <= high
      else confidence == 0.0
  {
    hide Product, Voters, Effective;
    var voters := Voters(f, table, f.order);
    var w := Effective(c, table, voters);
    var t := TallyOf(f, w, voters);
    EffectiveIsNonNegative(c, f, table);
    TallyWeightPositive(f, w, voters);
    MassWithin(f, w, voters, low, high);
    if t.weight >= EPSILON {
      QuotientWithin(t.mass, t.weight, low, high);
    }
    NobodyContributes(f, w, voters);
  }

  lemma {:induction false} MassWithin(f: Features, w: Weights, names: seq<string>, low: real, high: real)
    requires Keyed(f.at, names) && Keyed(w, names)
    requires forall i :: 0 <= i < |names| && w[names[i]] * f.at[names[i]].confidence > 0.0 ==>
      low <= f.at[names[i]].confidence <= high
    requires forall i :: 0 <= i < |names| ==> 0.0 <= w[names[i]]
    ensures var t := TallyOf(f, w, names); Product(low, t.weight) <= t.mass <= Product(high, t.weight)
  {
    hide Product;
    if names == [] {
      ProductWithZero(low);
      ProductWithZero(high);
    } else {
      var n := |names| - 1;
      assert forall i :: 0 <= i < n ==> names[..n][i] == names[i];
      MassWithin(f, w, names[..n], low, high);
      var t, x, weight := TallyOf(f, w, names[..n]), f.at[names[n]], w[names[n]];
      if weight * x.confidence > 0.0 {
        ProductOrdered(low, x.confidence, weight);
        ProductOrdered(x.confidence, high, weight);
        Commute(weight, x.confidence);
        Distribute(low, t.weight, weight);
        Distribute(high, t.weight, weight);
      }
      Commute(weight, x.confidence);
    }
  }

  lemma Commute(a: real, b: real)
    ensures Product(a, b) == Product(b, a) == a * b
  {
  }

  /** The same features in the same order, except perhaps for those that may
      not vote in either. */
  ghost predicate SameVotes(f: Features, g: Features, table: Weights, names: seq<string>) {
    && Keyed(f.at, names) && Keyed(g.at, names)
    && forall i :: 0 <= i < |names| ==>
         && (Votes(f, table, names[i]) <==> Votes(g, table, names[i]))
         && (Votes(f, table, names[i]) ==> f.at[names[i]] == g.at[names[i]])
  }

  lemma {:induction false} SameVoters(f: Features, g: Features, table: Weights, names: seq<string>)
    requires SameVotes(f, g, table, names)
    ensures Voters(f, table, names) == Voters(g, table, names)
  {
    if names != [] {
      var n := |names| - 1;
      assert forall i :: 0 <= i < n ==> names[..n][i] == names[i];
      SameVoters(f, g, table, names[..n]);
    }
  }

  lemma {:induction false} SameTally(f: Features, g: Features, w: Weights, names: seq<string>)
    requires Keyed(f.at, names) && Keyed(g.at, names) && Keyed(w, names)
    requires forall i :: 0 <= i < |names| ==> f.at[names[i]] == g.at[names[i]]
    ensures TallyOf(f, w, names) == TallyOf(g, w, names)
  {
    hide Add;
    if names != [] {
      var n := |names| - 1;
      assert forall i :: 0 <= i < n ==> names[..n][i] == names[i];
      SameTally(f, g, w, names[..n]);
    }
  }

  /** Invalid, non-directional and unweighted features are excluded, not zeroed:
      whatever they say, the assessment is the same. */
  lemma {:induction false} OthersHaveNoInfluence(
      c: CompositeConfig, decay: real -> real, maxDt: real, f: Features, g: Features,
      table: Weights, e: Ema, dt: real)
    requires ValidConfig(c) && f.order == g.order && SameVotes(f, g, table, f.order)
    ensures WellFormed(f) && WellFormed(g)
    ensures Assess(c, decay, maxDt, f, table, e, dt) == Assess(c, decay, maxDt, g, table, e, dt)
  {
    hide Voters, Effective, Judged, TallyOf;
    var voters := Voters(f, table, f.order);
    SameVoters(f, g, table, f.order);
    forall i | 0 <= i < |voters|
      ensures f.at[voters[i]] == g.at[voters[i]]
    {
      VotersExactly(f, table, f.order, voters[i]);
      assert voters[i] in voters;
    }
    SameTally(f, g, Effective(c, table, voters), voters);
  }

  // -- uniform scaling of the table ---------------------------------------------

  function ScaledTable(k: real, w: Weights): (r: Weights)
    ensures r.Keys == w.Keys
  {
    map name | name in w :: Product(k, w[name])
  }

  lemma {:induction false} VotersScale(f: Features, table: Weights, names: seq<string>, k: real)
    requires Keyed(f.at, names) && 0.0 < k
    ensures Voters(f, ScaledTable(k, table), names) == Voters(f, table, names)
  {
    if names != [] {
      var n := |names| - 1;
      VotersScale(f, table, names[..n], k);
      if names[n] in table {
        PositiveScales(k, table[names[n]]);
      }
    }
  }

  lemma PositiveScales(k: real, x: real)
    requires 0.0 < k
    ensures Product(k, x) > 0.0 <==> x > 0.0
  {
  }

  lemma OrderScales(k: real, x: real, y: real)
    requires 0.0 < k
    ensures Product(k, x) <= Product(k, y) <==> x <= y
  {
    PositiveScales(k, x - y);
    assert k * (x - y) == k * x - k * y;
  }

  lemma QuotientScales(k: real, x: real, y: real)
    requires 0.0 < k && y != 0.0
    ensures Product(k, y) != 0.0 && Product(k, x) / Product(k, y) == x / y
  {
    var q := x / y;
    assert x == q * y;
    assert k * x == q * (k * y);
  }

  lemma Regroup(a: real, k: real, b: real)
    ensures Product(a, Product(k, b)) == Product(k, Product(a, b))
    ensures Product(Product(k, a), b) == Product(k, Product(a, b))
  {
  }

  lemma Distribute(k: real, a: real, b: real)
    ensures Product(k, a + b) == Product(k, a) + Product(k, b)
  {
  }

  lemma {:induction false} MassScales(k: real, w: Weights, names: seq<string>)
    requires Keyed(w, names)
    ensures Mass(ScaledTable(k, w), names) == Product(k, Mass(w, names))
  {
    hide Product;
    if names == [] {
      ProductWithZero(k);
    } else {
      var n := |names| - 1;
      MassScales(k, w, names[..n]);
      Distribute(k, Mass(w, names[..n]), w[names[n]]);
    }
  }

  lemma {:induction false} RescaledScales(k: real, w: Weights, members: seq<string>, scale: real)
    requires Keyed(w, members)
    ensures Rescaled(ScaledTable(k, w), members, scale) == ScaledTable(k, Rescaled(w, members, scale))
  {
    hide Product;
    if members != [] {
      var n := |members| - 1;
      RescaledScales(k, w, members[..n], scale);
      Regroup(Rescaled(w, members[..n], scale)[members[n]], k, scale);
    }
  }

  lemma {:induction false} CapGroupScales(k: real, w: Weights, g: Group, total: real)
    requires 0.0 < k
    ensures CapGroup(ScaledTable(k, w), g, Product(k, total)) == ScaledTable(k, CapGroup(w, g, total))
  {
    hide Product, Rescaled, Present, Mass, ScaledTable;
    var members := Present(w, g.names);
    PresentDependsOnKeys(ScaledTable(k, w), w, g.names);
    MassScales(k, w, members);
    Regroup(g.cap, k, total);
    OrderScales(k, Mass(w, members), Product(g.cap, total));
    PositiveScales(k, Mass(w, members));
    if Mass(w, members) > 0.0 {
      QuotientScales(k, Product(g.cap, total), Mass(w, members));
      RescaledScales(k, w, members, Product(g.cap, total) / Mass(w, members));
    }
  }

  lemma {:induction false} CapAllScales(k: real, w: Weights, groups: seq<Group>, total: real)
    requires 0.0 < k
    ensures CapAll(ScaledTable(k, w), groups, Product(k, total)) == ScaledTable(k, CapAll(w, groups, total))
  {
    hide Product, CapGroup;
    if groups != [] {
      var n := |groups| - 1;
      CapAllScales(k, w, groups[..n], total);
      CapGroupScales(k, CapAll(w, groups[..n], total), groups[n], total);
    }
  }

  lemma {:induction false} EffectiveScales(c: CompositeConfig, k: real, table: Weights, voters: seq<string>)
    requires 0.0 < k
    ensures Effective(c, ScaledTable(k, table), voters) == ScaledTable(k, Effective(c, table, voters))
  {
    hide CapAll, Mass;
    ProductWithZero(k);
    assert TableWeights(ScaledTable(k, table), voters) == ScaledTable(k, TableWeights(table, voters));
    MassScales(k, TableWeights(table, voters), voters);
    CapAllScales(k, TableWeights(table, voters), c.groups, Mass(TableWeights(table, voters), voters));
  }

  function ScaledTally(k: real, t: Tally): Tally {
    Tally(Product(k, t.numerator), Product(k, t.mass), Product(k, t.weight), t.used)
  }

  lemma AddScales(k: real, t: Tally, value: real, weight: real, confidence: real)
    requires 0.0 < k
    ensures Add(ScaledTally(k, t), value, Product(k, weight), confidence)
        == ScaledTally(k, Add(t, value, weight, confidence))
  {
    hide Product;
    Regroup(weight, k, confidence);
    var mass := Product(weight, confidence);
    PositiveScales(k, mass);
    Regroup(value, k, mass);
    Distribute(k, t.numerator, Product(value, mass));
    Distribute(k, t.mass, mass);
    Distribute(k, t.weight, weight);
  }

  lemma {:induction false} TallyScales(k: real, f: Features, w: Weights, names: seq<string>)
    requires Keyed(f.at, names) && Keyed(w, names) && 0.0 < k
    ensures TallyOf(f, ScaledTable(k, w), names) == ScaledTally(k, TallyOf(f, w, names))
  {
    hide Product, Add;
    if names == [] {
      ProductWithZero(k);
    } else {
      var n := |names| - 1;
      TallyScales(k, f, w, names[..n]);
      AddScales(k, TallyOf(f, w, names[..n]), f.at[names[n]].value, w[names[n]], f.at[names[n]].confidence);
    }
  }

  lemma {:induction false} TallyWeightPositive(f: Features, w: Weights, names: seq<string>)
    requires Keyed(f.at, names) && Keyed(w, names) && NonNegative(w)
    ensures var t := TallyOf(f, w, names); 0.0 <= t.weight && (t.used > 0 ==> 0.0 < t.weight)
  {
    if names != [] {
      var n := |names| - 1;
      TallyWeightPositive(f, w, names[..n]);
      if w[names[n]] == 0.0 {
        assert Product(w[names[n]], f.at[names[n]].confidence) == 0.0;
      }
    }
  }

  /** Equal in everything but the mass itself. */
  predicate SameVerdict(a: (CompositeScore, Ema), b: (CompositeScore, Ema)) {
    a.0.(weightMass := 0.0) == b.0.(weightMass := 0.0) && a.1 == b.1
  }

  lemma ConfidenceScalesExactlyWhen(k: real, t: Tally)
    requires 0.0 < k && 0.0 < t.mass && 0.0 < t.weight
    ensures SafeDiv(Product(k, t.mass), Product(k, t.weight)) == SafeDiv(t.mass, t.weight)
       <==> (t.weight < EPSILON <==> Product(k, t.weight) < EPSILON)
  {
    PositiveScales(k, t.weight);
    QuotientScales(k, t.mass, t.weight);
    assert t.mass / t.weight > 0.0 by {
      assert t.mass / t.weight * t.weight == t.mass;
    }
  }

  /** Multiplying every weight by k leaves score, smoothed score, confidence and
      validity alone exactly when no feature contributes or the contributing
      weight is on the same side of the division guard before and after. Below
      the guard the confidence reads as zero. */
  lemma {:induction false} ScalingIsInvisibleExactlyWhen(
      c: CompositeConfig, decay: real -> real, maxDt: real, f: Features, table: Weights, e: Ema,
      dt: real, k: real)
    requires ValidConfig(c) && WellFormed(f) && 0.0 < k
    ensures var voters := Voters(f, table, f.order);
      var t := TallyOf(f, Effective(c, table, voters), voters);
      SameVerdict(Assess(c, decay, maxDt, f, ScaledTable(k, table), e, dt), Assess(c, decay, maxDt, f, table, e, dt))
      <==> (t.used == 0 || (t.weight < EPSILON <==> Product(k, t.weight) < EPSILON))
  {
    hide Product, Voters, Effective, TallyOf, ScaledTable, Observe, ClampUnit, SafeDiv, ValidConfig;
    var voters := Voters(f, table, f.order);
    VotersScale(f, table, f.order, k);
    EffectiveScales(c, k, table, voters);
    EffectiveIsNonNegative(c, f, table);
    var w := Effective(c, table, voters);
    TallyScales(k, f, w, voters);
    TallyWeightPositive(f, w, voters);
    var t := TallyOf(f, w, voters);
    ProductWithZero(k);
    if t.used > 0 {
      ConfidenceScalesExactlyWhen(k, t);
      QuotientScales(k, t.numerator, t.mass);
    }
    assert voters == [] ==> t.used == 0 by {
      NobodyContributes(f, w, voters);
    }
  }

  /** The range check of weights, snapshot_quant_v4/config.py:851-852. */
  ghost predicate InRange(table: Weights) {
    forall name :: name in table ==> 0.0 <= table[name] <= 10.0
  }

  /** Exhibited for any weight under the guard that k lifts over it, as 1e-13
      times 100: the same feature counts for nothing under one table and makes
      a valid score under the other, both tables being within the allowed range. */
  lemma TinyWeightsAreVisible(decay: real -> real, maxDt: real, e: Ema, dt: real, name: string,
                              feature: FeatureValue, weight: real, k: real, minConfidence: real)
    requires feature.directional && feature.valid && 0.0 < minConfidence <= feature.confidence <= 1.0
    requires 0.0 < weight < EPSILON <= Product(k, weight) <= 10.0
    ensures var table := map[name := weight];
      var c := CompositeConfig(map[RegimeDetection.Trend := table], table, 1, minConfidence, []);
      var f := Features([name], map[name := feature]);
      && ValidConfig(c) && InRange(table) && InRange(ScaledTable(k, table))
      && !Assess(c, decay, maxDt, f, table, e, dt).0.valid
      && Assess(c, decay, maxDt, f, ScaledTable(k, table), e, dt).0.valid
  {
    var table, f := map[name := weight], Features([name], map[name := feature]);
    var scaled := ScaledTable(k, table);
    var c := CompositeConfig(map[RegimeDetection.Trend := table], table, 1, minConfidence, []);
    LoneVoter(c, f, table, name);
    LoneVoter(c, f, scaled, name);
    LoneConfidence(weight, feature.confidence);
    LoneConfidence(Product(k, weight), feature.confidence);
    hide Observe, ClampUnit, Effective, Voters, TallyOf, Product, SafeDiv, ScaledTable;
  }

  lemma LoneConfidence(weight: real, confidence: real)
    requires 0.0 < weight
    ensures SafeDiv(Product(weight, confidence), weight) == if weight < EPSILON then 0.0 else confidence
  {
    assert weight * confidence / weight == confidence;
  }

  lemma LoneVoter(c: CompositeConfig, f: Features, table: Weights, name: string)
    requires f.order == [name] && name in f.at && name in table && Votes(f, table, name) && c.groups == []
    requires 0.0 < f.at[name].confidence
    ensures Voters(f, table, [name]) == [name]
    ensures var t := TallyOf(f, Effective(c, table, [name]), [name]);
      t.used == 1 && t.weight == table[name] && t.mass == Product(table[name], f.at[name].confidence)
  {
    assert [name][..0] == [];
  }

  lemma NobodyContributes(f: Features, w: Weights, names: seq<string>)
    requires Keyed(f.at, names) && Keyed(w, names)
    ensures names == [] ==> TallyOf(f, w, names).used == 0
  {
  }

  // -- long/short mirror --------------------------------------------------------

  function MirrorFeatures(f: Features): Features {
    Features(f.order, map name | name in f.at :: f.at[name].(value := -f.at[name].value))
  }

  function MirrorEma(e: Ema): Ema {
    e.(value := -e.value)
  }

  function MirrorScore(r: CompositeScore): CompositeScore {
    r.(score := -r.score, smoothed := -r.smoothed)
  }

  function MirrorTally(t: Tally): Tally {
    t.(numerator := -t.numerator)
  }

  lemma {:induction false} VotersMirror(f: Features, table: Weights, names: seq<string>)
    requires Keyed(f.at, names)
    ensures Voters(MirrorFeatures(f), table, names) == Voters(f, table, names)
  {
    if names != [] {
      VotersMirror(f, table, names[..|names| - 1]);
    }
  }

  lemma NegativeProduct(x: real, y: real)
    ensures Product(-x, y) == -Product(x, y)
    ensures y != 0.0 ==> (-x) / y == -(x / y)
  {
    if y != 0.0 {
      assert (-x) / y == -(x / y);
    }
  }

  lemma {:induction false} TallyMirror(f: Features, w: Weights, names: seq<string>)
    requires Keyed(f.at, names) && Keyed(w, names)
    ensures TallyOf(MirrorFeatures(f), w, names) == MirrorTally(TallyOf(f, w, names))
  {
    hide Product;
    if names != [] {
      var n := |names| - 1;
      TallyMirror(f, w, names[..n]);
      NegativeProduct(f.at[names[n]].value, Product(w[names[n]], f.at[names[n]].confidence));
    }
  }

  lemma MirrorObserve(decay: real -> real, maxDt: real, e: Ema, sample: real, dt: real)
    ensures Observe(decay, maxDt, MirrorEma(e), -sample, dt) == MirrorEma(Observe(decay, maxDt, e, sample, dt))
  {
    hide Alpha;
    var alpha := Alpha(decay, maxDt, dt);
    assert alpha * (-sample + e.value) == -(alpha * (sample - e.value));
  }

  /** Negating every feature value negates the score and its average and leaves
      confidence, mass, count and validity alone. */
  lemma {:induction false} MirrorAssess(
      c: CompositeConfig, decay: real -> real, maxDt: real, f: Features, table: Weights, e: Ema,
      dt: real)
    requires ValidConfig(c) && WellFormed(f)
    ensures WellFormed(MirrorFeatures(f))
    ensures var (r, after) := Assess(c, decay, maxDt, f, table, e, dt);
      Assess(c, decay, maxDt, MirrorFeatures(f), table, MirrorEma(e), dt) == (MirrorScore(r), MirrorEma(after))
  {
    hide Product, Voters, Effective, TallyOf, Judged;
    var voters := Voters(f, table, f.order);
    VotersMirror(f, table, f.order);
    var w := Effective(c, table, voters);
    TallyMirror(f, w, voters);
    MirrorJudged(c, decay, maxDt, TallyOf(f, w, voters), e, dt);
  }

  lemma MirrorJudged(c: CompositeConfig, decay: real -> real, maxDt: real, t: Tally, e: Ema, dt: real)
    requires ValidConfig(c) && (t.used > 0 ==> t.mass > 0.0)
    ensures var (r, after) := Judged(c, decay, maxDt, t, e, dt);
      Judged(c, decay, maxDt, MirrorTally(t), MirrorEma(e), dt) == (MirrorScore(r), MirrorEma(after))
  {
    hide Observe, SafeDiv;
    if t.used > 0 {
      NegativeProduct(t.numerator, t.mass);
      MirrorObserve(decay, maxDt, e, ClampUnit(t.numerator / t.mass), dt);
    }
  }
}
