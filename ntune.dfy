/**
 * nTune's live-tuning configuration: validation of the key/value map
 * against per-controller tables of (key, min, max, default), the dispatch
 * choosing the table, and the invalidated/update gating.
 *
 * The configuration file and its JSON are left out: a reload is given the
 * parsed map (or None when the file is missing, empty or unreadable).
 */
module NTune {
  import opened Wrappers

  /** The lateral controller a tuner is attached to (NONE in the source). */
  datatype LatType = NoController | Lqr | Indi | Torque

  /** One checkValue call: clamp `key` to [lo, hi], inserting `default` when absent. */
  datatype Rule = Rule(key: string, lo: real, hi: real, default: real)

  type Config = map<string, real>

  const CommonRules: seq<Rule> := [
    Rule("useLiveSteerRatio", 0.0, 1.0, 1.0),
    Rule("steerRatio", 10.0, 20.0, 16.5),
    Rule("steerActuatorDelay", 0.0, 0.8, 0.1),
    Rule("steerRateCost", 0.1, 1.5, 0.4),
    Rule("pathOffset", -1.0, 1.0, 0.0)
  ]

  const LqrRules: seq<Rule> := [
    Rule("scale", 500.0, 5000.0, 1600.0),
    Rule("ki", 0.0, 0.2, 0.01),
    Rule("dcGain", 0.002, 0.004, 0.0025),
    Rule("steerLimitTimer", 0.5, 3.0, 2.5)
  ]

  const IndiRules: seq<Rule> := [
    Rule("actuatorEffectiveness", 0.5, 3.0, 1.8),
    Rule("timeConstant", 0.5, 3.0, 1.4),
    Rule("innerLoopGain", 1.0, 5.0, 3.3),
    Rule("outerLoopGain", 1.0, 5.0, 2.8)
  ]

  const TorqueRules: seq<Rule> := [
    Rule("useSteeringAngle", 0.0, 1.0, 1.0),
    Rule("maxLatAccel", 0.5, 4.0, 2.0),
    Rule("friction", 0.0, 0.2, 0.01),
    Rule("ki_factor", 0.0, 1.0, 0.1),
    Rule("kd", 0.0, 2.0, 0.0),
    Rule("deadzone", 0.0, 0.05, 0.0)
  ]

  const IsccRules: seq<Rule> := [
    Rule("sccGasFactor", 0.5, 1.5, 1.0),
    Rule("sccBrakeFactor", 0.5, 1.5, 1.0),
    Rule("sccCurvatureFactor", 0.5, 1.5, 0.98)
  ]

  // ---------------------------------------------------------------------------
  // Validation as functions

  /** The key is present and its value within the rule's bounds. */
  predicate InRange(c: Config, r: Rule) {
    r.key in c && r.lo <= c[r.key] <= r.hi
  }

  predicate AllInRange(c: Config, rules: seq<Rule>) {
    forall i :: 0 <= i < |rules| ==> InRange(c, rules[i])
  }

  /** The configuration after one checkValue. */
  function Fix(c: Config, r: Rule): (c': Config)
    ensures c'.Keys == c.Keys + {r.key}
    ensures forall k :: k in c && k != r.key ==> c'[k] == c[k]
    ensures r.key !in c ==> c'[r.key] == r.default
    ensures r.key in c && c[r.key] < r.lo ==> c'[r.key] == r.lo
    ensures r.key in c && r.lo <= c[r.key] && r.hi < c[r.key] ==> c'[r.key] == r.hi
    ensures c' == c <==> InRange(c, r)
  {
    if r.key !in c then c[r.key := r.default]
    else if r.lo > c[r.key] then c[r.key := r.lo]
    else if r.hi < c[r.key] then c[r.key := r.hi]
    else c
  }

  /** The configuration after checkValue for every rule of the table, in order. */
  function ApplyRules(c: Config, rules: seq<Rule>): Config
  {
    if rules == [] then c else Fix(ApplyRules(c, rules[..|rules| - 1]), rules[|rules| - 1])
  }

  predicate DistinctKeys(rules: seq<Rule>) {
    forall i, j :: 0 <= i < j < |rules| ==> rules[i].key != rules[j].key
  }

  /** Distinct keys and defaults inside their bounds: what every table satisfies. */
  predicate WellFormed(rules: seq<Rule>) {
    DistinctKeys(rules) && forall i :: 0 <= i < |rules| ==> rules[i].lo <= rules[i].default <= rules[i].hi
  }

  lemma TablesWellFormed()
    ensures WellFormed(CommonRules) && WellFormed(LqrRules) && WellFormed(IndiRules)
    ensures WellFormed(TorqueRules) && WellFormed(IsccRules)
  {
    CommonWellFormed();
    TorqueWellFormed();
    assert WellFormed(LqrRules);
    assert WellFormed(IndiRules);
    assert WellFormed(IsccRules);
  }

  lemma CommonWellFormed()
    ensures WellFormed(CommonRules)
  {
  }

  lemma TorqueWellFormed()
    ensures WellFormed(TorqueRules)
  {
  }

  /** Validation touches only the table's keys and adds every one of them. */
  lemma {:induction false} ApplyRulesFrame(c: Config, rules: seq<Rule>, k: string)
    ensures (k in ApplyRules(c, rules)) <==> (k in c || exists i :: 0 <= i < |rules| && rules[i].key == k)
    ensures (forall i :: 0 <= i < |rules| ==> rules[i].key != k) && k in c ==> ApplyRules(c, rules)[k] == c[k]
  {
    if rules != [] {
      var init := rules[..|rules| - 1];
      ApplyRulesFrame(c, init, k);
      if k in ApplyRules(c, rules) && k !in c && rules[|rules| - 1].key != k {
        var i :| 0 <= i < |init| && init[i].key == k;
        assert rules[i].key == k;
      }
      if exists i :: 0 <= i < |rules| && rules[i].key == k {
        var i :| 0 <= i < |rules| && rules[i].key == k;
        if i < |rules| - 1 {
          assert init[i].key == k;
        }
      }
    }
  }

  /**
   * With distinct keys, each checkValue sees its key exactly as the original
   * configuration had it: earlier calls only touch other keys.
   */
  lemma PrefixLeavesKey(c: Config, rules: seq<Rule>, k: nat)
    requires DistinctKeys(rules) && k < |rules|
    ensures InRange(ApplyRules(c, rules[..k]), rules[k]) == InRange(c, rules[k])
    ensures ApplyRules(c, rules[..k + 1]) == Fix(ApplyRules(c, rules[..k]), rules[k])
  {
    var pre := rules[..k];
    assert rules[..k + 1][..k] == pre;
    ApplyRulesFrame(c, pre, rules[k].key);
  }

  /** After validation with a well-formed table every key is present and in range. */
  lemma {:induction false} ApplyRulesInRange(c: Config, rules: seq<Rule>)
    requires WellFormed(rules)
    ensures AllInRange(ApplyRules(c, rules), rules)
  {
    if rules != [] {
      var init, last := rules[..|rules| - 1], rules[|rules| - 1];
      assert WellFormed(init);
      ApplyRulesInRange(c, init);
      forall i | 0 <= i < |rules|
        ensures InRange(ApplyRules(c, rules), rules[i])
      {
        if i < |rules| - 1 {
          assert init[i] == rules[i];
          assert rules[i].key != last.key;
        }
      }
    }
  }

  /** Validation changes nothing when every key is already present and in range. */
  lemma {:induction false} ApplyRulesNoop(c: Config, rules: seq<Rule>)
    requires AllInRange(c, rules)
    ensures ApplyRules(c, rules) == c
  {
    if rules != [] {
      var init := rules[..|rules| - 1];
      assert AllInRange(c, init) by {
        forall i | 0 <= i < |init| ensures InRange(c, init[i]) {
          assert init[i] == rules[i];
        }
      }
      ApplyRulesNoop(c, init);
    }
  }

  /** Validation changes the configuration iff some key was missing or out of range. */
  lemma {:induction false} ApplyRulesChanges(c: Config, rules: seq<Rule>)
    requires DistinctKeys(rules)
    ensures ApplyRules(c, rules) != c <==> !AllInRange(c, rules)
  {
    if AllInRange(c, rules) {
      ApplyRulesNoop(c, rules);
    } else {
      var i :| 0 <= i < |rules| && !InRange(c, rules[i]);
      var k := rules[i].key;
      var after := ApplyRules(c, rules);
      if k in c {
        // the value of k after all rules is the one rule i gave it, and rule i
        // saw k's original, out-of-range value
        var pre := rules[..i];
        SuffixKeepsKey(c, rules, i);
        assert forall j :: 0 <= j < |pre| ==> pre[j].key != k by {
          forall j | 0 <= j < |pre| ensures pre[j].key != k {
            assert pre[j] == rules[j];
          }
        }
        ApplyRulesFrame(c, pre, k);
        assert after[k] != c[k];
      } else {
        SuffixKeepsKey(c, rules, i);
      }
    }
  }

  /** Rules after position i never touch rule i's key. */
  lemma {:induction false} SuffixKeepsKey(c: Config, rules: seq<Rule>, i: nat)
    requires DistinctKeys(rules) && i < |rules|
    ensures rules[i].key in ApplyRules(c, rules)
    ensures ApplyRules(c, rules)[rules[i].key] == Fix(ApplyRules(c, rules[..i]), rules[i])[rules[i].key]
    decreases |rules|
  {
    if i == |rules| - 1 {
      assert rules[..i] == rules[..|rules| - 1];
    } else {
      var init := rules[..|rules| - 1];
      assert init[i] == rules[i] && init[..i] == rules[..i];
      SuffixKeepsKey(c, init, i);
      assert rules[|rules| - 1].key != rules[i].key;
    }
  }

  /**
   * Idempotence: a second validation right after the first finds everything in
   * range, reports no update and leaves the configuration as it is.
   */
  lemma Idempotent(c: Config, rules: seq<Rule>)
    requires WellFormed(rules)
    ensures AllInRange(ApplyRules(c, rules), rules)
    ensures ApplyRules(ApplyRules(c, rules), rules) == ApplyRules(c, rules)
  {
    ApplyRulesInRange(c, rules);
    ApplyRulesNoop(ApplyRules(c, rules), rules);
  }

  /** The table checkValid uses: LQR, INDI, TORQUE, then the "common" group, else ISCC. */
  function RulesFor(t: LatType, group: Option<string>): (rules: seq<Rule>)
    ensures WellFormed(rules)
    ensures t == Lqr ==> rules == LqrRules
    ensures t == Indi ==> rules == IndiRules
    ensures t == Torque ==> rules == TorqueRules
    ensures t == NoController && group == Some("common") ==> rules == CommonRules
    ensures t == NoController && group != Some("common") ==> rules == IsccRules
  {
    TablesWellFormed();
    if t == Lqr then LqrRules
    else if t == Indi then IndiRules
    else if t == Torque then TorqueRules
    else if group == Some("common") then CommonRules
    else IsccRules
  }

  /** ntune_common_enabled on a loaded configuration: the stored value exceeds 0.5; None when the lookup fails. */
  function Enabled(c: Config, key: string): (r: Option<bool>)
    ensures r.Some? <==> key in c
    ensures r == Some(true) <==> key in c && c[key] > 0.5
  {
    if key in c then Some(c[key] > 0.5) else None
  }

  /** A key missing before validation ends up holding its rule's default. */
  lemma DefaultInserted(c: Config, rules: seq<Rule>, i: nat)
    requires DistinctKeys(rules) && i < |rules| && rules[i].key !in c
    ensures rules[i].key in ApplyRules(c, rules)
    ensures ApplyRules(c, rules)[rules[i].key] == rules[i].default
  {
    var k, pre := rules[i].key, rules[..i];
    SuffixKeepsKey(c, rules, i);
    ApplyRulesFrame(c, pre, k);
  }

  /**
   * ntune_common_enabled through ntune_get: a key the loaded configuration
   * lacks makes the tuner read the file again (`reloaded`, or the defaults it
   * writes when reading fails), and that read validates with the common table
   * before the lookup. None stands for the KeyError of a key still missing.
   */
  function CommonEnabled(c: Config, reloaded: Config, key: string): (r: Option<bool>)
    ensures key in c ==> r == Some(c[key] > 0.5)
    ensures key !in c ==> (r.Some? <==> key in reloaded || exists i :: 0 <= i < |CommonRules| && CommonRules[i].key == key)
    ensures key !in c && key !in reloaded ==>
      forall i :: 0 <= i < |CommonRules| && CommonRules[i].key == key ==> r == Some(CommonRules[i].default > 0.5)
  {
    TablesWellFormed();
    ApplyRulesFrame(reloaded, CommonRules, key);
    forall i | 0 <= i < |CommonRules| && CommonRules[i].key == key && key !in reloaded
      ensures ApplyRules(reloaded, CommonRules)[key] == CommonRules[i].default
    {
      DefaultInserted(reloaded, CommonRules, i);
    }
    if key in c then Enabled(c, key) else Enabled(ApplyRules(reloaded, CommonRules), key)
  }

  /** A missing useLiveSteerRatio is never an error: the reload's default 1.0 makes it enabled. */
  lemma LiveSteerRatioDefaultsOn(c: Config, reloaded: Config)
    requires "useLiveSteerRatio" !in c && "useLiveSteerRatio" !in reloaded
    ensures CommonEnabled(c, reloaded, "useLiveSteerRatio") == Some(true)
  {
    assert CommonRules[0].key == "useLiveSteerRatio";
  }

  /** After validation of the common group every common key resolves, and useLiveSteerRatio is a 0..1 value. */
  lemma CommonKeysResolve(c: Config)
    ensures forall i :: 0 <= i < |CommonRules| ==> Enabled(ApplyRules(c, CommonRules), CommonRules[i].key).Some?
    ensures "useLiveSteerRatio" in ApplyRules(c, CommonRules)
    ensures 0.0 <= ApplyRules(c, CommonRules)["useLiveSteerRatio"] <= 1.0
  {
    TablesWellFormed();
    ApplyRulesInRange(c, CommonRules);
    assert InRange(ApplyRules(c, CommonRules), CommonRules[0]);
  }

  /**
   * One more checkValue after the first k of a table with distinct keys: the
   * configuration is the first k + 1 rules applied, and the flag accumulates
   * "some key was out of range" because rule k still sees its key's original value.
   */
  lemma Step(c: Config, rules: seq<Rule>, k: nat, before: Config, after: Config, u: bool, updatedBefore: bool)
    requires DistinctKeys(rules) && k < |rules|
    requires before == ApplyRules(c, rules[..k]) && after == Fix(before, rules[k])
    requires u == !InRange(before, rules[k]) && updatedBefore == !AllInRange(c, rules[..k])
    ensures after == ApplyRules(c, rules[..k + 1])
    ensures (updatedBefore || u) == !AllInRange(c, rules[..k + 1])
  {
    PrefixLeavesKey(c, rules, k);
    var pre, pre' := rules[..k], rules[..k + 1];
    assert forall i :: 0 <= i < k ==> pre'[i] == pre[i];
    assert pre'[k] == rules[k];
  }

  /** The first k rules of a table have been checked, starting from c. */
  ghost predicate Checked(c: Config, rules: seq<Rule>, k: nat, config: Config, updated: bool) {
    k <= |rules| && config == ApplyRules(c, rules[..k]) && updated == !AllInRange(c, rules[..k])
  }

  // ---------------------------------------------------------------------------
  // The tuner object

  class Tuner {
    const latType: LatType
    const group: Option<string>
    const disableLateralLiveTuning: bool

    var config: Config
    var invalidated: bool
    /** The controller types whose parameters update() wrote, in order. */
    ghost var applied: seq<LatType>
    /** The configurations written back to the file, in order. */
    ghost var written: seq<Config>

    constructor (latType: LatType, group: Option<string>, disableLateralLiveTuning: bool)
      ensures this.latType == latType && this.group == group
      ensures this.disableLateralLiveTuning == disableLateralLiveTuning
      ensures config == map[] && !invalidated && applied == [] && written == []
    {
      this.latType := latType;
      this.group := group;
      this.disableLateralLiveTuning := disableLateralLiveTuning;
      config := map[];
      invalidated := false;
      applied := [];
      written := [];
    }

    /** Clamps one key or inserts its default; reports whether the configuration changed. */
    method CheckValue(key: string, lo: real, hi: real, default: real) returns (updated: bool)
      modifies this`config
      ensures config == Fix(old(config), Rule(key, lo, hi, default))
      ensures updated == !InRange(old(config), Rule(key, lo, hi, default))
    {
      updated := false;
      if key !in config {
        config := config[key := default];
        updated := true;
      } else if lo > config[key] {
        config := config[key := lo];
        updated := true;
      } else if hi < config[key] {
        config := config[key := hi];
        updated := true;
      }
    }

    /**
     * One `if checkValue(key, min, max, default): updated = True` of a
     * checkValid method, for rule k of its table: afterwards the first k + 1
     * rules are applied, and the flag says whether any of their keys was
     * missing or out of range.
     */
    method CheckRule(ghost c: Config, rules: seq<Rule>, k: nat, updatedBefore: bool) returns (updated: bool)
      requires DistinctKeys(rules) && k < |rules| && Checked(c, rules, k, config, updatedBefore)
      modifies this`config
      ensures Checked(c, rules, k + 1, config, updated)
      ensures k + 1 == |rules| ==> config == ApplyRules(c, rules) && updated == !AllInRange(c, rules)
    {
      ghost var before := config;
      var r := rules[k];
      var u := CheckValue(r.key, r.lo, r.hi, r.default);
      Step(c, rules, k, before, config, u, updatedBefore);
      updated := updatedBefore;
      if u {
        updated := true;
      }
      assert k + 1 == |rules| ==> rules[..k + 1] == rules;
    }

    method CheckValidCommon() returns (updated: bool)
      modifies this`config
      ensures config == ApplyRules(old(config), CommonRules)
      ensures updated == !AllInRange(old(config), CommonRules)
    {
      ghost var c := config;
      TablesWellFormed();
      updated := false;
      assert Checked(c, CommonRules, 0, config, updated);
      updated := CheckRule(c, CommonRules, 0, updated);
      updated := CheckRule(c, CommonRules, 1, updated);
      updated := CheckRule(c, CommonRules, 2, updated);
      updated := CheckRule(c, CommonRules, 3, updated);
      updated := CheckRule(c, CommonRules, 4, updated);
    }

    method CheckValidLqr() returns (updated: bool)
      modifies this`config
      ensures config == ApplyRules(old(config), LqrRules)
      ensures updated == !AllInRange(old(config), LqrRules)
    {
      ghost var c := config;
      TablesWellFormed();
      updated := false;
      assert Checked(c, LqrRules, 0, config, updated);
      updated := CheckRule(c, LqrRules, 0, updated);
      updated := CheckRule(c, LqrRules, 1, updated);
      updated := CheckRule(c, LqrRules, 2, updated);
      updated := CheckRule(c, LqrRules, 3, updated);
    }

    method CheckValidIndi() returns (updated: bool)
      modifies this`config
      ensures config == ApplyRules(old(config), IndiRules)
      ensures updated == !AllInRange(old(config), IndiRules)
    {
      ghost var c := config;
      TablesWellFormed();
      updated := false;
      assert Checked(c, IndiRules, 0, config, updated);
      updated := CheckRule(c, IndiRules, 0, updated);
      updated := CheckRule(c, IndiRules, 1, updated);
      updated := CheckRule(c, IndiRules, 2, updated);
      updated := CheckRule(c, IndiRules, 3, updated);
    }

    method CheckValidTorque() returns (updated: bool)
      modifies this`config
      ensures config == ApplyRules(old(config), TorqueRules)
      ensures updated == !AllInRange(old(config), TorqueRules)
    {
      ghost var c := config;
      TablesWellFormed();
      updated := false;
      assert Checked(c, TorqueRules, 0, config, updated);
      updated := CheckRule(c, TorqueRules, 0, updated);
      updated := CheckRule(c, TorqueRules, 1, updated);
      updated := CheckRule(c, TorqueRules, 2, updated);
      updated := CheckRule(c, TorqueRules, 3, updated);
      updated := CheckRule(c, TorqueRules, 4, updated);
      updated := CheckRule(c, TorqueRules, 5, updated);
    }

    method CheckValidIscc() returns (updated: bool)
      modifies this`config
      ensures config == ApplyRules(old(config), IsccRules)
      ensures updated == !AllInRange(old(config), IsccRules)
    {
      ghost var c := config;
      TablesWellFormed();
      updated := false;
      assert Checked(c, IsccRules, 0, config, updated);
      updated := CheckRule(c, IsccRules, 0, updated);
      updated := CheckRule(c, IsccRules, 1, updated);
      updated := CheckRule(c, IsccRules, 2, updated);
    }

    /** checkValid: validates with the table for this tuner's controller or group. */
    method CheckValid() returns (updated: bool)
      modifies this`config
      ensures config == ApplyRules(old(config), RulesFor(latType, group))
      ensures updated == !AllInRange(old(config), RulesFor(latType, group))
      ensures updated <==> config != old(config)
    {
      ghost var rules := RulesFor(latType, group);
      if latType == Lqr {
        updated := CheckValidLqr();
      } else if latType == Indi {
        updated := CheckValidIndi();
      } else if latType == Torque {
        updated := CheckValidTorque();
      } else if group == Some("common") {
        updated := CheckValidCommon();
      } else {
        updated := CheckValidIscc();
      }
      ApplyRulesChanges(old(config), rules);
    }

    /** Pushes the configuration into the controller unless live tuning is disabled. */
    method Update()
      modifies this`applied
      ensures applied == old(applied) + (if disableLateralLiveTuning || latType == NoController then [] else [latType])
    {
      if disableLateralLiveTuning {
        return;
      }
      if latType == Lqr || latType == Indi || latType == Torque {
        applied := applied + [latType];
      }
    }

    /** Called from the controller's update: applies a pending reload once. */
    method Check()
      modifies this`invalidated, this`applied
      ensures !invalidated
      ensures old(invalidated) ==>
        (applied == old(applied) + (if disableLateralLiveTuning || latType == NoController then [] else [latType]))
      ensures !old(invalidated) ==> applied == old(applied)
    {
      if invalidated {
        invalidated := false;
        Update();
      }
    }

    /**
     * The file-change handler: adopts the file's configuration, validates it,
     * writes it back when validation changed it, and marks the tuner invalidated.
     * `contents` is None when the file is missing, empty or not parseable.
     */
    method Handle(contents: Option<Config>)
      modifies this`config, this`invalidated, this`written
      ensures contents.None? ==> config == old(config) && invalidated == old(invalidated) && written == old(written)
      ensures contents.Some? ==>
        && config == ApplyRules(contents.value, RulesFor(latType, group))
        && AllInRange(config, RulesFor(latType, group))
        && invalidated
        && written == old(written) + (if AllInRange(contents.value, RulesFor(latType, group)) then [] else [config])
    {
      if contents.Some? {
        config := contents.value;
        var updated := CheckValid();
        if updated {
          written := written + [config];
        }
        ApplyRulesInRange(contents.value, RulesFor(latType, group));
        invalidated := true;
      }
    }
  }
}
