/**
 The repair engine's configuration: LoadConfig fills the rules, recipes and guardrail limits
 that the repair protocol runs with.
 */
module Engine {
  import opened RepairProtocol
  import Guardrails
  import RateBound
  import Incidents
  import Recipes
  import Tightness
  import Windows

  datatype RuleConfig = RuleConfig(rule: string, check: string, recipe: string, maxRepairsPerHour: int)

  /** `durationText` is the rendering of the duration. */
  datatype StepConfig = StepConfig(
    action: string, retries: int, onFailureOnly: bool, timeout: int, params: map<string, string>,
    duration: int, durationText: string, check: string)

  datatype RecipeConfig = RecipeConfig(name: string, steps: seq<StepConfig>)

  class Engine {
    const guardrails: Guardrails.Guardrails
    var rules: map<string, Rule>
    var recipes: map<string, seq<Recipes.RecipeStep>>

    constructor (guardrails: Guardrails.Guardrails)
      ensures this.guardrails == guardrails && rules == map[] && recipes == map[]
    {
      this.guardrails := guardrails;
      rules, recipes := map[], map[];
    }

    method LoadConfig(repairs: seq<RuleConfig>, recipeConfigs: seq<RecipeConfig>)
      modifies this, guardrails
      ensures rules == WithRules(old(rules), repairs)
      ensures guardrails.State() == WithLimits(old(guardrails.State()), repairs)
      ensures recipes == WithRecipes(old(recipes), recipeConfigs)
    {
      for i := 0 to |repairs|
        invariant rules == WithRules(old(rules), repairs[..i])
        invariant guardrails.State() == WithLimits(old(guardrails.State()), repairs[..i])
        invariant recipes == old(recipes)
      {
        assert repairs[..i + 1][..i] == repairs[..i];
        var rule := repairs[i];
        rules := rules[rule.check := Rule(rule.rule, rule.recipe)];
        if 0 < rule.maxRepairsPerHour {
          guardrails.SetMaxRepairsPerHour(rule.rule, rule.maxRepairsPerHour);
        }
      }
      assert repairs[..|repairs|] == repairs;
      for i := 0 to |recipeConfigs|
        invariant rules == WithRules(old(rules), repairs)
        invariant guardrails.State() == WithLimits(old(guardrails.State()), repairs)
        invariant recipes == WithRecipes(old(recipes), recipeConfigs[..i])
      {
        assert recipeConfigs[..i + 1][..i] == recipeConfigs[..i];
        var steps := CompileSteps(recipeConfigs[i]);
        recipes := recipes[recipeConfigs[i].name := steps];
      }
      assert recipeConfigs[..|recipeConfigs|] == recipeConfigs;
    }
  }

  /** The parameters of a step: its own, with a positive duration and a named check written over them. */
  function Params(step: StepConfig): map<string, string> {
    step.params
    + (if 0 < step.duration then map["duration" := step.durationText] else map[])
    + (if step.check != "" then map["check" := step.check] else map[])
  }

  method CompileParams(step: StepConfig) returns (params: map<string, string>)
    ensures params == Params(step)
  {
    params := step.params;
    if 0 < step.duration {
      params := params["duration" := step.durationText];
    }
    if step.check != "" {
      params := params["check" := step.check];
    }
  }

  method CompileSteps(recipe: RecipeConfig) returns (steps: seq<Recipes.RecipeStep>)
    ensures steps == CompiledSteps(recipe)
  {
    steps := [];
    for i := 0 to |recipe.steps|
      invariant |steps| == i && forall k :: 0 <= k < i ==> steps[k] == Compiled(recipe, k)
    {
      var step := recipe.steps[i];
      var params := CompileParams(step);
      var name := recipe.name + "-step-" + Decimal(i);
      steps := steps + [Recipes.RecipeStep(name, step.action, step.retries, step.onFailureOnly, step.timeout, params)];
    }
  }

  function Compiled(recipe: RecipeConfig, i: nat): Recipes.RecipeStep
    requires i < |recipe.steps|
  {
    var step := recipe.steps[i];
    Recipes.RecipeStep(
      recipe.name + "-step-" + Decimal(i), step.action, step.retries, step.onFailureOnly, step.timeout, Params(step))
  }

  function CompiledSteps(recipe: RecipeConfig): seq<Recipes.RecipeStep> {
    seq(|recipe.steps|, i requires 0 <= i < |recipe.steps| => Compiled(recipe, i))
  }

  function Decimal(n: nat): string {
    if n < 10 then ["0123456789"[n]] else Decimal(n / 10) + ["0123456789"[n % 10]]
  }

  function WithRules(rules: map<string, Rule>, repairs: seq<RuleConfig>): map<string, Rule> {
    if repairs == [] then rules else
    var n := |repairs| - 1;
    WithRules(rules, repairs[..n])[repairs[n].check := Rule(repairs[n].rule, repairs[n].recipe)]
  }

  function WithLimits(guard: Guardrails.GuardState, repairs: seq<RuleConfig>): Guardrails.GuardState {
    if repairs == [] then guard else
    var n := |repairs| - 1;
    var before := WithLimits(guard, repairs[..n]);
    if 0 < repairs[n].maxRepairsPerHour
    then before.SetMaxRepairsPerHour(repairs[n].rule, repairs[n].maxRepairsPerHour)
    else before
  }

  function WithRecipes(recipes: map<string, seq<Recipes.RecipeStep>>, configs: seq<RecipeConfig>)
    : map<string, seq<Recipes.RecipeStep>>
  {
    if configs == [] then recipes else
    var n := |configs| - 1;
    WithRecipes(recipes, configs[..n])[configs[n].name := CompiledSteps(configs[n])]
  }

  /** The last entry with a positive limit decides a rule's limit; without one the rule is unlimited. */
  ghost predicate LimitIs(repairs: seq<RuleConfig>, rule: string, limit: int) {
    exists k :: 0 <= k < |repairs| && repairs[k].rule == rule && repairs[k].maxRepairsPerHour == limit && 0 < limit &&
      forall j :: k < j < |repairs| && repairs[j].rule == rule ==> repairs[j].maxRepairsPerHour <= 0
  }

  lemma LaterUnlimited(repairs: seq<RuleConfig>, entry: RuleConfig, rule: string, limit: int)
    requires LimitIs(repairs, rule, limit) && (entry.rule == rule ==> entry.maxRepairsPerHour <= 0)
    ensures LimitIs(repairs + [entry], rule, limit)
  {
    var k :| 0 <= k < |repairs| && repairs[k].rule == rule && repairs[k].maxRepairsPerHour == limit && 0 < limit &&
      forall j :: k < j < |repairs| && repairs[j].rule == rule ==> repairs[j].maxRepairsPerHour <= 0;
    assert (repairs + [entry])[k] == repairs[k];
  }

  lemma {:induction false} LimitsLoaded(repairs: seq<RuleConfig>, rule: string)
    ensures var guard := WithLimits(Guardrails.INITIAL, repairs);
            && (rule in guard.maxRepairs ==> LimitIs(repairs, rule, guard.maxRepairs[rule]))
            && (rule !in guard.maxRepairs ==>
                  forall k :: 0 <= k < |repairs| && repairs[k].rule == rule ==> repairs[k].maxRepairsPerHour <= 0)
            && guard.history == map[] && guard.lastExecution == map[]
  {
    if repairs != [] {
      var n := |repairs| - 1;
      var before := WithLimits(Guardrails.INITIAL, repairs[..n]);
      LimitsLoaded(repairs[..n], rule);
      assert repairs == repairs[..n] + [repairs[n]];
      if repairs[n].rule == rule && 0 < repairs[n].maxRepairsPerHour {
        assert LimitIs(repairs, rule, repairs[n].maxRepairsPerHour);
      } else if rule in before.maxRepairs {
        LaterUnlimited(repairs[..n], repairs[n], rule, before.maxRepairs[rule]);
      }
    }
  }

  /** The last entry of a check decides its rule; a check without an entry has none. */
  lemma {:induction false} RulesLoaded(repairs: seq<RuleConfig>, check: string)
    ensures var rules := WithRules(map[], repairs);
            && (check in rules <==> exists k :: 0 <= k < |repairs| && repairs[k].check == check)
            && forall k :: 0 <= k < |repairs| && repairs[k].check == check && LastOf(repairs, k) ==>
                 rules[check] == Rule(repairs[k].rule, repairs[k].recipe)
  {
    if repairs != [] {
      var n := |repairs| - 1;
      RulesLoaded(repairs[..n], check);
      assert repairs == repairs[..n] + [repairs[n]];
      forall k | 0 <= k < |repairs| && repairs[k].check == check && LastOf(repairs, k)
        ensures WithRules(map[], repairs)[check] == Rule(repairs[k].rule, repairs[k].recipe)
      {
        if k < n {
          assert LastOf(repairs[..n], k) && repairs[n].check != repairs[k].check;
        }
      }
    }
  }

  /** No later entry is for the same check. */
  ghost predicate LastOf(repairs: seq<RuleConfig>, k: int) {
    0 <= k < |repairs| && forall j :: k < j < |repairs| ==> repairs[j].check != repairs[k].check
  }

  /**
   The last recipe of a name is the one compiled: as many steps, numbered in order, each with its own action, retries
   and condition.
   */
  lemma {:induction false} RecipesLoaded(configs: seq<RecipeConfig>, name: string)
    ensures var recipes := WithRecipes(map[], configs);
            && (name in recipes <==> exists k :: 0 <= k < |configs| && configs[k].name == name)
            && forall k :: 0 <= k < |configs| && configs[k].name == name && LastNamed(configs, k) ==>
                 Compiles(configs[k], recipes[name])
  {
    if configs != [] {
      var n := |configs| - 1;
      RecipesLoaded(configs[..n], name);
      assert configs == configs[..n] + [configs[n]];
      forall k | 0 <= k < |configs| && configs[k].name == name && LastNamed(configs, k)
        ensures Compiles(configs[k], WithRecipes(map[], configs)[name])
      {
        StepsCompile(configs[n]);
        if k < n {
          assert LastNamed(configs[..n], k) && configs[n].name != configs[k].name;
        }
      }
    }
  }

  ghost predicate LastNamed(configs: seq<RecipeConfig>, k: int) {
    0 <= k < |configs| && forall j :: k < j < |configs| ==> configs[j].name != configs[k].name
  }

  /** Every parameter is the configured one, unless it is the duration or the check that the step names specially. */
  ghost predicate HasParams(step: StepConfig, params: map<string, string>) {
    && (0 < step.duration ==> "duration" in params && params["duration"] == step.durationText)
    && (step.check != "" ==> "check" in params && params["check"] == step.check)
    && forall key :: !(key == "duration" && 0 < step.duration) && !(key == "check" && step.check != "") ==>
         (key in params <==> key in step.params) && (key in params ==> params[key] == step.params[key])
  }

  lemma ParamsWritten(step: StepConfig)
    ensures HasParams(step, Params(step))
  {
    assert "duration" != "check";
  }

  lemma StepsCompile(config: RecipeConfig)
    ensures Compiles(config, CompiledSteps(config))
  {
    forall i | 0 <= i < |config.steps|
      ensures HasParams(config.steps[i], CompiledSteps(config)[i].params)
    {
      ParamsWritten(config.steps[i]);
    }
  }

  ghost predicate Compiles(config: RecipeConfig, steps: seq<Recipes.RecipeStep>) {
    && |steps| == |config.steps|
    && forall i :: 0 <= i < |steps| ==>
         && steps[i].name == config.name + "-step-" + Decimal(i)
         && steps[i].actionName == config.steps[i].action
         && steps[i].retries == config.steps[i].retries
         && steps[i].onFailureOnly == config.steps[i].onFailureOnly
         && steps[i].timeout == config.steps[i].timeout
         && HasParams(config.steps[i], steps[i].params)
  }

  /** What the protocol runs with after LoadConfig on a new engine with new guardrails. */
  function Loaded(repairs: seq<RuleConfig>, configs: seq<RecipeConfig>, registry: set<string>): Config {
    Config(WithRules(map[], repairs), WithRecipes(map[], configs), registry, WithLimits(Guardrails.INITIAL, repairs),
           PERMITS, EVENT_CAPACITY)
  }

  /** Every rule configured with a positive hourly limit keeps to that limit plus nine, for every interleaving. */
  lemma ConfiguredLimitHolds(repairs: seq<RuleConfig>, configs: seq<RecipeConfig>, registry: set<string>,
                             s: State, labels: seq<Label>, entry: RuleConfig, t: int)
    requires entry in repairs && 0 < entry.maxRepairsPerHour && Initial(Loaded(repairs, configs, registry), s)
    ensures var repaired := Exec(Loaded(repairs, configs, registry), s, labels).repairs;
            exists limit :: LimitIs(repairs, entry.rule, limit) &&
              Windows.InWindow(Log(repaired, entry.rule), 60 * 60 * 1_000_000_000, t) <= limit + 9
  {
    var cfg := Loaded(repairs, configs, registry);
    LimitsLoaded(repairs, entry.rule);
    assert entry.rule in cfg.guard.maxRepairs;
    RateBound.RepairsPerHour(cfg, s, labels, entry.rule, t);
  }

  /** And some interleaving does record that limit plus nine repairs of it within the hour. */
  lemma ConfiguredLimitIsReached(repairs: seq<RuleConfig>, configs: seq<RecipeConfig>, registry: set<string>,
                                 s: State, check: string) returns (labels: seq<Label>)
    requires Initial(Loaded(repairs, configs, registry), s) && check !in s.mgr.active
    requires Tightness.Limited(Loaded(repairs, configs, registry), check)
    ensures var cfg := Loaded(repairs, configs, registry);
            var t, rule := Exec(cfg, s, labels), cfg.rules[check].name;
            && LimitIs(repairs, rule, cfg.guard.maxRepairs[rule])
            && Windows.InWindow(Log(t.repairs, rule), 60 * 60 * 1_000_000_000, t.clock) ==
                 cfg.guard.maxRepairs[rule] + 9
  {
    var cfg := Loaded(repairs, configs, registry);
    LimitsLoaded(repairs, cfg.rules[check].name);
    labels := Tightness.BoundIsReached(cfg, s, check);
  }

  /** The agent's event channel holds a burst of 256 events before any is dropped. */
  lemma BurstIsKept(repairs: seq<RuleConfig>, configs: seq<RecipeConfig>, registry: set<string>,
                    events: seq<Incidents.Event>)
    ensures Incidents.EmitAll([], Loaded(repairs, configs, registry).capacity, events) ==
            if |events| <= 256 then events else events[..256]
  {
    Incidents.EmptyChannelFills(256, events);
  }

  // ---- step numbers ----

  function Digit(c: char): nat {
    if '0' <= c <= '9' then c as nat - '0' as nat else 0
  }

  /** The number that a decimal text denotes. */
  function Number(text: string): nat {
    if text == "" then 0 else 10 * Number(text[..|text| - 1]) + Digit(text[|text| - 1])
  }

  /** Step names end in the step's index, so no two steps of a recipe have the same name. */
  lemma {:induction false} DecimalReadsBack(n: nat)
    ensures Number(Decimal(n)) == n && Decimal(n) != ""
  {
    if 10 <= n {
      DecimalReadsBack(n / 10);
      assert Decimal(n)[..|Decimal(n)| - 1] == Decimal(n / 10);
    } else {
      assert Decimal(n)[..0] == "";
    }
  }

  lemma StepNamesDiffer(recipe: RecipeConfig, i: nat, j: nat)
    requires i < j < |recipe.steps|
    ensures CompiledSteps(recipe)[i].name != CompiledSteps(recipe)[j].name
  {
    DecimalReadsBack(i);
    DecimalReadsBack(j);
    var prefix := recipe.name + "-step-";
    assert (prefix + Decimal(i))[|prefix|..] == Decimal(i);
    assert (prefix + Decimal(j))[|prefix|..] == Decimal(j);
  }
}
