/** The conversion of a configuration file's [model], [initial state] and
    [simulation] sections into keyword arguments. A section is its (key,
    value) pairs in file order, keys kept in their written case; reading the
    file is not part of the model. */
module ConfigParser {
  import opened Wrappers
  import opened Text

  /** A converted value: a float, a list of floats, a list of names, a boolean or raw text. */
  datatype Value =
    | Number(x: real)
    | Numbers(xs: seq<real>)
    | Names(names: seq<string>)
    | Flag(b: bool)
    | Raw(text: string)

  type Section = seq<(string, string)>
  type Config = seq<(string, Section)>
  type Arguments = map<string, Value>

  /** The three dictionaries the parser returns. */
  datatype Parsed = Parsed(model: Arguments, initialState: Arguments, simulation: Arguments)

  /** float(s) for one item. */
  function ParseFloat(s: string): (r: Result<real>)
    ensures r.Ok? <==> ParseReal(s).Some?
    ensures r.Ok? ==> ParseReal(s) == Some(r.value)
  {
    ToResult(ParseReal(s))
  }

  /** Every item reads as a float. */
  predicate AllNumbers(items: seq<string>) {
    forall k :: 0 <= k < |items| ==> ParseReal(items[k]).Some?
  }

  /** [float(x) for x in value.split(",")]: fails if any item is not a number. */
  function FloatList(value: string): (r: Result<seq<real>>)
    ensures r.Ok? <==> AllNumbers(Split(value, ','))
    ensures r.Ok? ==> |r.value| == |Split(value, ',')|
    ensures r.Ok? ==> forall k :: 0 <= k < |r.value| ==> ParseReal(Split(value, ',')[k]) == Some(r.value[k])
  {
    FloatsOf(Split(value, ','));
    MapResult(Split(value, ','), ParseFloat)
  }

  lemma FloatsOf(items: seq<string>)
    ensures MapResult(items, ParseFloat).Ok? <==> AllNumbers(items)
    ensures MapResult(items, ParseFloat).Ok? ==>
              forall k :: 0 <= k < |items| ==> ParseReal(items[k]) == Some(MapResult(items, ParseFloat).value[k])
  {
    var parse: string -> Result<real> := ParseFloat;
    assert forall k :: 0 <= k < |items| ==> (parse(items[k]).Ok? <==> ParseReal(items[k]).Some?);
  }

  /** yes/yau/true and no/nay/false, in any case. */
  function Truth(value: string): (r: Option<bool>)
    ensures r == Some(true) <==> Lower(value) in ["yes", "yau", "true"]
    ensures r == Some(false) <==> Lower(value) in ["no", "nay", "false"]
  {
    var lowered := Lower(value);
    if lowered in ["yes", "yau", "true"] then Some(true)
    else if lowered in ["no", "nay", "false"] then Some(false)
    else None
  }

  /** The yes/no words are recognised in any case: a lowered value reads the same. */
  lemma TruthIgnoresCase(value: string)
    ensures Truth(Lower(value)) == Truth(value)
  {
    LowerIdempotent(value);
  }

  /** A [model] value: with a comma, the stripped names for "compartments" and
      floats for any other key; without one, a single float. */
  function ModelValue(key: string, value: string): (r: Result<Value>)
    ensures ',' in value && key == "compartments" ==> r == Ok(Names(StrippedItems(value, ',')))
    ensures ',' in value && key != "compartments" ==>
              (r.Ok? <==> FloatList(value).Ok?) && (r.Ok? ==> r == Ok(Numbers(FloatList(value).value)))
    ensures ',' !in value ==> (r.Ok? <==> ParseReal(value).Some?)
    ensures ',' !in value && r.Ok? ==> r == Ok(Number(ParseReal(value).value))
  {
    if ',' in value then
      if key == "compartments" then Ok(Names(StrippedItems(value, ',')))
      else
        var xs :- FloatList(value);
        Ok(Numbers(xs))
    else
      var x :- ToResult(ParseReal(value));
      Ok(Number(x))
  }

  /** An [initial state] value: floats with a comma; otherwise a float, then a
      yes/no word; anything else fails. */
  function InitialStateValue(value: string): (r: Result<Value>)
    ensures ',' in value ==> (r.Ok? <==> FloatList(value).Ok?)
    ensures ',' in value && r.Ok? ==> r == Ok(Numbers(FloatList(value).value))
    ensures ',' !in value && ParseReal(value).Some? ==> r == Ok(Number(ParseReal(value).value))
    ensures ',' !in value && ParseReal(value).None? ==>
              (r.Ok? <==> Truth(value).Some?) && (r.Ok? ==> r == Ok(Flag(Truth(value).value)))
  {
    if ',' in value then
      var xs :- FloatList(value);
      Ok(Numbers(xs))
    else if ParseReal(value).Some? then Ok(Number(ParseReal(value).value))
    else
      var b :- ToResult(Truth(value));
      Ok(Flag(b))
  }

  /** A [simulation] value: as an initial-state value, except that text that is
      neither a number nor a yes/no word is kept as it is. */
  function SimulationValue(value: string): (r: Result<Value>)
    ensures ',' in value ==> (r.Ok? <==> FloatList(value).Ok?)
    ensures ',' in value && r.Ok? ==> r == Ok(Numbers(FloatList(value).value))
    ensures ',' !in value ==> r.Ok?
    ensures ',' !in value && ParseReal(value).None? && Truth(value).None? ==> r == Ok(Raw(value))
  {
    if ',' in value then
      var xs :- FloatList(value);
      Ok(Numbers(xs))
    else if ParseReal(value).Some? then Ok(Number(ParseReal(value).value))
    else if Truth(value).Some? then Ok(Flag(Truth(value).value))
    else Ok(Raw(value))
  }

  /** The two conversions agree wherever the initial-state one succeeds, and
      the simulation one fails only on a comma list that is not all numbers. */
  lemma SimulationExtendsInitialState(value: string)
    ensures InitialStateValue(value).Ok? ==> SimulationValue(value) == InitialStateValue(value)
    ensures SimulationValue(value).Fail? <==> ',' in value && FloatList(value).Fail?
  {
  }

  /** The conversion of one (key, value) item of a section. */
  type Converter = (string, string) -> Result<Value>

  function ModelConverter(): Converter { (key, value) => ModelValue(key, value) }
  function InitialStateConverter(): Converter { (key, value) => InitialStateValue(value) }
  function SimulationConverter(): Converter { (key, value) => SimulationValue(value) }

  /** The dictionary a section's items fill in order, a later key overwriting
      an earlier one; fails at the first value that does not convert. */
  function Fill(items: Section, convert: Converter): (r: Result<Arguments>)
    ensures r.Ok? <==> forall k :: 0 <= k < |items| ==> convert(items[k].0, items[k].1).Ok?
    ensures r.Ok? ==> r.value.Keys == set p <- items :: p.0
  {
    if |items| == 0 then Ok(map[])
    else
      var init :- Fill(items[..|items| - 1], convert);
      var last := items[|items| - 1];
      var v :- convert(last.0, last.1);
      assert forall p <- items :: p in items[..|items| - 1] || p == last;
      Ok(init[last.0 := v])
  }

  /** Each key holds the conversion of the value of its last occurrence. */
  lemma {:induction false} FillLastWins(items: Section, convert: Converter, k: nat)
    requires Fill(items, convert).Ok? && k < |items|
    requires forall m :: k < m < |items| ==> items[m].0 != items[k].0
    ensures convert(items[k].0, items[k].1) == Ok(Fill(items, convert).value[items[k].0])
  {
    var n := |items|;
    if k < n - 1 {
      FillLastWins(items[..n - 1], convert, k);
    }
  }

  /** config.items(name): the items of the first section with that name. */
  function FindSection(config: Config, name: string): (r: Result<Section>)
    ensures r.Ok? <==> exists s <- config :: s.0 == name
    ensures r.Ok? ==> (name, r.value) in config
  {
    if |config| == 0 then Fail
    else if config[0].0 == name then Ok(config[0].1)
    else
      var r := FindSection(config[1..], name);
      assert forall s <- config[1..] :: s in config;
      assert forall s <- config :: s == config[0] || s in config[1..];
      r
  }

  /** The model dictionary with "compartments" defaulting to the single compartment "All". */
  function WithCompartments(model: Arguments): (r: Arguments)
    ensures r.Keys == model.Keys + {"compartments"}
    ensures "compartments" in model ==> r == model
    ensures "compartments" !in model ==> r["compartments"] == Names(["All"])
  {
    if "compartments" in model then model else model["compartments" := Names(["All"])]
  }

  /** What the parser returns for a configuration: fails when a section is
      missing or one of its values does not convert. */
  function ParseConfig(config: Config): (r: Result<Parsed>)
    ensures r.Ok? ==> "compartments" in r.value.model
  {
    var modelItems :- FindSection(config, "model");
    var model :- Fill(modelItems, ModelConverter());
    var initialItems :- FindSection(config, "initial state");
    var initialState :- Fill(initialItems, InitialStateConverter());
    var simulationItems :- FindSection(config, "simulation");
    var simulation :- Fill(simulationItems, SimulationConverter());
    Ok(Parsed(WithCompartments(model), initialState, simulation))
  }

  /** The parse fails exactly when one of the three sections is missing or
      holds a value that does not convert; otherwise each dictionary is its
      section's conversion, the model's with the compartments default. */
  lemma ParseConfigSections(config: Config)
    ensures ParseConfig(config).Ok? <==>
              FindSection(config, "model").Ok? && Fill(FindSection(config, "model").value, ModelConverter()).Ok? &&
              FindSection(config, "initial state").Ok? &&
              Fill(FindSection(config, "initial state").value, InitialStateConverter()).Ok? &&
              FindSection(config, "simulation").Ok? &&
              Fill(FindSection(config, "simulation").value, SimulationConverter()).Ok?
    ensures ParseConfig(config).Ok? ==>
              var r := ParseConfig(config).value;
              r.model == WithCompartments(Fill(FindSection(config, "model").value, ModelConverter()).value) &&
              r.initialState == Fill(FindSection(config, "initial state").value, InitialStateConverter()).value &&
              r.simulation == Fill(FindSection(config, "simulation").value, SimulationConverter()).value
  {
  }

  /** The model keys are exactly the section's keys, case kept, plus
      "compartments", which is ["All"] unless the section gives it. */
  lemma ModelKeys(config: Config)
    requires ParseConfig(config).Ok?
    ensures FindSection(config, "model").Ok?
    ensures var items := FindSection(config, "model").value;
            var model := ParseConfig(config).value.model;
            model.Keys == (set p <- items :: p.0) + {"compartments"}
    ensures var items := FindSection(config, "model").value;
            (forall p <- items :: p.0 != "compartments") ==>
              ParseConfig(config).value.model["compartments"] == Names(["All"])
  {
  }

  /** The simulation section never fails on a value without a comma. */
  lemma SimulationAcceptsPlainValues(items: Section)
    requires forall k :: 0 <= k < |items| ==> ',' !in items[k].1
    ensures Fill(items, SimulationConverter()).Ok?
  {
  }

  /** One section's loop: converts each item in order into the dictionary. */
  method FillSection(items: Section, convert: Converter) returns (r: Result<Arguments>)
    ensures r == Fill(items, convert)
  {
    var arguments: Arguments := map[];
    var k := 0;
    while k < |items|
      invariant 0 <= k <= |items|
      invariant Fill(items[..k], convert) == Ok(arguments)
    {
      assert items[..k + 1][..k] == items[..k];
      var v := convert(items[k].0, items[k].1);
      if v.Fail? {
        return Fail;
      }
      arguments := arguments[items[k].0 := v.value];
      k := k + 1;
    }
    assert items[..k] == items;
    return Ok(arguments);
  }

  /** parse_config_ini: the three section loops and the compartments default. */
  method ParseConfigIni(config: Config) returns (r: Result<Parsed>)
    ensures r == ParseConfig(config)
  {
    var modelItems :- FindSection(config, "model");
    var model :- FillSection(modelItems, ModelConverter());
    if "compartments" !in model {
      model := model["compartments" := Names(["All"])];
    }
    var initialItems :- FindSection(config, "initial state");
    var initialState :- FillSection(initialItems, InitialStateConverter());
    var simulationItems :- FindSection(config, "simulation");
    var simulation :- FillSection(simulationItems, SimulationConverter());
    return Ok(Parsed(model, initialState, simulation));
  }

  /** Natural numbers written in decimal and joined with commas read back as
      that list of floats. */
  lemma FloatListOfDecimals(ns: seq<nat>)
    requires |ns| >= 1
    ensures var texts := seq(|ns|, k requires 0 <= k < |ns| => DecimalText(ns[k]));
            FloatList(Join(texts, ',')) == Ok(seq(|ns|, k requires 0 <= k < |ns| => ns[k] as real))
  {
    var texts := seq(|ns|, k requires 0 <= k < |ns| => DecimalText(ns[k]));
    var reals := seq(|ns|, k requires 0 <= k < |ns| => ns[k] as real);
    DecimalsSplit(ns, texts);
    forall k | 0 <= k < |ns|
      ensures ParseFloat(texts[k]) == Ok(reals[k])
    {
      ParseRealDecimal(ns[k]);
    }
    MapResultAll(texts, ParseFloat, reals);
  }

  lemma DecimalsSplit(ns: seq<nat>, texts: seq<string>)
    requires |ns| >= 1 && |texts| == |ns|
    requires forall k :: 0 <= k < |ns| ==> texts[k] == DecimalText(ns[k])
    ensures Split(Join(texts, ','), ',') == texts
  {
    forall t <- texts
      ensures ',' !in t
    {
      DigitsHaveNo(t, ',');
    }
    SplitJoin(texts, ',');
  }
}
