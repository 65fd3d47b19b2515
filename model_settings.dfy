/**
 * The model registry: named chat models, the one currently selected, the
 * client class last chosen and the keyword arguments last built. The client
 * constructor is outside the model; whether it raises is a parameter.
 */
module ModelRegistry {
  import opened Wrappers
  import PyDict

  datatype Provider = OpenAI | Anthropic | Google

  /** The values the configuration dict holds. */
  datatype Value = Str(s: string) | Float(r: real) | Int(i: int) | NoneValue

  /** The fields of a model configuration; the defaults are in `Configure`. */
  datatype ModelConfig = ModelConfig(
    provider: Provider,
    modelName: string,
    temperature: real,
    maxTokens: Option<int>,
    apiKey: Option<string>,
    additionalParams: PyDict.Dict<Value>)

  const DefaultTemperature: real := 0.7

  /** A configuration that sets only the provider and the model name. */
  function Configure(provider: Provider, modelName: string): (c: ModelConfig)
    ensures c.provider == provider && c.modelName == modelName
    ensures c.temperature == DefaultTemperature && c.maxTokens.None? && c.apiKey.None?
    ensures PyDict.Valid(c.additionalParams) && c.additionalParams.keys == []
  {
    ModelConfig(provider, modelName, DefaultTemperature, None, None, PyDict.Empty())
  }

  function OptionalInt(o: Option<int>): Value {
    match o
    case Some(i) => Int(i)
    case None => NoneValue
  }

  function OptionalStr(o: Option<string>): Value {
    match o
    case Some(s) => Str(s)
    case None => NoneValue
  }

  const BaseKeys: seq<string> := ["model", "temperature", "max_tokens", "api_key"]

  /** The four base settings, as the pairs of the literal. */
  function BasePairs(c: ModelConfig): (pairs: seq<(string, Value)>)
    ensures PyDict.Firsts(pairs) == BaseKeys
  {
    [("model", Str(c.modelName)), ("temperature", Float(c.temperature)),
     ("max_tokens", OptionalInt(c.maxTokens)), ("api_key", OptionalStr(c.apiKey))]
  }

  /** The keyword arguments for the client: the four base settings followed by
      `**additional_params`. */
  function ConfigDict(c: ModelConfig): (d: PyDict.Dict<Value>)
    requires PyDict.Valid(c.additionalParams)
    ensures PyDict.Valid(d)
  {
    PyDict.FromPairs(BasePairs(c) + PyDict.Items(c.additionalParams))
  }

  lemma BaseKeysDistinct()
    ensures PyDict.Distinct(BaseKeys)
  {
  }

  /** The keys of the configuration dict: the four base keys first, then the
      additional keys that are not among them, in their own order. */
  lemma ConfigDictKeys(c: ModelConfig)
    requires PyDict.Valid(c.additionalParams)
    ensures ConfigDict(c).keys == PyDict.FirstOccurrences(BaseKeys + c.additionalParams.keys)
    ensures forall k :: k in ConfigDict(c).values <==> k in BaseKeys || k in c.additionalParams.values
  {
    var pairs := BasePairs(c) + PyDict.Items(c.additionalParams);
    PyDict.FromPairsKeys(pairs);
    PyDict.FromPairsDomain(pairs);
    assert PyDict.Firsts(pairs) == BaseKeys + c.additionalParams.keys;
    assert forall k :: k in c.additionalParams.keys <==> k in c.additionalParams.values by {
      assert (set k | k in c.additionalParams.keys) == c.additionalParams.values.Keys;
    }
  }

  /** An additional parameter overrides the base setting of the same name. */
  lemma AdditionalParamsOverride(c: ModelConfig, k: string)
    requires PyDict.Valid(c.additionalParams) && k in c.additionalParams.values
    ensures k in ConfigDict(c).values && ConfigDict(c).values[k] == c.additionalParams.values[k]
  {
    var items := PyDict.Items(c.additionalParams);
    var pairs := BasePairs(c) + items;
    assert k in c.additionalParams.keys by {
      assert k in (set x | x in c.additionalParams.keys);
    }
    var i :| 0 <= i < |c.additionalParams.keys| && c.additionalParams.keys[i] == k;
    assert pairs[4 + i] == (k, c.additionalParams.values[k]);
    forall j | 4 + i < j < |pairs|
      ensures pairs[j].0 != k
    {
      assert pairs[j] == items[j - 4];
    }
    PyDict.FromPairsLastWins(pairs, 4 + i);
  }

  /** A base setting that no additional parameter names keeps its value. */
  lemma BaseSettingKept(c: ModelConfig, i: nat)
    requires PyDict.Valid(c.additionalParams) && i < 4 && BaseKeys[i] !in c.additionalParams.values
    ensures BaseKeys[i] in ConfigDict(c).values && ConfigDict(c).values[BaseKeys[i]] == BasePairs(c)[i].1
  {
    var items := PyDict.Items(c.additionalParams);
    var pairs := BasePairs(c) + items;
    forall j | i < j < |pairs|
      ensures pairs[j].0 != pairs[i].0
    {
      if j >= 4 {
        assert pairs[j] == items[j - 4];
        assert c.additionalParams.keys[j - 4] in (set x | x in c.additionalParams.keys);
      }
    }
    PyDict.FromPairsLastWins(pairs, i);
  }

  /* ----------------------------------------------------------- the registry */

  /** The client classes the registry names; only the OpenAI one is in scope. */
  datatype ClientClass = ChatOpenAI

  /** A constructed client: its class and the keyword arguments it was given. */
  datatype ChatModel = ChatModel(client: ClientClass, params: PyDict.Dict<Value>)

  /** An entry of `models`: the client and the configuration it came from. */
  datatype ModelEntry = ModelEntry(model: ChatModel, config: ModelConfig)

  /** The exceptions the registry raises. */
  datatype Error = ValueError(message: string) | KeyError(key: string)

  /** The registry's fields; `configDict` is absent until the first registration. */
  datatype Registry = Registry(
    models: PyDict.Dict<ModelEntry>,
    currentModel: Option<string>,
    baseModel: Option<ClientClass>,
    configDict: Option<PyDict.Dict<Value>>)

  /** Python truthiness of an optional name: set and not empty. */
  predicate Truthy(o: Option<string>) {
    o.Some? && o.value != ""
  }

  /** The models dict is well formed and the selected name, when set, is registered. */
  predicate Consistent(r: Registry) {
    PyDict.Valid(r.models) && (r.currentModel.Some? ==> r.currentModel.value in r.models.values)
  }

  /** A fresh registry: no models, nothing selected, no client class. */
  function Init(): (r: Registry)
    ensures Consistent(r) && r.models.keys == [] && r.currentModel.None?
  {
    Registry(PyDict.Empty(), None, None, None)
  }

  /** `register_model(name, config)`. The configuration dict is always rebuilt.
      An OpenAI configuration selects the OpenAI client class; the model is
      stored, and selected when nothing truthy is, unless the constructor raises.
      The Anthropic and Google clients are never imported, so those branches
      raise a NameError, which the method catches and reports: nothing else changes. */
  function Register(r: Registry, name: string, config: ModelConfig, clientRaises: bool): (r': Registry)
    requires PyDict.Valid(r.models) && PyDict.Valid(config.additionalParams)
    ensures PyDict.Valid(r'.models)
  {
    var cd := ConfigDict(config);
    var r1 := r.(configDict := Some(cd));
    match config.provider
    case OpenAI =>
      var r2 := r1.(baseModel := Some(ChatOpenAI));
      if clientRaises then r2
      else r2.(models := PyDict.Assign(r.models, name, ModelEntry(ChatModel(ChatOpenAI, cd), config)),
               currentModel := if Truthy(r.currentModel) then r.currentModel else Some(name))
    case Anthropic => r1
    case Google => r1
  }

  /** Whether a registration stores its model. */
  predicate Stored(config: ModelConfig, clientRaises: bool) {
    config.provider == OpenAI && !clientRaises
  }

  /** `switch_model(name)`. */
  function Switch(r: Registry, name: string): (result: Result<Registry, Error>)
    ensures result.Failure? <==> name !in r.models.values
    ensures result.Success? ==> result.value.currentModel == Some(name)
    ensures result.Success? ==> result.value.models == r.models && result.value.baseModel == r.baseModel
                                && result.value.configDict == r.configDict
  {
    if name !in r.models.values then Failure(ValueError("Model " + name + " not found"))
    else Success(r.(currentModel := Some(name)))
  }

  /** `get_current_model()`. */
  function GetCurrent(r: Registry): (result: Result<ChatModel, Error>)
  {
    if !Truthy(r.currentModel) then Failure(ValueError("No model selected"))
    else if r.currentModel.value !in r.models.values then Failure(KeyError(r.currentModel.value))
    else Success(r.models.values[r.currentModel.value].model)
  }

  /** `list_models()`: the registered names in registration order. */
  function ListModels(r: Registry): (names: seq<string>)
    requires PyDict.Valid(r.models)
    ensures PyDict.Distinct(names)
    ensures forall n :: n in names <==> n in r.models.values
  {
    assert forall n :: n in r.models.keys <==> n in (set k | k in r.models.keys);
    r.models.keys
  }

  /** Registration keeps the registry consistent. */
  lemma RegisterConsistent(r: Registry, name: string, config: ModelConfig, clientRaises: bool)
    requires Consistent(r) && PyDict.Valid(config.additionalParams)
    ensures Consistent(Register(r, name, config, clientRaises))
  {
  }

  /** Switching keeps the registry consistent, and fails without any change. */
  lemma SwitchConsistent(r: Registry, name: string)
    requires Consistent(r)
    ensures Switch(r, name).Success? ==> Consistent(Switch(r, name).value)
    ensures Switch(r, name).Failure? ==> Switch(r, name).error == ValueError("Model " + name + " not found")
  {
  }

  /** A registration stores the model under its name, replacing any earlier one,
      exactly when the provider is OpenAI and the constructor does not raise;
      every other entry is untouched. */
  lemma RegisterStores(r: Registry, name: string, config: ModelConfig, clientRaises: bool)
    requires PyDict.Valid(r.models) && PyDict.Valid(config.additionalParams)
    ensures var r' := Register(r, name, config, clientRaises);
            && r'.configDict == Some(ConfigDict(config))
            && (Stored(config, clientRaises) ==>
                  r'.models.values == r.models.values[name := ModelEntry(ChatModel(ChatOpenAI, ConfigDict(config)), config)])
            && (!Stored(config, clientRaises) ==> r'.models == r.models && r'.currentModel == r.currentModel)
            && (config.provider == OpenAI ==> r'.baseModel == Some(ChatOpenAI))
            && (config.provider != OpenAI ==> r'.baseModel == r.baseModel)
  {
  }

  /** Registration never moves a truthy selection; a stored model becomes the
      selection when there is none (or it is the empty name). */
  lemma RegisterSelects(r: Registry, name: string, config: ModelConfig, clientRaises: bool)
    requires PyDict.Valid(r.models) && PyDict.Valid(config.additionalParams)
    ensures Truthy(r.currentModel) ==> Register(r, name, config, clientRaises).currentModel == r.currentModel
    ensures !Truthy(r.currentModel) && Stored(config, clientRaises) ==>
              Register(r, name, config, clientRaises).currentModel == Some(name)
  {
  }

  /** A stored name is listed at the end if it is new, and the order is kept if
      it replaces an earlier model. */
  lemma RegisterListOrder(r: Registry, name: string, config: ModelConfig, clientRaises: bool)
    requires PyDict.Valid(r.models) && PyDict.Valid(config.additionalParams)
    ensures ListModels(Register(r, name, config, clientRaises)) ==
              if Stored(config, clientRaises) && name !in r.models.values then ListModels(r) + [name] else ListModels(r)
  {
  }

  /** After a successful switch the current model is the one registered under that name. */
  lemma SwitchThenGet(r: Registry, name: string)
    requires Consistent(r) && name in r.models.values && name != ""
    ensures Switch(r, name).Success?
    ensures GetCurrent(Switch(r, name).value) == Success(r.models.values[name].model)
  {
  }

  /** In a consistent registry the lookup never fails for a missing key: it
      returns the selected model or reports that nothing is selected. */
  lemma GetCurrentTotal(r: Registry)
    requires Consistent(r)
    ensures GetCurrent(r).Success? <==> Truthy(r.currentModel)
    ensures GetCurrent(r).Failure? ==> GetCurrent(r).error == ValueError("No model selected")
  {
  }

  /** The first model registered in a fresh registry is listed and selected, and
      the lookup returns the OpenAI client built from its configuration dict. */
  lemma FirstRegistration(name: string, config: ModelConfig)
    requires config.provider == OpenAI && PyDict.Valid(config.additionalParams) && name != ""
    ensures var r := Register(Init(), name, config, false);
            && ListModels(r) == [name]
            && GetCurrent(r) == Success(ChatModel(ChatOpenAI, ConfigDict(config)))
  {
  }

  /** A model registered under the empty name is listed, yet the lookup reports
      that no model is selected, since the empty name is not truthy. */
  lemma EmptyNameNotSelected(config: ModelConfig)
    requires config.provider == OpenAI && PyDict.Valid(config.additionalParams)
    ensures var r := Register(Init(), "", config, false);
            && ListModels(r) == [""]
            && GetCurrent(r) == Failure(ValueError("No model selected"))
  {
  }

  /** Anthropic and Google models can never be registered. */
  lemma OnlyOpenAIRegisters(r: Registry, name: string, config: ModelConfig, clientRaises: bool)
    requires PyDict.Valid(r.models) && PyDict.Valid(config.additionalParams)
    requires config.provider != OpenAI
    ensures ListModels(Register(r, name, config, clientRaises)) == ListModels(r)
    ensures GetCurrent(Register(r, name, config, clientRaises)) == GetCurrent(r)
  {
  }

  /** `ModelSettings`: the registry as an object whose methods update its fields. */
  class ModelSettings {
    var models: PyDict.Dict<ModelEntry>
    var currentModel: Option<string>
    var baseModel: Option<ClientClass>
    var configDict: Option<PyDict.Dict<Value>>

    function State(): Registry
      reads this
    {
      Registry(models, currentModel, baseModel, configDict)
    }

    predicate Valid()
      reads this
    {
      Consistent(State())
    }

    constructor()
      ensures Valid() && State() == Init()
    {
      models := PyDict.Empty();
      currentModel := None;
      baseModel := None;
      configDict := None;
    }

    method RegisterModel(name: string, config: ModelConfig, clientRaises: bool)
      requires Valid() && PyDict.Valid(config.additionalParams)
      modifies this
      ensures Valid()
      ensures State() == Register(old(State()), name, config, clientRaises)
    {
      configDict := Some(ConfigDict(config));
      if config.provider == OpenAI {
        baseModel := Some(ChatOpenAI);
        if !clientRaises {
          var model := ChatModel(ChatOpenAI, configDict.value);
          models := PyDict.Assign(models, name, ModelEntry(model, config));
          if !Truthy(currentModel) {
            currentModel := Some(name);
          }
        }
      }
      RegisterConsistent(old(State()), name, config, clientRaises);
    }

    method SwitchModel(name: string) returns (outcome: Outcome<Error>)
      requires Valid()
      modifies this
      ensures Valid()
      ensures Switch(old(State()), name).Success? ==> outcome == Pass && State() == Switch(old(State()), name).value
      ensures Switch(old(State()), name).Failure? ==> outcome == Fail(Switch(old(State()), name).error) && State() == old(State())
    {
      if name !in models.values {
        return Fail(ValueError("Model " + name + " not found"));
      }
      currentModel := Some(name);
      outcome := Pass;
    }

    method GetCurrentModel() returns (result: Result<ChatModel, Error>)
      requires Valid()
      ensures result == GetCurrent(State())
      ensures result.Success? <==> Truthy(currentModel)
    {
      if !Truthy(currentModel) {
        return Failure(ValueError("No model selected"));
      }
      result := Success(models.values[currentModel.value].model);
    }

    method ListModelNames() returns (names: seq<string>)
      requires Valid()
      ensures names == ListModels(State())
      ensures forall n :: n in names <==> n in models.values
    {
      names := models.keys;
    }
  }
}
