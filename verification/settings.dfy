/** `loadSettings` of the agent's configuration, as a function of the
    process environment. */
module Settings {
  import opened Wrappers

  datatype Settings = Settings(openaiApiKey: string, openaiApiBase: string, openaiModel: string)

  /** The process environment: variable name to value. */
  type Environment = map<string, string>

  const ApiKeyVar: string := "OPENAI_API_KEY"
  const ApiBaseVar: string := "OPENAI_API_BASE"
  const ModelVar: string := "OPENAI_MODEL"
  const DefaultApiBase: string := "https://api.openai.com/v1"
  const DefaultModel: string := "gpt-4o"
  const MissingKeyError: string := "OPENAI_API_KEY environment variable is required"

  /** `process.env[name]`, `None` when the variable is unset. */
  function Lookup(env: Environment, name: string): Option<string>
  {
    if name in env then Some(env[name]) else None
  }

  /** `loadSettings()`: the key must be set and non-empty (the check is on
      falsiness); base URL and model fall back to their defaults only when
      unset (`??`), so a set but empty value is kept. */
  function LoadSettings(env: Environment): (r: Result<Settings, string>)
    ensures r.Failure? <==> ApiKeyVar !in env || env[ApiKeyVar] == ""
    ensures r.Failure? ==> r.error == MissingKeyError
    ensures r.Success? ==> r.value.openaiApiKey == env[ApiKeyVar] && r.value.openaiApiKey != ""
    ensures r.Success? ==> r.value.openaiApiBase == (if ApiBaseVar in env then env[ApiBaseVar] else DefaultApiBase)
    ensures r.Success? ==> r.value.openaiModel == (if ModelVar in env then env[ModelVar] else DefaultModel)
  {
    var openaiApiKey := Lookup(env, ApiKeyVar);
    var openaiApiBase := Lookup(env, ApiBaseVar).GetOr(DefaultApiBase);
    var openaiModel := Lookup(env, ModelVar).GetOr(DefaultModel);
    if openaiApiKey.None? || openaiApiKey.value == "" then Failure(MissingKeyError)
    else Success(Settings(openaiApiKey.value, openaiApiBase, openaiModel))
  }

  /** The environment that sets exactly the three variables to a settings
      value's fields. */
  function EnvironmentOf(s: Settings): (env: Environment)
    ensures env.Keys == {ApiKeyVar, ApiBaseVar, ModelVar}
  {
    map[ApiKeyVar := s.openaiApiKey, ApiBaseVar := s.openaiApiBase, ModelVar := s.openaiModel]
  }

  /** Loading is the inverse of writing the settings into the environment,
      for every settings value with a non-empty key. */
  lemma LoadSettingsRoundTrip(s: Settings)
    requires s.openaiApiKey != ""
    ensures LoadSettings(EnvironmentOf(s)) == Success(s)
  {
    var env := EnvironmentOf(s);
    assert ApiKeyVar != ApiBaseVar && ApiKeyVar != ModelVar && ApiBaseVar != ModelVar;
    assert env[ApiKeyVar] == s.openaiApiKey;
    assert env[ApiBaseVar] == s.openaiApiBase;
    assert env[ModelVar] == s.openaiModel;
  }

  /** Two environments that agree on the three variables load to the same
      outcome: no other variable is consulted. */
  lemma LoadSettingsReadsOnlyItsVariables(env1: Environment, env2: Environment)
    requires forall name :: name in {ApiKeyVar, ApiBaseVar, ModelVar} ==>
      Lookup(env1, name) == Lookup(env2, name)
    ensures LoadSettings(env1) == LoadSettings(env2)
  {
    assert Lookup(env1, ApiKeyVar) == Lookup(env2, ApiKeyVar);
    assert Lookup(env1, ApiBaseVar) == Lookup(env2, ApiBaseVar);
    assert Lookup(env1, ModelVar) == Lookup(env2, ModelVar);
  }

  /** The edge cases: an empty key is refused like a missing one, while an
      empty base URL is kept rather than replaced by the default. */
  lemma LoadSettingsEmptyValues()
    ensures LoadSettings(map[ApiKeyVar := ""]) == Failure(MissingKeyError)
    ensures LoadSettings(map[]) == Failure(MissingKeyError)
    ensures LoadSettings(map[ApiKeyVar := "k", ApiBaseVar := ""]) == Success(Settings("k", "", DefaultModel))
    ensures LoadSettings(map[ApiKeyVar := "k"]) == Success(Settings("k", DefaultApiBase, DefaultModel))
  {
  }
}
