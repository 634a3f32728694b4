/** The build-time configuration: four required settings, checked in order. */
module Env {
  import opened Wrappers

  /** `requireString`: a missing or empty value is an error naming the setting; any other value is returned as it is. */
  function RequireString(name: string, v: Option<string>): (r: Result<string>)
    ensures r.Err? <==> v.None? || v.value == ""
    ensures r.Err? ==> r.message == "Missing env: " + name
    ensures r.Ok? ==> r.value == v.value
  {
    if v.None? || v.value == "" then Err("Missing env: " + name) else Ok(v.value)
  }

  /** The `env` record. `appEnv` is any non-empty text: the cast checks nothing. */
  datatype EnvConfig = EnvConfig(apiBaseUrl: string, appEnv: string, apiPrefix: string, defaultLocale: string)

  /** The four settings, in the order the record reads them. */
  const EnvKeys: seq<string> := ["VITE_API_BASE_URL", "VITE_APP_ENV", "VITE_API_PREFIX", "VITE_DEFAULT_LOCALE"]

  predicate Present(vars: map<string, string>, name: string) {
    name in vars && vars[name] != ""
  }

  function Read(vars: map<string, string>, name: string): Option<string> {
    if name in vars then Some(vars[name]) else None
  }

  /** Building `env`: the first setting that fails stops it; with all four present the record holds them. */
  function LoadEnv(vars: map<string, string>): (r: Result<EnvConfig>)
    ensures r.Ok? <==> forall i :: 0 <= i < |EnvKeys| ==> Present(vars, EnvKeys[i])
    ensures r.Ok? ==> r.value == EnvConfig(vars[EnvKeys[0]], vars[EnvKeys[1]], vars[EnvKeys[2]], vars[EnvKeys[3]])
  {
    var base := RequireString(EnvKeys[0], Read(vars, EnvKeys[0]));
    if base.Err? then Err(base.message) else
    var appEnv := RequireString(EnvKeys[1], Read(vars, EnvKeys[1]));
    if appEnv.Err? then Err(appEnv.message) else
    var prefix := RequireString(EnvKeys[2], Read(vars, EnvKeys[2]));
    if prefix.Err? then Err(prefix.message) else
    var locale := RequireString(EnvKeys[3], Read(vars, EnvKeys[3]));
    if locale.Err? then Err(locale.message) else
    Ok(EnvConfig(base.value, appEnv.value, prefix.value, locale.value))
  }

  /** The error names the first missing setting in declaration order. */
  lemma FirstMissingReported(vars: map<string, string>, k: nat)
    requires k < |EnvKeys| && !Present(vars, EnvKeys[k])
    requires forall i :: 0 <= i < k ==> Present(vars, EnvKeys[i])
    ensures LoadEnv(vars) == Err("Missing env: " + EnvKeys[k])
  {
  }

  /** Only emptiness is checked: any non-empty text passes as the environment name. */
  lemma AppEnvUnchecked(vars: map<string, string>, appEnv: string)
    requires appEnv != ""
    requires Present(vars, EnvKeys[0]) && Present(vars, EnvKeys[2]) && Present(vars, EnvKeys[3])
    ensures LoadEnv(vars[EnvKeys[1] := appEnv]).Ok?
    ensures LoadEnv(vars[EnvKeys[1] := appEnv]).value.appEnv == appEnv
  {
    var vars' := vars[EnvKeys[1] := appEnv];
    assert forall i :: 0 <= i < |EnvKeys| ==> Present(vars', EnvKeys[i]);
  }
}
