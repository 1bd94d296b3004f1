/**
  `config set`: what each key accepts, and what loading, checking and saving
  the whole configuration around one assignment does to every other key.
*/
module ConfigSet {
  import opened Wrappers
  import opened Text
  import FlagList

  /** What a key holds; `Unset` is an absent switch or number, which has a default. */
  datatype Value = Unset | Num(n: real) | Txt(text: string) | Words(words: seq<string>) | On(on: bool)

  /** A range, and single values with a meaning of their own. */
  datatype Band = Band(low: real, high: Option<real>, also: set<real>) {
    predicate Holds(v: real) {
      (low <= v && (high.Some? ==> v <= high.value)) || v in also
    }
  }

  /** How a key reads its text.  A number with a `blank` value takes white space around it, and nothing but that for the value. */
  datatype Rule =
    | Free
    | Trimmed
    | OneOf(words: set<string>)
    | Named(names: map<string, string>)
    | Listed
    | Switch(spaced: bool, clears: bool)
    | Number(band: Band, fraction: bool, blank: Option<Value>)

  const OFF := -1.0
  const CONNS := "ui.max_websocket_conns"
  const PER_IP := "ui.max_websocket_conns_per_ip"
  const PER_EXECUTOR := "executors.remote.max_pinned_writeback_bytes"
  const TOTAL := "executors.remote.max_pinned_writeback_total_bytes"
  const MIN_FREE := "orchestrator.min_free_disk_mb"
  const ATTEMPTS := "executors.failover.max_attempts"
  const SUDO := "ui.oidc.sudo_max_age_minutes"
  const MIN_AGENT := "executors.min_agent_build"
  const EVIDENCE := "executors.isolation_evidence"
  const INTERVAL := "audit.checkpoints.interval"
  const FILE := "audit.checkpoints.file"
  const GATE := "requirements.gate"

  const DEFAULT_PER_EXECUTOR := 268435456.0
  const DEFAULT_TOTAL := 1073741824.0

  function Whole(low: real, high: real, also: set<real>): Rule {
    Number(Band(low, Some(high), also), false, None)
  }

  function Least(low: real, fraction: bool): Rule {
    Number(Band(low, None, {}), fraction, None)
  }

  function NumberRule(key: string): (r: Option<Rule>)
    ensures r.Some? ==> r.value.Number?
  {
    match key
    case "max_parallel" => Some(Whole(1.0, 64.0, {}))
    case "orchestrator.min_free_disk_mb" => Some(Whole(64.0, 1048576.0, {0.0}))
    case "rate_limit.requests_per_second" => Some(Least(1.0, true))
    case "rate_limit.burst" => Some(Least(1.0, false))
    case "budget.monthly_usd" => Some(Least(0.0, true))
    case "budget.daily_usd_limit" => Some(Least(0.0, true))
    case "budget.daily_token_limit" => Some(Least(0.0, false))
    case "budget.alert_threshold_pct" => Some(Whole(0.0, 100.0, {}))
    case "budget.global_usd_pct" => Some(Number(Band(0.0, Some(100.0), {}), true, None))
    case "budget.global_token_pct" => Some(Number(Band(0.0, Some(100.0), {}), true, None))
    case "ui.max_websocket_conns" => Some(Whole(1.0, 4096.0, {0.0}))
    case "ui.max_websocket_conns_per_ip" => Some(Whole(1.0, 1024.0, {0.0}))
    case "executors.failover.max_attempts" => Some(Number(Band(0.0, Some(10.0), {}), false, Some(Unset)))
    case "executors.remote.max_pinned_writeback_bytes" =>
      Some(Number(Band(1048576.0, Some(68719476736.0), {0.0}), false, Some(Num(0.0))))
    case "executors.remote.max_pinned_writeback_total_bytes" =>
      Some(Number(Band(1048576.0, Some(68719476736.0), {0.0}), false, Some(Num(0.0))))
    case "ui.oidc.sudo_max_age_minutes" => Some(Whole(1.0, 1440.0, {0.0, OFF}))
    case "ui.oidc.session_ttl_hours" => Some(Whole(1.0, 720.0, {0.0}))
    case "ui.oidc.idle_timeout_hours" => Some(Whole(1.0, 720.0, {0.0}))
    case "ui.oidc.refresh_interval_minutes" => Some(Whole(1.0, 1440.0, {0.0, OFF}))
    case "ui.oidc.max_claim_age_minutes" => Some(Whole(1.0, 60.0, {0.0, OFF}))
    case "ui.oidc.cli_session_ttl_hours" => Some(Whole(1.0, 720.0, {0.0}))
    case "ui.oidc.cli_idle_timeout_hours" => Some(Whole(1.0, 720.0, {0.0}))
    case "ui.oidc.device_approval_max_age_minutes" => Some(Whole(1.0, 1440.0, {0.0, OFF}))
    case "ui.oidc.clock_skew_seconds" => Some(Whole(0.0, 600.0, {OFF}))
    case "ui.oidc.scim.offboard_after_days" => Some(Whole(0.0, 3650.0, {}))
    case "ui.oidc.scim.rate_limit_per_minute" => Some(Whole(10.0, 60000.0, {0.0}))
    case _ => None
  }

  const EFFORTS := OneOf({"", "low", "medium", "high", "xhigh", "max"})
  const GATES := map["" := "", "off" := "off", "linked" := "linked", "linked+must" := "linked+must",
                     "linked-must" := "linked+must", "linked_must" := "linked+must"]
  const ROLES := map["" := "", "none" := "none", "viewer" := "viewer", "operator" := "operator",
                     "maintainer" := "maintainer", "admin" := "admin"]
  const CLAIMS := map["" := "email", "email" := "email", "preferred_username" := "preferred_username",
                      "username" := "preferred_username", "oid" := "oid", "sub" := "sub"]

  predicate FreeKey(key: string) {
    key in {"anthropic.api_key", "anthropic.model", "anthropic.base_url", "openai.api_key", "openai.model",
            "openai.base_url", "ollama.base_url", "ollama.model", "claudecode.model", "copilot.model",
            "stt.groq_api_key", "stt.model", "stt.endpoint", "stt.language", "stt.whisper_model",
            "notify.slack_webhook", "notify.discord_webhook", "webhook.url", "github.token", "github.repo",
            "sync.remote", "sync.branch", "mock.responses_file", "mock.default", "tracing.endpoint",
            "tracing.service_name", "ui.oidc.issuer", "ui.oidc.client_id", "ui.oidc.client_secret", "ui.oidc.redirect_url"}
  }

  function TextRule(key: string): (r: Option<Rule>)
    ensures r.Some? ==> !r.value.Number?
  {
    match key
    case "provider" => Some(OneOf({"anthropic", "openai", "ollama", "claudecode", "copilot", "mock"}))
    case "claudecode.effort" => Some(EFFORTS)
    case "copilot.effort" => Some(EFFORTS)
    case "stt.provider" => Some(OneOf({"", "groq", "whisper"}))
    case "ui.oidc.cookie_secure" => Some(OneOf({"", "auto", "always", "never"}))
    case "ui.oidc.default_role" => Some(Named(ROLES))
    case "ui.oidc.scim.match_claim" => Some(Named(CLAIMS))
    case "requirements.gate" => Some(Named(GATES))
    case "executors.min_agent_build" => Some(Trimmed)
    case "executors.isolation_evidence" => Some(Trimmed)
    case "audit.checkpoints.interval" => Some(Trimmed)
    case "audit.checkpoints.file" => Some(Trimmed)
    case "webhook.events" => Some(Listed)
    case "github.labels" => Some(Listed)
    case "ui.oidc.admin_emails" => Some(Listed)
    case "ui.oidc.scopes" => Some(Listed)
    case "tracing.enabled" => Some(Switch(false, false))
    case "ui.oidc.enabled" => Some(Switch(false, false))
    case "ui.oidc.require_idp" => Some(Switch(false, false))
    case "ui.oidc.require_rbac" => Some(Switch(false, false))
    case "executors.allow_host_process" => Some(Switch(true, false))
    case "ui.oidc.device_login" => Some(Switch(true, false))
    case "requirements.assess" => Some(Switch(true, true))
    case "audit.checkpoints.stderr" => Some(Switch(true, true))
    case _ => if FreeKey(key) then Some(Free) else None
  }

  function RuleOf(key: string): Option<Rule> {
    match NumberRule(key)
    case Some(r) => Some(r)
    case None => TextRule(key)
  }

  /** Lower case as far as it matters here: every letter whose lower case is an ASCII one. */
  function LowerChar(c: char): char {
    if 'A' <= c <= 'Z' then (c as int + 32) as char
    else if c == '\U{0130}' then 'i'
    else if c == '\U{212A}' then 'k'
    else c
  }

  function Lower(s: string): string {
    if s == "" then "" else [LowerChar(s[0])] + Lower(s[1..])
  }

  /**
    Code outside this command: reading numbers, ordering versions, reading
    durations, judging a path, and what loading repairs in and checking asks of
    the fields no key sets.
  */
  datatype Library = Library(whole: string -> Option<int>, number: string -> Option<real>, version: string -> bool,
                             duration: string -> bool, path: string -> bool, repair: string -> string, sound: string -> bool)

  datatype Reading = Read(v: Value) | Unreadable | OutOfRange

  function NamedIn(names: map<string, string>, text: string): Option<string> {
    var w := if Trim(text) == "" then "" else Lower(Trim(text));
    if w in names then Some(names[w]) else None
  }

  function ReadNumber(rule: Rule, text: string, lib: Library): Reading
    requires rule.Number?
  {
    var t := if rule.blank.Some? then Trim(text) else text;
    if rule.blank.Some? && t == "" then Read(rule.blank.value)
    else
      var n :=
        if rule.fraction then lib.number(t)
        else match lib.whole(t) case Some(i) => Some(i as real) case None => None;
      if n.None? then Unreadable
      else if !rule.band.Holds(n.value) then OutOfRange
      else Read(Num(n.value))
  }

  function ReadText(rule: Rule, text: string, lib: Library): Reading {
    match rule
    case Free => Read(Txt(text))
    case Trimmed => Read(Txt(Trim(text)))
    case OneOf(words) => if text in words then Read(Txt(text)) else OutOfRange
    case Named(names) => (match NamedIn(names, text) case Some(w) => Read(Txt(w)) case None => OutOfRange)
    case Listed => Read(Words(FlagList.Kept(Split(text, ','))))
    case Switch(spaced, clears) =>
      var w := Lower(if spaced then Trim(text) else text);
      if w in {"true", "1", "yes", "on"} then Read(On(true))
      else if w in {"false", "0", "no", "off"} then Read(On(false))
      else if w == "" && clears then Read(Unset)
      else OutOfRange
    case Number(_, _, _) => ReadNumber(rule, text, lib)
  }

  /** The configuration: what each key holds, and the fields no key sets. */
  datatype Config = Config(keys: map<string, Value>, rest: string)

  function At(c: Config, key: string): Value {
    if key in c.keys then c.keys[key] else Unset
  }

  function With(c: Config, key: string, v: Value): Config {
    c.(keys := c.keys[key := v])
  }

  /** A number not set counts as 0, which every checked key reads as its default. */
  function Amount(v: Value): real {
    if v.Num? then v.n else 0.0
  }

  function TextOf(v: Value): string {
    if v.Txt? then v.text else ""
  }

  // --------------------------------------------------------- the whole check

  const CHECKED := {"max_parallel", MIN_FREE, "rate_limit.requests_per_second", "rate_limit.burst", "budget.monthly_usd",
                    "budget.daily_usd_limit", "budget.daily_token_limit", "budget.alert_threshold_pct",
                    "budget.global_usd_pct", "budget.global_token_pct", CONNS, PER_IP, ATTEMPTS, PER_EXECUTOR, TOTAL, SUDO,
                    MIN_AGENT, EVIDENCE, INTERVAL, FILE, GATE}

  predicate InBand(key: string, v: Value) {
    var r := NumberRule(key);
    r.None? || Amount(v) == 0.0 || r.value.band.Holds(Amount(v))
  }

  predicate TextSound(key: string, text: string, lib: Library) {
    if key == MIN_AGENT then Trim(text) == "" || lib.version(Trim(text))
    else if key == EVIDENCE then Trim(text) in {"", "warn", "required"}
    else if key == INTERVAL then Trim(text) == "" || lib.duration(Trim(text))
    else if key == FILE then Trim(text) == "" || lib.path(text)
    else if key == GATE then NamedIn(GATES, text).Some?
    else true
  }

  /** What the check of the whole configuration asks of one key alone. */
  predicate Sound(key: string, v: Value, lib: Library) {
    key in CHECKED ==> InBand(key, v) && TextSound(key, TextOf(v), lib)
  }

  predicate LimitsAgree(conns: real, perIp: real) {
    conns == 0.0 || perIp == 0.0 || perIp <= conns
  }

  function Effective(n: real, otherwise: real): real {
    if n == 0.0 then otherwise else n
  }

  predicate BudgetsAgree(perExecutor: real, total: real) {
    Effective(perExecutor, DEFAULT_PER_EXECUTOR) <= Effective(total, DEFAULT_TOTAL)
  }

  /** The two checks that read two keys. */
  predicate PairsAgree(c: Config) {
    && LimitsAgree(Amount(At(c, CONNS)), Amount(At(c, PER_IP)))
    && BudgetsAgree(Amount(At(c, PER_EXECUTOR)), Amount(At(c, TOTAL)))
  }

  predicate Validates(c: Config, lib: Library) {
    (forall k :: k in CHECKED ==> Sound(k, At(c, k), lib)) && PairsAgree(c) && lib.sound(c.rest)
  }

  // ----------------------------------------------------------------- loading

  /** Keys the check refuses but loading leaves as they are. */
  predicate Unrepaired(key: string) {
    key in {SUDO, MIN_AGENT, EVIDENCE}
  }

  function Reset(key: string): Value {
    if key == MIN_FREE || key == ATTEMPTS then Unset
    else if key == INTERVAL || key == FILE || key == GATE then Txt("")
    else Num(0.0)
  }

  /** What loading makes of one key alone: a mode is written as it is stored, an unsound value goes back to its default. */
  function Repaired(key: string, v: Value, lib: Library): Value {
    if Unrepaired(key) then v
    else if !Sound(key, v, lib) then Reset(key)
    else if key == GATE && Trim(TextOf(v)) != "" then Txt(NamedIn(GATES, TextOf(v)).value)
    else v
  }

  /** And of the keys of a pair together: a limit above the other goes back to its default, a budget is lowered to the total. */
  function ClampedKey(c: Config, key: string, lib: Library): Value {
    var own := Repaired(key, At(c, key), lib);
    if key == PER_IP && !LimitsAgree(Amount(Repaired(CONNS, At(c, CONNS), lib)), Amount(own)) then Num(0.0)
    else if key == PER_EXECUTOR && !BudgetsAgree(Amount(own), Amount(Repaired(TOTAL, At(c, TOTAL), lib))) then
      Num(Effective(Amount(Repaired(TOTAL, At(c, TOTAL), lib)), DEFAULT_TOTAL))
    else own
  }

  /** What the clamp makes of a whole configuration. */
  function Clamp(c: Config, lib: Library): Config {
    Config(map k | k in c.keys.Keys + {PER_EXECUTOR} :: ClampedKey(c, k, lib), lib.repair(c.rest))
  }

  /** What a file that does not say so holds for a key; `step_timeout`, which no key sets, is among the other fields. */
  function Default(key: string): Option<string> {
    match key
    case "provider" => Some("claudecode")
    case "anthropic.model" => Some("claude-opus-4-6")
    case "openai.model" => Some("gpt-4o")
    case "ollama.base_url" => Some("http://localhost:11434")
    case "ollama.model" => Some("llama3.2")
    case _ => None
  }

  const DEFAULTED := {"provider", "anthropic.model", "openai.model", "ollama.base_url", "ollama.model"}

  /** The file over the defaults. */
  function Filled(file: Config): Config {
    file.(keys := map k | k in file.keys.Keys + DEFAULTED ::
      if k in file.keys then file.keys[k] else if Default(k).Some? then Txt(Default(k).value) else Unset)
  }

  /** What loading makes of one key of a file. */
  function LoadedKey(file: Config, key: string, lib: Library): Value {
    ClampedKey(Filled(file), key, lib)
  }

  type Env = map<string, string>

  function Getenv(env: Env, name: string): Option<string> {
    if name in env && env[name] != "" then Some(env[name]) else None
  }

  /** What the environment supplies for a key, and saving writes to the file. */
  function Plain(env: Env, key: string): Option<string> {
    match key
    case "provider" => Getenv(env, "CLOOP_PROVIDER")
    case "anthropic.base_url" => Getenv(env, "ANTHROPIC_BASE_URL")
    case "openai.base_url" => Getenv(env, "OPENAI_BASE_URL")
    case "ollama.base_url" => Getenv(env, "OLLAMA_BASE_URL")
    case _ => None
  }

  /** What it supplies for a credential, which saving takes back. */
  function Secret(env: Env, key: string): Option<string> {
    match key
    case "ui.oidc.client_secret" => Getenv(env, "CLOOP_OIDC_CLIENT_SECRET")
    case "anthropic.api_key" => Getenv(env, "ANTHROPIC_API_KEY")
    case "openai.api_key" => Getenv(env, "OPENAI_API_KEY")
    case "github.token" => Getenv(env, "GITHUB_TOKEN")
    case _ => None
  }

  const PLAIN_KEYS := {"provider", "anthropic.base_url", "openai.base_url", "ollama.base_url"}
  const SECRET_KEYS := {"ui.oidc.client_secret", "anthropic.api_key", "openai.api_key", "github.token"}

  function Overlaid(env: Env, key: string, v: Value): Value {
    if Plain(env, key).Some? then Txt(Plain(env, key).value)
    else if Secret(env, key).Some? then Txt(Secret(env, key).value)
    else v
  }

  function Supplied(env: Env): set<string> {
    set k | k in PLAIN_KEYS + SECRET_KEYS && (Plain(env, k).Some? || Secret(env, k).Some?)
  }

  function Overlay(c: Config, env: Env): Config {
    c.(keys := map k | k in c.keys.Keys + Supplied(env) :: Overlaid(env, k, At(c, k)))
  }

  /** What the file held where the environment supplied a credential. */
  function Shadow(c: Config, env: Env): map<string, Value> {
    map k | k in SECRET_KEYS && Secret(env, k).Some? :: At(c, k)
  }

  /** A credential that is still the environment's is saved as the file held it. */
  function Unmasked(env: Env, key: string, v: Value, shadow: map<string, Value>): Value {
    if Secret(env, key).Some? && v == Txt(Secret(env, key).value) && key in shadow then shadow[key] else v
  }

  function Restored(c: Config, env: Env, shadow: map<string, Value>): Config {
    c.(keys := map k | k in c.keys :: Unmasked(env, k, c.keys[k], shadow))
  }

  // ----------------------------------------------------------------- one set

  datatype Outcome = Accepted(config: Config) | UnknownKey | Rejected(why: Reading) | Invalid

  /** The configuration a set checks: what is on file as loaded, with the one key assigned. */
  function Changed(file: Config, env: Env, key: string, v: Value, lib: Library): Config {
    With(Overlay(Clamp(Filled(file), lib), env), key, v)
  }

  function Saved(file: Config, env: Env, key: string, v: Value, lib: Library): Config {
    Restored(Changed(file, env, key, v, lib), env, Shadow(Clamp(Filled(file), lib), env))
  }

  function Set(file: Config, env: Env, key: string, text: string, lib: Library): Outcome {
    match RuleOf(key)
    case None => UnknownKey
    case Some(rule) =>
      match ReadText(rule, text, lib)
      case Read(v) =>
        if Validates(Changed(file, env, key, v, lib), lib) then Accepted(Saved(file, env, key, v, lib)) else Invalid
      case why => Rejected(why)
  }

  /** The configuration on file after a set, accepted or not. */
  function After(file: Config, env: Env, key: string, text: string, lib: Library): Config {
    var o := Set(file, env, key, text, lib);
    if o.Accepted? then o.config else file
  }

  lemma Apart(env: Env, key: string)
    ensures Plain(env, key).Some? ==> key in PLAIN_KEYS && key !in CHECKED
    ensures Secret(env, key).Some? ==> key in SECRET_KEYS && key !in CHECKED
    ensures Plain(env, key).None? || Secret(env, key).None?
  {
  }

  /** The overlay with some keys still to do. */
  function PartlyOverlaid(c: Config, env: Env, todo: set<string>): map<string, Value> {
    map k | k in c.keys.Keys + (Supplied(env) - todo) :: if k in todo then At(c, k) else Overlaid(env, k, At(c, k))
  }

  function PartlyShadowed(c: Config, env: Env, todo: set<string>): map<string, Value> {
    map k | k in SECRET_KEYS - todo && Secret(env, k).Some? :: At(c, k)
  }

  lemma NothingOverlaid(c: Config, env: Env)
    ensures PartlyOverlaid(c, env, PLAIN_KEYS + SECRET_KEYS) == c.keys
    ensures PartlyShadowed(c, env, PLAIN_KEYS + SECRET_KEYS) == map[]
  {
    hide Plain, Secret;
    forall k ensures k !in PLAIN_KEYS + SECRET_KEYS ==> Overlaid(env, k, At(c, k)) == At(c, k) {
      Apart(env, k);
    }
  }

  lemma OneOverlaid(c: Config, env: Env, todo: set<string>, k: string)
    requires k in todo && todo <= PLAIN_KEYS + SECRET_KEYS
    ensures PartlyOverlaid(c, env, todo - {k})
         == if Plain(env, k).Some? then PartlyOverlaid(c, env, todo)[k := Txt(Plain(env, k).value)]
            else if Secret(env, k).Some? then PartlyOverlaid(c, env, todo)[k := Txt(Secret(env, k).value)]
            else PartlyOverlaid(c, env, todo)
  {
    hide Plain, Secret, At;
    Apart(env, k);
  }

  lemma OneShadowed(c: Config, env: Env, todo: set<string>, k: string)
    requires k in todo && todo <= PLAIN_KEYS + SECRET_KEYS
    ensures PartlyShadowed(c, env, todo - {k})
         == if Plain(env, k).None? && Secret(env, k).Some? then PartlyShadowed(c, env, todo)[k := At(c, k)]
            else PartlyShadowed(c, env, todo)
  {
    hide Plain, Secret;
    Apart(env, k);
  }

  lemma AllOverlaid(c: Config, env: Env)
    ensures c.(keys := PartlyOverlaid(c, env, {})) == Overlay(c, env) && PartlyShadowed(c, env, {}) == Shadow(c, env)
  {
    hide Plain, Secret;
  }

  class Settings {
    /** What is on file. */
    var saved: Config

    constructor (c: Config)
      ensures saved == c
    {
      saved := c;
    }

    /** Reads the file over the defaults, repairs it and overlays the environment, keeping what it covers of credentials. */
    method Load(env: Env, lib: Library) returns (c: Config, shadow: map<string, Value>)
      ensures c == Overlay(Clamp(Filled(saved), lib), env) && shadow == Shadow(Clamp(Filled(saved), lib), env)
    {
      hide *;
      var base := Clamp(Filled(saved), lib);
      var keys := base.keys;
      shadow := map[];
      var todo := PLAIN_KEYS + SECRET_KEYS;
      NothingOverlaid(base, env);
      while todo != {}
        invariant todo <= PLAIN_KEYS + SECRET_KEYS
        invariant keys == PartlyOverlaid(base, env, todo) && shadow == PartlyShadowed(base, env, todo)
        decreases todo
      {
        var k :| k in todo;
        OneOverlaid(base, env, todo, k);
        OneShadowed(base, env, todo, k);
        todo := todo - {k};
        if Plain(env, k).Some? {
          keys := keys[k := Txt(Plain(env, k).value)];
        } else if Secret(env, k).Some? {
          shadow := shadow[k := At(base, k)];
          keys := keys[k := Txt(Secret(env, k).value)];
        }
      }
      AllOverlaid(base, env);
      c := base.(keys := keys);
    }

    /** Writes the configuration, each credential of the environment as the file held it. */
    method Save(c: Config, env: Env, shadow: map<string, Value>)
      modifies this
      ensures saved == Restored(c, env, shadow)
    {
      hide Secret;
      var keys := c.keys;
      var todo := SECRET_KEYS;
      forall k | k in keys && k !in SECRET_KEYS ensures Unmasked(env, k, keys[k], shadow) == keys[k] {
        Apart(env, k);
      }
      while todo != {}
        invariant todo <= SECRET_KEYS
        invariant keys.Keys == c.keys.Keys
        invariant forall k :: k in keys ==> keys[k] == if k in todo then c.keys[k] else Unmasked(env, k, c.keys[k], shadow)
        decreases todo
      {
        var k :| k in todo;
        todo := todo - {k};
        if k in keys {
          keys := keys[k := Unmasked(env, k, keys[k], shadow)];
        }
      }
      saved := c.(keys := keys);
    }

    /** Assigns in a loaded copy, checks the whole of it, and saves only then. */
    method Assign(name: string, text: string, env: Env, lib: Library) returns (o: Outcome)
      modifies this
      ensures o == Set(old(saved), env, Lower(name), text, lib)
      ensures saved == After(old(saved), env, Lower(name), text, lib)
    {
      hide Filled, Clamp, Overlay, Shadow, Restored, RuleOf, ReadText, Validates;
      var key := Lower(name);
      var c, shadow := Load(env, lib);
      var rule := RuleOf(key);
      if rule.None? {
        return UnknownKey;
      }
      var reading := ReadText(rule.value, text, lib);
      if !reading.Read? {
        return Rejected(reading);
      }
      c := With(c, key, reading.v);
      if !Validates(c, lib) {
        return Invalid;
      }
      Save(c, env, shadow);
      return Accepted(saved);
    }
  }

  // ------------------------------------------------- what loading does to keys

  /** Loading makes nothing else of the key than what is on file. */
  predicate LeftAlone(file: Config, key: string, lib: Library) {
    LoadedKey(file, key, lib) == At(file, key)
  }

  ghost predicate Clean(file: Config, lib: Library) {
    forall k :: LeftAlone(file, k, lib)
  }

  /** The file itself says what the key holds, if there is a default for it. */
  predicate Stated(file: Config, key: string) {
    key in DEFAULTED ==> key in file.keys
  }

  /** The clamp leaves the key as it is. */
  predicate Kept(c: Config, key: string, lib: Library) {
    ClampedKey(c, key, lib) == At(c, key)
  }

  lemma Defaults(key: string)
    ensures Default(key).Some? <==> key in DEFAULTED
    ensures key in DEFAULTED ==> key !in CHECKED && key !in SECRET_KEYS
  {
  }

  /** The keys that hold a number. */
  const NUMBERS := {"max_parallel", MIN_FREE, "rate_limit.requests_per_second", "rate_limit.burst", "budget.monthly_usd",
                    "budget.daily_usd_limit", "budget.daily_token_limit", "budget.alert_threshold_pct", "budget.global_usd_pct",
                    "budget.global_token_pct", CONNS, PER_IP, ATTEMPTS, PER_EXECUTOR, TOTAL, SUDO, "ui.oidc.session_ttl_hours",
                    "ui.oidc.idle_timeout_hours", "ui.oidc.refresh_interval_minutes", "ui.oidc.max_claim_age_minutes",
                    "ui.oidc.cli_session_ttl_hours", "ui.oidc.cli_idle_timeout_hours", "ui.oidc.device_approval_max_age_minutes",
                    "ui.oidc.clock_skew_seconds", "ui.oidc.scim.offboard_after_days", "ui.oidc.scim.rate_limit_per_minute"}

  lemma OnlyNumbers(key: string)
    ensures NumberRule(key).Some? ==> key in NUMBERS
  {
  }

  lemma NoDefaultIsANumber(key: string)
    requires key in DEFAULTED
    ensures NumberRule(key).None?
  {
    hide NumberRule;
    OnlyNumbers(key);
  }

  lemma FilledAt(file: Config, key: string)
    ensures At(Filled(file), key)
         == if key in file.keys then file.keys[key] else if key in DEFAULTED then Txt(Default(key).value) else Unset
    ensures key in CHECKED || key in SECRET_KEYS || Stated(file, key) ==> At(Filled(file), key) == At(file, key)
  {
    hide Default;
    Defaults(key);
  }

  /** A mode as the file stores it, or no mode. */
  predicate AsStored(v: Value) {
    Trim(TextOf(v)) == "" || NamedIn(GATES, TextOf(v)) == Some(TextOf(v))
  }

  lemma ResetIsSound(key: string, lib: Library)
    ensures Sound(key, Reset(key), lib) && Sound(key, Unset, lib)
  {
    hide NumberRule;
    BlankTrims();
  }

  lemma {:induction false} LowerFixed(s: string)
    requires forall i :: 0 <= i < |s| ==> LowerChar(s[i]) == s[i]
    ensures Lower(s) == s
  {
    if s != "" {
      LowerFixed(s[1..]);
    }
  }

  lemma StoredMode(w: string)
    requires w in {"off", "linked", "linked+must"}
    ensures NamedIn(GATES, w) == Some(w)
  {
    hide Lower;
    assert forall i :: 0 <= i < |w| ==> LowerChar(w[i]) == w[i] && !Space(w[i]);
    LowerFixed(w);
    assert Trim(w) == w;
  }

  lemma StoredModes(text: string)
    requires NamedIn(GATES, text).Some?
    ensures AsStored(Txt(NamedIn(GATES, text).value))
  {
    hide Lower, Trim;
    var w := NamedIn(GATES, text).value;
    if w == "" {
      assert Trim(w) == "" by { BlankTrims(); }
    } else {
      StoredMode(w);
    }
  }

  lemma BlankTrims()
    ensures Trim("") == "" && NamedIn(GATES, "") == Some("")
  {
  }

  lemma RepairedIsSound(key: string, v: Value, lib: Library)
    ensures !Unrepaired(key) ==> Sound(key, Repaired(key, v, lib), lib)
    ensures Sound(key, v, lib) && (key == GATE ==> AsStored(v)) ==> Repaired(key, v, lib) == v
    ensures key == GATE ==> AsStored(Repaired(key, v, lib))
  {
    hide NumberRule, Lower, Trim;
    ResetIsSound(key, lib);
    BlankTrims();
    if key == GATE {
      if NamedIn(GATES, TextOf(v)).Some? {
        StoredModes(TextOf(v));
      }
    }
  }

  lemma ClampAt(c: Config, key: string, lib: Library)
    ensures At(Clamp(c, lib), key) == ClampedKey(c, key, lib)
  {
    hide Sound, InBand, TextSound, Reset, NamedIn, BudgetsAgree;
    if key !in c.keys {
      RepairedUnset(key, lib);
    }
  }

  lemma RepairedUnset(key: string, lib: Library)
    ensures Repaired(key, Unset, lib) == Unset
  {
    hide Sound, Trim;
    ResetIsSound(key, lib);
    BlankTrims();
  }

  predicate GateStored(c: Config) {
    AsStored(At(c, GATE))
  }

  /** What the clamp asks of a configuration it leaves as it is: sound keys, a mode written as it is stored, pairs that agree. */
  ghost predicate Unclamped(c: Config, lib: Library) {
    (forall k :: k in CHECKED && !Unrepaired(k) ==> Sound(k, At(c, k), lib)) && GateStored(c) && PairsAgree(c)
  }

  lemma LeftAloneIff(file: Config, key: string, lib: Library)
    ensures LeftAlone(file, key, lib) <==> Stated(file, key) && Kept(file, key, lib)
  {
    hide Default, Filled, Sound, NamedIn, Trim, LimitsAgree, BudgetsAgree;
    Defaults(key);
    FilledAt(file, key);
    assert CONNS in CHECKED && TOTAL in CHECKED && PER_IP in CHECKED && PER_EXECUTOR in CHECKED && GATE in CHECKED;
    FilledAt(file, CONNS);
    FilledAt(file, TOTAL);
    if !Stated(file, key) {
      UncheckedIsSound(key, At(Filled(file), key), lib);
    }
  }

  lemma UncheckedIsSound(key: string, v: Value, lib: Library)
    requires key !in CHECKED
    ensures Sound(key, v, lib)
  {
  }

  /**
    Loading makes nothing else of a file exactly when the file says itself what
    each key with a default holds, every key the clamp can repair is sound, the
    requirements gate is written as it is stored, and both pairs agree.
  */
  lemma CleanIff(file: Config, lib: Library)
    ensures Clean(file, lib) <==> (forall k :: k in DEFAULTED ==> k in file.keys) && Unclamped(file, lib)
  {
    hide LeftAlone, Kept, Unclamped;
    forall k ensures LeftAlone(file, k, lib) <==> Stated(file, k) && Kept(file, k, lib) {
      LeftAloneIff(file, k, lib);
    }
    if Unclamped(file, lib) {
      forall k ensures Kept(file, k, lib) {
        SoundIsKept(file, k, lib);
      }
      if forall k :: k in DEFAULTED ==> k in file.keys {
        forall k ensures LeftAlone(file, k, lib) {
          assert Stated(file, k);
        }
      }
    }
    if Clean(file, lib) {
      forall k ensures Stated(file, k) && Kept(file, k, lib) {
        assert LeftAlone(file, k, lib);
      }
      forall k | k in DEFAULTED ensures k in file.keys {
        assert Stated(file, k);
      }
      KeptChecks(file, lib);
    }
  }

  lemma SoundIsKept(c: Config, key: string, lib: Library)
    requires Unclamped(c, lib)
    ensures Kept(c, key, lib)
  {
    hide Repaired, InBand, TextSound, NamedIn, LimitsAgree, BudgetsAgree;
    OwnIsKept(c, key, lib);
    OwnIsKept(c, CONNS, lib);
    OwnIsKept(c, TOTAL, lib);
  }

  lemma OwnIsKept(c: Config, key: string, lib: Library)
    requires key in CHECKED && !Unrepaired(key) ==> Sound(key, At(c, key), lib)
    requires key == GATE ==> AsStored(At(c, key))
    ensures Repaired(key, At(c, key), lib) == At(c, key)
  {
    hide InBand, TextSound, NamedIn, Trim;
    if !Unrepaired(key) {
      RepairedIsSound(key, At(c, key), lib);
    }
  }

  lemma KeptChecks(c: Config, lib: Library)
    requires forall k :: Kept(c, k, lib)
    ensures Unclamped(c, lib)
  {
    hide Sound, Repaired, NamedIn;
    forall k | k in CHECKED && !Unrepaired(k) ensures Sound(k, At(c, k), lib) {
      ClampedIsSound(c, k, lib);
      assert Kept(c, k, lib);
    }
    RepairedIsSound(GATE, At(c, GATE), lib);
    assert Kept(c, GATE, lib);
    ClampedPairsAgree(c, lib);
    assert Kept(c, CONNS, lib) && Kept(c, PER_IP, lib) && Kept(c, TOTAL, lib) && Kept(c, PER_EXECUTOR, lib);
  }

  lemma ClampedIsSound(c: Config, key: string, lib: Library)
    requires !Unrepaired(key)
    ensures Sound(key, ClampedKey(c, key, lib), lib)
  {
    hide Repaired, Sound, NamedIn;
    RepairedIsSound(key, At(c, key), lib);
    ResetIsSound(PER_IP, lib);
    if key == PER_EXECUTOR {
      RepairedIsSound(TOTAL, At(c, TOTAL), lib);
      LoweredIsSound(Repaired(TOTAL, At(c, TOTAL), lib), lib);
    }
  }

  /** Both budgets have one band, and the default total is in it. */
  lemma LoweredIsSound(total: Value, lib: Library)
    requires Sound(TOTAL, total, lib)
    ensures Sound(PER_EXECUTOR, Num(Effective(Amount(total), DEFAULT_TOTAL)), lib)
  {
    assert TOTAL in CHECKED;
    assert NumberRule(TOTAL) == NumberRule(PER_EXECUTOR);
  }

  predicate ClampedAgree(c: Config, lib: Library) {
    && LimitsAgree(Amount(ClampedKey(c, CONNS, lib)), Amount(ClampedKey(c, PER_IP, lib)))
    && BudgetsAgree(Amount(ClampedKey(c, PER_EXECUTOR, lib)), Amount(ClampedKey(c, TOTAL, lib)))
  }

  lemma ClampedPairsAgree(c: Config, lib: Library)
    ensures ClampedAgree(c, lib)
  {
    hide Repaired;
  }

  /** Loading repairs once: what it makes of any file, loading it again leaves alone. */
  lemma ClampIsClean(file: Config, lib: Library)
    ensures Clean(Clamp(Filled(file), lib), lib)
  {
    hide Clamp, Filled, Sound, ClampedKey, Repaired, PairsAgree, NamedIn, AsStored;
    var d := Clamp(Filled(file), lib);
    forall k | k in CHECKED && !Unrepaired(k) ensures Sound(k, At(d, k), lib) {
      ClampAt(Filled(file), k, lib);
      ClampedIsSound(Filled(file), k, lib);
    }
    GateIsStored(Filled(file), lib);
    ClampAgrees(Filled(file), lib);
    ClampStates(file, lib);
    CleanIff(d, lib);
  }

  lemma ClampStates(file: Config, lib: Library)
    ensures forall k :: k in DEFAULTED ==> k in Clamp(Filled(file), lib).keys
  {
    hide ClampedKey, Default;
  }

  lemma GateIsStored(c: Config, lib: Library)
    ensures AsStored(ClampedKey(c, GATE, lib)) && GateStored(Clamp(c, lib))
  {
    hide Repaired, AsStored, Clamp;
    ClampAt(c, GATE, lib);
    RepairedIsSound(GATE, At(c, GATE), lib);
  }

  lemma ClampAgrees(c: Config, lib: Library)
    ensures PairsAgree(Clamp(c, lib))
  {
    hide Clamp, ClampedKey, LimitsAgree, BudgetsAgree;
    ClampedPairsAgree(c, lib);
    ClampAt(c, CONNS, lib);
    ClampAt(c, PER_IP, lib);
    ClampAt(c, PER_EXECUTOR, lib);
    ClampAt(c, TOTAL, lib);
  }

  // ------------------------------------------------------ what a set saves

  lemma OverlayAt(c: Config, env: Env, key: string)
    ensures At(Overlay(c, env), key) == Overlaid(env, key, At(c, key))
  {
    hide Plain, Secret;
    Apart(env, key);
  }

  /** What is on file for a key after an accepted set. */
  function SavedValue(file: Config, env: Env, key: string, v: Value, k: string, lib: Library): Value {
    if k == key then
      if Secret(env, k).Some? && v == Txt(Secret(env, k).value) then LoadedKey(file, k, lib) else v
    else if Plain(env, k).Some? then Txt(Plain(env, k).value)
    else LoadedKey(file, k, lib)
  }

  lemma SavedAt(file: Config, env: Env, key: string, v: Value, k: string, lib: Library)
    ensures At(Saved(file, env, key, v, lib), k) == SavedValue(file, env, key, v, k, lib)
  {
    hide Plain, Secret, ClampedKey, Filled, Clamp, Overlay;
    ClampAt(Filled(file), k, lib);
    OverlayAt(Clamp(Filled(file), lib), env, k);
    Apart(env, k);
  }

  lemma ChangedAt(file: Config, env: Env, key: string, v: Value, k: string, lib: Library)
    requires k in CHECKED
    ensures At(Changed(file, env, key, v, lib), k) == if k == key then v else LoadedKey(file, k, lib)
  {
    hide Plain, Secret, ClampedKey, Filled, Clamp, Overlay;
    ClampAt(Filled(file), k, lib);
    OverlayAt(Clamp(Filled(file), lib), env, k);
    Apart(env, k);
  }

  function ReadKey(key: string, text: string, lib: Library): Option<Value> {
    match RuleOf(key)
    case None => None
    case Some(rule) => match ReadText(rule, text, lib) case Read(v) => Some(v) case _ => None
  }

  function Applied(file: Config, env: Env, key: string, v: Value, lib: Library): Config {
    if Validates(Changed(file, env, key, v, lib), lib) then Saved(file, env, key, v, lib) else file
  }

  lemma SetIsApplied(file: Config, env: Env, key: string, text: string, lib: Library)
    ensures After(file, env, key, text, lib)
         == match ReadKey(key, text, lib) case Some(v) => Applied(file, env, key, v, lib) case None => file
    ensures Set(file, env, key, text, lib).Accepted? <==>
      ReadKey(key, text, lib).Some? && Validates(Changed(file, env, key, ReadKey(key, text, lib).value, lib), lib)
  {
    hide RuleOf, ReadText, Validates, Changed, Saved;
  }

  ghost predicate OnlyItsKeyChanged(file: Config, saved: Config, key: string, v: Value) {
    At(saved, key) == v && saved.rest == file.rest && forall k :: k != key ==> At(saved, k) == At(file, k)
  }

  /** The file says itself what other keys hold, the clamp would change none of them, and the environment says the same. */
  ghost predicate Undisturbed(file: Config, env: Env, key: string, v: Value, lib: Library) {
    && lib.repair(file.rest) == file.rest
    && (forall k :: k in DEFAULTED && k != key ==> k in file.keys)
    && (forall k :: k != key ==> Kept(file, k, lib))
    && (forall k :: k != key && Plain(env, k).Some? ==> At(file, k) == Txt(Plain(env, k).value))
    && (Secret(env, key).Some? && v == Txt(Secret(env, key).value) ==> At(file, key) == v)
  }

  /**
    Exactly when an accepted set changes its own key and nothing else on file:
    no other key with a default is missing from it, loading repairs none, no
    variable of the environment differs from what the file holds for its key,
    and the value is not a credential the environment already supplies.
  */
  lemma SetChangesOnlyItsKeyIff(file: Config, env: Env, key: string, text: string, lib: Library)
    requires Set(file, env, key, text, lib).Accepted?
    ensures ReadKey(key, text, lib).Some?
    ensures OnlyItsKeyChanged(file, After(file, env, key, text, lib), key, ReadKey(key, text, lib).value)
       <==> Undisturbed(file, env, key, ReadKey(key, text, lib).value, lib)
  {
    hide Set, After, ReadKey, LoadedKey, Kept, Validates, Saved, Changed, Plain, Secret;
    SetIsApplied(file, env, key, text, lib);
    var v := ReadKey(key, text, lib).value;
    var saved := Saved(file, env, key, v, lib);
    SavedRest(file, env, key, v, lib);
    forall k ensures At(saved, k) == SavedValue(file, env, key, v, k, lib) {
      SavedAt(file, env, key, v, k, lib);
    }
    forall k ensures LeftAlone(file, k, lib) <==> Stated(file, k) && Kept(file, k, lib) {
      LeftAloneIff(file, k, lib);
    }
    forall k | Plain(env, k).Some? || Secret(env, k).Some? ensures Kept(file, k, lib) && (Secret(env, k).Some? ==> LeftAlone(file, k, lib)) {
      SuppliedIsKept(file, env, k, lib);
    }
    if Undisturbed(file, env, key, v, lib) {
      forall k | k != key ensures At(saved, k) == At(file, k) {
        assert Stated(file, k) && Kept(file, k, lib);
      }
    } else if OnlyItsKeyChanged(file, saved, key, v) {
      forall k | k != key ensures Stated(file, k) && Kept(file, k, lib) {
        assert At(saved, k) == At(file, k);
      }
      forall k | k in DEFAULTED && k != key ensures k in file.keys {
        assert Stated(file, k);
      }
      forall k | k != key && Plain(env, k).Some? ensures At(file, k) == Txt(Plain(env, k).value) {
        assert At(saved, k) == At(file, k);
      }
    }
  }

  lemma SavedRest(file: Config, env: Env, key: string, v: Value, lib: Library)
    ensures Saved(file, env, key, v, lib).rest == Changed(file, env, key, v, lib).rest == lib.repair(file.rest)
  {
  }

  lemma SuppliedIsKept(file: Config, env: Env, key: string, lib: Library)
    requires Plain(env, key).Some? || Secret(env, key).Some?
    ensures Kept(file, key, lib) && (Secret(env, key).Some? ==> LeftAlone(file, key, lib))
  {
    hide Plain, Secret, NamedIn, LimitsAgree, BudgetsAgree, Filled, Default, Repaired, Sound;
    Apart(env, key);
    Defaults(key);
    OwnIsKept(file, key, lib);
    LeftAloneIff(file, key, lib);
  }

  lemma Congruent(c: Config, d: Config, lib: Library)
    requires c.rest == d.rest && forall k :: k in CHECKED ==> At(c, k) == At(d, k)
    ensures Validates(c, lib) <==> Validates(d, lib)
  {
    hide Sound, At, LimitsAgree, BudgetsAgree;
    assert CONNS in CHECKED && PER_IP in CHECKED && PER_EXECUTOR in CHECKED && TOTAL in CHECKED;
  }

  /** What an accepted set leaves on file validates, and loading it repairs nothing. */
  lemma SavedIsClean(file: Config, env: Env, key: string, v: Value, lib: Library)
    requires Validates(Changed(file, env, key, v, lib), lib) && (key == GATE ==> AsStored(v))
    ensures var saved := Saved(file, env, key, v, lib); Validates(saved, lib) && Clean(saved, lib)
  {
    hide Changed, Saved, Sound, ClampedKey, Filled, Secret, PairsAgree, AsStored;
    var changed, saved := Changed(file, env, key, v, lib), Saved(file, env, key, v, lib);
    SavedRest(file, env, key, v, lib);
    forall k | k in CHECKED ensures At(saved, k) == At(changed, k) == if k == key then v else LoadedKey(file, k, lib) {
      ChangedAt(file, env, key, v, k, lib);
      SavedAt(file, env, key, v, k, lib);
      Apart(env, k);
    }
    Congruent(saved, changed, lib);
    assert GATE in CHECKED;
    GateIsStored(Filled(file), lib);
    SavedStates(file, env, key, v, lib);
    CleanIff(saved, lib);
  }

  lemma SavedStates(file: Config, env: Env, key: string, v: Value, lib: Library)
    ensures forall k :: k in DEFAULTED ==> k in Saved(file, env, key, v, lib).keys
  {
    hide Clamp, Filled, Unmasked, Overlaid;
    ClampStates(file, lib);
  }

  lemma ReadGateIsStored(text: string, lib: Library)
    requires ReadKey(GATE, text, lib).Some?
    ensures AsStored(ReadKey(GATE, text, lib).value)
  {
    hide NamedIn, AsStored, RuleOf;
    GateRule();
    StoredModes(text);
  }

  lemma GateRule()
    ensures RuleOf(GATE) == Some(Named(GATES))
  {
    hide NumberRule;
    OnlyNumbers(GATE);
  }

  lemma AcceptedIsClean(file: Config, env: Env, key: string, text: string, lib: Library)
    requires Set(file, env, key, text, lib).Accepted?
    ensures var saved := After(file, env, key, text, lib); Validates(saved, lib) && Clean(saved, lib)
  {
    hide Set, After, ReadKey, Validates, AsStored, Changed, Saved;
    SetIsApplied(file, env, key, text, lib);
    if key == GATE {
      ReadGateIsStored(text, lib);
    }
    SavedIsClean(file, env, key, ReadKey(key, text, lib).value, lib);
  }

  function AfterAll(file: Config, env: Env, sets: seq<(string, string)>, lib: Library): Config
    decreases |sets|
  {
    if sets == [] then file else AfterAll(After(file, env, sets[0].0, sets[0].1, lib), env, sets[1..], lib)
  }

  /** Whatever is set, in whatever order: a file that validates keeps validating, and a file loading leaves alone stays so. */
  lemma {:induction false} SetsKeepTheFile(file: Config, env: Env, sets: seq<(string, string)>, lib: Library)
    ensures Validates(file, lib) ==> Validates(AfterAll(file, env, sets, lib), lib)
    ensures Clean(file, lib) ==> Clean(AfterAll(file, env, sets, lib), lib)
    decreases |sets|
  {
    hide Validates, Clean, After;
    if sets != [] {
      var next := After(file, env, sets[0].0, sets[0].1, lib);
      if Set(file, env, sets[0].0, sets[0].1, lib).Accepted? {
        AcceptedIsClean(file, env, sets[0].0, sets[0].1, lib);
      } else {
        RefusedKeeps(file, env, sets[0].0, sets[0].1, lib);
      }
      SetsKeepTheFile(next, env, sets[1..], lib);
    }
  }

  /** A credential the environment supplies never gets into the file: its key keeps what it held through any sets of other keys. */
  lemma {:induction false} CredentialsStayOut(file: Config, env: Env, sets: seq<(string, string)>, lib: Library, key: string)
    requires Secret(env, key).Some? && forall i :: 0 <= i < |sets| ==> sets[i].0 != key
    ensures At(AfterAll(file, env, sets, lib), key) == At(file, key)
    decreases |sets|
  {
    hide After, Set, ReadKey, LoadedKey, Validates, Saved, Changed, Plain, Secret;
    if sets != [] {
      var name, text := sets[0].0, sets[0].1;
      SetIsApplied(file, env, name, text, lib);
      SuppliedIsKept(file, env, key, lib);
      Apart(env, key);
      if ReadKey(name, text, lib).Some? {
        SavedAt(file, env, name, ReadKey(name, text, lib).value, key, lib);
      }
      CredentialsStayOut(After(file, env, name, text, lib), env, sets[1..], lib, key);
    }
  }

  lemma RefusedKeeps(file: Config, env: Env, key: string, text: string, lib: Library)
    requires !Set(file, env, key, text, lib).Accepted?
    ensures After(file, env, key, text, lib) == file
  {
    hide Set;
  }

  lemma ReadInBand(key: string, text: string, lib: Library)
    requires ReadKey(key, text, lib).Some?
    ensures InBand(key, ReadKey(key, text, lib).value)
  {
    hide NumberRule, TextRule, NamedIn;
    match NumberRule(key)
    case None =>
    case Some(rule) =>
      assert rule.blank.Some? ==> Amount(rule.blank.value) == 0.0 by { BlanksAreZero(key); }
  }

  lemma BlanksAreZero(key: string)
    ensures NumberRule(key).Some? && NumberRule(key).value.blank.Some? ==> Amount(NumberRule(key).value.blank.value) == 0.0
  {
  }

  lemma ClampedInBand(c: Config, key: string, lib: Library)
    requires InBand(key, At(c, key))
    ensures InBand(key, ClampedKey(c, key, lib))
  {
    hide Repaired, Sound, NumberRule, LimitsAgree, BudgetsAgree;
    assert InBand(key, Repaired(key, At(c, key), lib)) by { RepairedInBand(key, At(c, key), lib); }
    if key == PER_EXECUTOR {
      RepairedIsSound(TOTAL, At(c, TOTAL), lib);
      LoweredIsSound(Repaired(TOTAL, At(c, TOTAL), lib), lib);
      SoundInBand(PER_EXECUTOR, Num(Effective(Amount(Repaired(TOTAL, At(c, TOTAL), lib)), DEFAULT_TOTAL)), lib);
    }
  }

  lemma LoadedInBand(file: Config, key: string, lib: Library)
    requires InBand(key, At(file, key))
    ensures InBand(key, LoadedKey(file, key, lib))
  {
    hide ClampedKey, Filled, Default, NumberRule;
    FilledAt(file, key);
    if key in DEFAULTED {
      NoDefaultIsANumber(key);
    }
    ClampedInBand(Filled(file), key, lib);
  }

  lemma SoundInBand(key: string, v: Value, lib: Library)
    requires Sound(key, v, lib) && key in CHECKED
    ensures InBand(key, v)
  {
  }

  lemma RepairedInBand(key: string, v: Value, lib: Library)
    requires InBand(key, v)
    ensures InBand(key, Repaired(key, v, lib))
  {
    hide Sound, NumberRule, NamedIn, Trim;
  }

  lemma SuppliedInBand(env: Env, key: string)
    requires Plain(env, key).Some?
    ensures InBand(key, Txt(Plain(env, key).value))
  {
    hide Plain, NumberRule;
  }

  /** Every number a set or a repair leaves on file is in its key's band, if the file's was. */
  lemma SetKeepsTheBand(file: Config, env: Env, name: string, text: string, lib: Library, key: string)
    requires InBand(key, At(file, key))
    ensures InBand(key, At(After(file, env, name, text, lib), key))
  {
    hide After, Set, ReadKey, InBand, LoadedKey, Validates, Saved, Changed, Plain, Secret;
    SetIsApplied(file, env, name, text, lib);
    if ReadKey(name, text, lib).Some? {
      var v := ReadKey(name, text, lib).value;
      SavedAt(file, env, name, v, key, lib);
      LoadedInBand(file, key, lib);
      ReadInBand(name, text, lib);
      if Plain(env, key).Some? {
        SuppliedInBand(env, key);
      }
    }
  }

  /** Whatever is set, in whatever order: each number within its band stays there. */
  lemma {:induction false} SetsKeepTheBands(file: Config, env: Env, sets: seq<(string, string)>, lib: Library, key: string)
    requires InBand(key, At(file, key))
    ensures InBand(key, At(AfterAll(file, env, sets, lib), key))
    decreases |sets|
  {
    hide After, InBand;
    if sets != [] {
      SetKeepsTheBand(file, env, sets[0].0, sets[0].1, lib, key);
      SetsKeepTheBands(After(file, env, sets[0].0, sets[0].1, lib), env, sets[1..], lib, key);
    }
  }

  // ------------------------------------------------------------ failing runs

  lemma ReadWhole(key: string, text: string, n: int, lib: Library)
    requires NumberRule(key).Some? && !NumberRule(key).value.fraction && NumberRule(key).value.band.Holds(n as real)
    requires var t := if NumberRule(key).value.blank.Some? then Trim(text) else text;
             lib.whole(t) == Some(n) && (NumberRule(key).value.blank.Some? ==> t != "")
    ensures ReadKey(key, text, lib) == Some(Num(n as real)) && InBand(key, Num(n as real))
  {
    hide NumberRule;
  }

  lemma LimitReads(lib: Library)
    ensures NumberRule(CONNS) == Some(Whole(1.0, 4096.0, {0.0})) && NumberRule(PER_IP) == Some(Whole(1.0, 1024.0, {0.0}))
  {
  }

  /** Setting another key writes the environment's provider to the file. */
  lemma ProviderIsWritten(file: Config, env: Env, key: string, text: string, lib: Library)
    requires Getenv(env, "CLOOP_PROVIDER") == Some("openai") && At(file, "provider") == Txt("anthropic")
    requires Set(file, env, key, text, lib).Accepted? && key != "provider"
    ensures At(After(file, env, key, text, lib), "provider") == Txt("openai")
  {
    hide Set, After, ReadKey, LoadedKey, Validates, Saved, Changed, Getenv;
    SetIsApplied(file, env, key, text, lib);
    SavedAt(file, env, key, ReadKey(key, text, lib).value, "provider", lib);
  }

  /** And a file that says nothing of the provider, or of another key with a default, says the default from then on. */
  lemma DefaultsAreWritten(file: Config, env: Env, key: string, text: string, lib: Library, k: string)
    requires Set(file, env, key, text, lib).Accepted?
    requires k in DEFAULTED && k != key && k !in file.keys && Plain(env, k).None?
    ensures At(file, k) == Unset && Default(k).Some? && At(After(file, env, key, text, lib), k) == Txt(Default(k).value)
  {
    hide Set, After, ReadKey, Validates, Saved, Changed, Plain, Filled, Default, LimitsAgree, BudgetsAgree;
    Defaults(k);
    SetIsApplied(file, env, key, text, lib);
    SavedAt(file, env, key, ReadKey(key, text, lib).value, k, lib);
    FilledAt(file, k);
    UncheckedIsSound(k, At(Filled(file), k), lib);
    assert GATE in CHECKED && PER_IP in CHECKED && PER_EXECUTOR in CHECKED;
  }

  /**
    A file with ten connections in all and twenty for one address: setting the
    number of workers is accepted, and the limit for one address is gone.
  */
  lemma LimitIsRepairedOnTheWay(env: Env, rest: string, text: string, lib: Library)
    requires lib.whole(text) == Some(4) && lib.sound(lib.repair(rest))
    ensures var file := Config(map[CONNS := Num(10.0), PER_IP := Num(20.0)], rest);
            && Set(file, env, "max_parallel", text, lib).Accepted?
            && At(After(file, env, "max_parallel", text, lib), "max_parallel") == Num(4.0)
            && At(After(file, env, "max_parallel", text, lib), PER_IP) == Num(0.0)
  {
    hide Set, After, ReadKey, Validates, Saved, Changed, NumberRule, InBand, Clamp, Secret, Plain;
    var file := Config(map[CONNS := Num(10.0), PER_IP := Num(20.0)], rest);
    assert ReadKey("max_parallel", text, lib) == Some(Num(4.0)) && InBand("max_parallel", Num(4.0)) by {
      WorkersRead();
      ReadWhole("max_parallel", text, 4, lib);
    }
    TenAndTwenty(file, lib);
    WorkersRead();
    SetIsApplied(file, env, "max_parallel", text, lib);
    LoadedFileTakes(file, env, "max_parallel", Num(4.0), lib);
    SavedAt(file, env, "max_parallel", Num(4.0), PER_IP, lib);
    SavedAt(file, env, "max_parallel", Num(4.0), "max_parallel", lib);
    Apart(env, PER_IP);
    Apart(env, "max_parallel");
  }

  lemma WorkersRead()
    ensures NumberRule("max_parallel") == Some(Whole(1.0, 64.0, {}))
    ensures forall text: string, lib: Library :: TextSound("max_parallel", text, lib)
  {
  }

  lemma TenAndTwenty(file: Config, lib: Library)
    requires file.keys == map[CONNS := Num(10.0), PER_IP := Num(20.0)]
    ensures LoadedKey(file, PER_IP, lib) == Num(0.0)
    ensures forall k :: k in {SUDO, MIN_AGENT, EVIDENCE} ==> Sound(k, At(file, k), lib)
  {
    hide TextSound;
    LimitReads(lib);
    assert Sound(CONNS, Num(10.0), lib) && Sound(PER_IP, Num(20.0), lib) by { LimitTexts(lib); }
    hide Sound, NumberRule, Filled;
    assert CONNS in CHECKED && PER_IP in CHECKED;
    FilledAt(file, CONNS);
    FilledAt(file, PER_IP);
    assert At(file, CONNS) == Num(10.0) && At(file, PER_IP) == Num(20.0);
    ResetIsSound(SUDO, lib);
    ResetIsSound(MIN_AGENT, lib);
    ResetIsSound(EVIDENCE, lib);
  }

  lemma LimitTexts(lib: Library)
    ensures forall v: Value :: v.Num? ==> TextSound(CONNS, TextOf(v), lib) && TextSound(PER_IP, TextOf(v), lib)
  {
  }

  /**
    Whatever is on file, loading makes of it something that takes any sound
    value of a key outside the pairs, if the keys loading does not repair are sound.
  */
  lemma LoadedFileTakes(file: Config, env: Env, key: string, v: Value, lib: Library)
    requires key !in {CONNS, PER_IP, PER_EXECUTOR, TOTAL} && Sound(key, v, lib)
    requires lib.sound(lib.repair(file.rest)) && forall k :: k in {SUDO, MIN_AGENT, EVIDENCE} ==> Sound(k, At(file, k), lib)
    ensures Validates(Changed(file, env, key, v, lib), lib)
  {
    hide Changed, ClampedKey, Filled, Sound, PairsAgree, Amount;
    var changed := Changed(file, env, key, v, lib);
    SavedRest(file, env, key, v, lib);
    forall k | k in CHECKED ensures At(changed, k) == (if k == key then v else LoadedKey(file, k, lib)) && Sound(k, At(changed, k), lib) {
      ChangedAt(file, env, key, v, k, lib);
      if k != key {
        if Unrepaired(k) {
          UnrepairedStays(file, k, lib);
        } else {
          ClampedIsSound(Filled(file), k, lib);
        }
      }
    }
    assert PairsAgree(changed) by { ChangedAgrees(file, env, key, v, lib); }
  }

  lemma UnrepairedStays(file: Config, key: string, lib: Library)
    requires Unrepaired(key)
    ensures LoadedKey(file, key, lib) == At(file, key)
  {
    hide LimitsAgree, BudgetsAgree, Filled;
    assert key in CHECKED;
    FilledAt(file, key);
  }

  lemma ChangedAgrees(file: Config, env: Env, key: string, v: Value, lib: Library)
    requires key !in {CONNS, PER_IP, PER_EXECUTOR, TOTAL}
    ensures PairsAgree(Changed(file, env, key, v, lib))
  {
    hide Changed, ClampedKey, Filled, LimitsAgree, BudgetsAgree, At;
    ClampedPairsAgree(Filled(file), lib);
    assert CONNS in CHECKED && PER_IP in CHECKED && PER_EXECUTOR in CHECKED && TOTAL in CHECKED;
    ChangedAt(file, env, key, v, CONNS, lib);
    ChangedAt(file, env, key, v, PER_IP, lib);
    ChangedAt(file, env, key, v, PER_EXECUTOR, lib);
    ChangedAt(file, env, key, v, TOTAL, lib);
  }
}
