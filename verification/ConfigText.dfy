/**
  What `config set` makes of a key's text, key by key: the words a switch takes,
  the names a mode goes by, lists, numbers and their limits; and that an
  accepted set leaves exactly that on file.
*/
module ConfigText {
  import opened Wrappers
  import opened Text
  import opened ConfigSet
  import FlagList

  /** A set leaves on file what was read of its text, but for a credential the environment already supplies; it is refused for the text exactly when nothing is. */
  lemma SetLeavesWhatItReads(file: Config, env: Env, key: string, text: string, lib: Library)
    ensures Set(file, env, key, text, lib) == UnknownKey <==> RuleOf(key).None?
    ensures RuleOf(key).Some? ==> (Set(file, env, key, text, lib).Rejected? <==> ReadKey(key, text, lib).None?)
    ensures Set(file, env, key, text, lib).Accepted? ==>
              var held := At(After(file, env, key, text, lib), key);
              && ReadKey(key, text, lib).Some?
              && (held == ReadKey(key, text, lib).value || (key in SECRET_KEYS && held == At(file, key)))
              && (key in SECRET_KEYS && Secret(env, key) != Some(text) ==> held == ReadKey(key, text, lib).value)
  {
    hide RuleOf, ReadText, Validates, Changed, Saved, Secret, Plain, LoadedKey;
    SetIsApplied(file, env, key, text, lib);
    Apart(env, key);
    if Set(file, env, key, text, lib).Accepted? {
      SavedAt(file, env, key, ReadKey(key, text, lib).value, key, lib);
      if Secret(env, key).Some? {
        SuppliedIsKept(file, env, key, lib);
        assert key in SECRET_KEYS;
        SecretsAreFree(key, text, lib);
      }
    }
  }

  lemma SecretsAreFree(key: string, text: string, lib: Library)
    requires key in SECRET_KEYS
    ensures ReadKey(key, text, lib) == Some(Txt(text))
  {
    hide NumberRule, TextRule;
    FreeReads(key, text, lib);
  }

  // ------------------------------------------------------------------ switches

  const SWITCHES := {"tracing.enabled", "ui.oidc.enabled", "ui.oidc.require_idp", "ui.oidc.require_rbac",
                     "executors.allow_host_process", "ui.oidc.device_login", "requirements.assess", "audit.checkpoints.stderr"}

  /** Switches that take white space around the word, and of these the ones an empty text clears. */
  const SPACED := {"executors.allow_host_process", "ui.oidc.device_login", "requirements.assess", "audit.checkpoints.stderr"}
  const CLEARED := {"requirements.assess", "audit.checkpoints.stderr"}

  lemma SwitchRules()
    ensures TextRule("tracing.enabled") == TextRule("ui.oidc.enabled") == Some(Switch(false, false))
    ensures TextRule("ui.oidc.require_idp") == TextRule("ui.oidc.require_rbac") == Some(Switch(false, false))
    ensures TextRule("executors.allow_host_process") == TextRule("ui.oidc.device_login") == Some(Switch(true, false))
    ensures TextRule("requirements.assess") == TextRule("audit.checkpoints.stderr") == Some(Switch(true, true))
  {
    hide NumberRule;
  }

  /** A switch is turned on by true, 1, yes and on and off by false, 0, no and off, in any case; two are cleared by an empty text; nothing else is taken. */
  lemma SwitchReads(key: string, text: string, lib: Library)
    requires key in SWITCHES
    ensures var w := Lower(if key in SPACED then Trim(text) else text);
            var v := ReadKey(key, text, lib);
            && (v == Some(On(true)) <==> w in {"true", "1", "yes", "on"})
            && (v == Some(On(false)) <==> w in {"false", "0", "no", "off"})
            && (v == Some(Unset) <==> w == "" && key in CLEARED)
            && (v.Some? ==> v.value in {On(true), On(false), Unset})
  {
    hide NumberRule, TextRule, Trim, Lower;
    OnlyNumbers(key);
    SwitchRules();
  }

  /** So an accepted set of a switch leaves it on or off as the word says, and a word that says neither is refused. */
  lemma SwitchIsOnFile(file: Config, env: Env, key: string, text: string, lib: Library)
    requires key in SWITCHES
    ensures var w := Lower(if key in SPACED then Trim(text) else text);
            var o := Set(file, env, key, text, lib);
            && (o.Accepted? ==> At(o.config, key) == if w in {"true", "1", "yes", "on"} then On(true) else if w == "" then Unset else On(false))
            && (o.Rejected? <==> !(w in {"true", "1", "yes", "on", "false", "0", "no", "off"} || (w == "" && key in CLEARED)))
  {
    hide RuleOf, Set, ReadKey, Trim, Lower;
    SwitchReads(key, text, lib);
    SetLeavesWhatItReads(file, env, key, text, lib);
    SwitchIsKnown(key);
  }

  lemma SwitchIsKnown(key: string)
    requires key in SWITCHES
    ensures RuleOf(key).Some? && key !in SECRET_KEYS
  {
    hide NumberRule, TextRule;
    OnlyNumbers(key);
    SwitchRules();
  }

  // --------------------------------------------------------------------- texts

  lemma ProviderTextsAreFree()
    ensures TextRule("anthropic.api_key") == TextRule("anthropic.model") == Some(Free)
    ensures TextRule("anthropic.base_url") == TextRule("openai.api_key") == Some(Free)
    ensures TextRule("openai.model") == TextRule("openai.base_url") == Some(Free)
    ensures TextRule("ollama.base_url") == TextRule("ollama.model") == Some(Free)
    ensures TextRule("claudecode.model") == TextRule("copilot.model") == Some(Free)
  {
    hide NumberRule;
  }

  lemma RemoteTextsAreFree()
    ensures TextRule("stt.groq_api_key") == TextRule("stt.model") == Some(Free)
    ensures TextRule("stt.endpoint") == TextRule("stt.language") == Some(Free)
    ensures TextRule("stt.whisper_model") == TextRule("notify.slack_webhook") == Some(Free)
    ensures TextRule("notify.discord_webhook") == TextRule("webhook.url") == Some(Free)
    ensures TextRule("github.token") == TextRule("github.repo") == Some(Free)
  {
    hide NumberRule;
  }

  lemma OtherTextsAreFree()
    ensures TextRule("sync.remote") == TextRule("sync.branch") == Some(Free)
    ensures TextRule("mock.responses_file") == TextRule("mock.default") == Some(Free)
    ensures TextRule("tracing.endpoint") == TextRule("tracing.service_name") == Some(Free)
    ensures TextRule("ui.oidc.issuer") == TextRule("ui.oidc.client_id") == Some(Free)
    ensures TextRule("ui.oidc.client_secret") == TextRule("ui.oidc.redirect_url") == Some(Free)
  {
    hide NumberRule;
  }

  lemma FreeIsNoNumber(key: string)
    requires FreeKey(key)
    ensures NumberRule(key).None?
  {
    hide NumberRule, TextRule;
    OnlyNumbers(key);
  }

  /** Free text is taken as it stands. */
  lemma FreeReads(key: string, text: string, lib: Library)
    requires FreeKey(key)
    ensures ReadKey(key, text, lib) == Some(Txt(text))
  {
    hide NumberRule, TextRule;
    FreeIsNoNumber(key);
    ProviderTextsAreFree();
    RemoteTextsAreFree();
    OtherTextsAreFree();
  }

  lemma WordRules()
    ensures TextRule("provider") == Some(OneOf({"anthropic", "openai", "ollama", "claudecode", "copilot", "mock"}))
    ensures TextRule("claudecode.effort") == TextRule("copilot.effort") == Some(EFFORTS)
    ensures TextRule("stt.provider") == Some(OneOf({"", "groq", "whisper"}))
    ensures TextRule("ui.oidc.cookie_secure") == Some(OneOf({"", "auto", "always", "never"}))
    ensures TextRule("ui.oidc.default_role") == Some(Named(ROLES)) && TextRule("ui.oidc.scim.match_claim") == Some(Named(CLAIMS))
    ensures TextRule(GATE) == Some(Named(GATES))
  {
    hide NumberRule;
  }

  lemma TrimmedRules()
    ensures TextRule(MIN_AGENT) == TextRule(EVIDENCE) == TextRule(INTERVAL) == TextRule(FILE) == Some(Rule.Trimmed)
    ensures TextRule("webhook.events") == TextRule("github.labels") == Some(Listed)
    ensures TextRule("ui.oidc.admin_emails") == TextRule("ui.oidc.scopes") == Some(Listed)
  {
    hide NumberRule;
  }

  lemma WordsAreNoNumbers()
    ensures forall key :: key in {"provider", "claudecode.effort", "copilot.effort", "stt.provider", "ui.oidc.cookie_secure"} ==> NumberRule(key).None?
  {
    hide NumberRule, TextRule;
    forall key | key in {"provider", "claudecode.effort", "copilot.effort", "stt.provider", "ui.oidc.cookie_secure"} ensures NumberRule(key).None? {
      OnlyNumbers(key);
    }
  }

  /** One of a few words, taken as it stands: case and white space matter. */
  lemma WordReads(text: string, lib: Library)
    ensures ReadKey("provider", text, lib)
         == if text in {"anthropic", "openai", "ollama", "claudecode", "copilot", "mock"} then Some(Txt(text)) else None
    ensures ReadKey("claudecode.effort", text, lib) == ReadKey("copilot.effort", text, lib)
         == if text in {"", "low", "medium", "high", "xhigh", "max"} then Some(Txt(text)) else None
    ensures ReadKey("stt.provider", text, lib) == if text in {"", "groq", "whisper"} then Some(Txt(text)) else None
    ensures ReadKey("ui.oidc.cookie_secure", text, lib) == if text in {"", "auto", "always", "never"} then Some(Txt(text)) else None
  {
    hide NumberRule, TextRule;
    WordsAreNoNumbers();
    WordRules();
  }

  lemma {:induction false} LowerIsShort(s: string)
    ensures |Lower(s)| == |s|
  {
    if s != "" {
      LowerIsShort(s[1..]);
    }
  }

  /** A mode goes by its name in any case and with white space around it, and is stored under one name. */
  lemma GateReads(text: string, lib: Library)
    ensures var v := ReadKey(GATE, text, lib); var w := Lower(Trim(text));
            && (v == Some(Txt("")) <==> w == "")
            && (v == Some(Txt("off")) <==> w == "off")
            && (v == Some(Txt("linked")) <==> w == "linked")
            && (v == Some(Txt("linked+must")) <==> w in {"linked+must", "linked-must", "linked_must"})
            && (v.Some? ==> v.value in {Txt(""), Txt("off"), Txt("linked"), Txt("linked+must")})
  {
    hide NumberRule, TextRule, Trim, Lower;
    OnlyNumbers(GATE);
    WordRules();
    LowerIsShort(Trim(text));
  }

  lemma RoleReads(text: string, lib: Library)
    ensures var w := Lower(Trim(text));
            ReadKey("ui.oidc.default_role", text, lib) ==
              if w in {"", "none", "viewer", "operator", "maintainer", "admin"} then Some(Txt(w)) else None
  {
    hide NumberRule, TextRule, Trim, Lower;
    OnlyNumbers("ui.oidc.default_role");
    WordRules();
    LowerIsShort(Trim(text));
  }

  lemma ClaimReads(text: string, lib: Library)
    ensures var v := ReadKey("ui.oidc.scim.match_claim", text, lib); var w := Lower(Trim(text));
            && (v == Some(Txt("email")) <==> w in {"", "email"})
            && (v == Some(Txt("preferred_username")) <==> w in {"preferred_username", "username"})
            && (v == Some(Txt("oid")) <==> w == "oid")
            && (v == Some(Txt("sub")) <==> w == "sub")
            && (v.Some? ==> v.value in {Txt("email"), Txt("preferred_username"), Txt("oid"), Txt("sub")})
  {
    hide NumberRule, TextRule, Trim, Lower;
    OnlyNumbers("ui.oidc.scim.match_claim");
    WordRules();
    LowerIsShort(Trim(text));
  }

  /** Text taken without the white space around it. */
  lemma TrimmedReads(key: string, text: string, lib: Library)
    requires key in {MIN_AGENT, EVIDENCE, INTERVAL, FILE}
    ensures ReadKey(key, text, lib) == Some(Txt(Trim(text)))
  {
    hide NumberRule, TextRule, Trim;
    OnlyNumbers(key);
    TrimmedRules();
  }

  // --------------------------------------------------------------------- lists

  const LISTS := {"webhook.events", "github.labels", "ui.oidc.admin_emails", "ui.oidc.scopes"}

  lemma ListRule(key: string, text: string, lib: Library)
    requires key in LISTS
    ensures ReadKey(key, text, lib) == Some(Words(FlagList.Kept(Split(text, ','))))
  {
    hide NumberRule, TextRule, Trim, Split, FlagList.Kept;
    OnlyNumbers(key);
    TrimmedRules();
  }

  lemma {:induction false} KeptAreParts(parts: seq<string>, w: string)
    ensures w in FlagList.Kept(parts) <==> w != "" && exists i :: 0 <= i < |parts| && Trim(parts[i]) == w
  {
    if parts != [] {
      var n := |parts| - 1;
      KeptAreParts(parts[..n], w);
      if i :| 0 <= i < |parts[..n]| && Trim(parts[..n][i]) == w {
        assert Trim(parts[i]) == w;
      }
      if i :| 0 <= i < |parts| && Trim(parts[i]) == w {
        assert i < n ==> Trim(parts[..n][i]) == w;
      }
    }
  }

  /**
    A list is its parts between commas, trimmed and the empty ones left out; and
    plain values joined by commas are read back as they are, in their order.
  */
  lemma ListReads(key: string, text: string, lib: Library)
    requires key in LISTS
    ensures ReadKey(key, text, lib).Some? && ReadKey(key, text, lib).value.Words?
    ensures forall w :: w in ReadKey(key, text, lib).value.words <==>
              w != "" && exists i :: 0 <= i < |Split(text, ',')| && Trim(Split(text, ',')[i]) == w
    ensures forall i :: 0 <= i < |ReadKey(key, text, lib).value.words| ==> FlagList.Plain(ReadKey(key, text, lib).value.words[i])
  {
    hide Trim, Split, FlagList.Kept, ReadKey;
    ListRule(key, text, lib);
    SplitParts(text, ',');
    FlagList.KeptArePlain(Split(text, ','));
    forall w ensures w in FlagList.Kept(Split(text, ',')) <==>
      w != "" && exists i :: 0 <= i < |Split(text, ',')| && Trim(Split(text, ',')[i]) == w
    {
      KeptAreParts(Split(text, ','), w);
    }
  }

  lemma ListReadsBack(key: string, values: seq<string>, lib: Library)
    requires key in LISTS && forall i :: 0 <= i < |values| ==> FlagList.Plain(values[i])
    ensures ReadKey(key, Join(values, ','), lib) == Some(Words(values))
  {
    hide Trim, Split, Join, FlagList.Kept, ReadKey;
    ListRule(key, Join(values, ','), lib);
    FlagList.FlattenedIff(values);
    FlagList.RepeatedIsJoined(values);
    FlagList.FlattenedOne(Join(values, ','));
  }

  // ------------------------------------------------------------------- numbers

  /** What a number may be, key by key. */
  predicate InLimits(key: string, n: real) {
    && (key == "max_parallel" ==> 1.0 <= n <= 64.0)
    && (key == MIN_FREE ==> n == 0.0 || 64.0 <= n <= 1048576.0)
    && (key in {"rate_limit.requests_per_second", "rate_limit.burst"} ==> n >= 1.0)
    && (key in {"budget.monthly_usd", "budget.daily_usd_limit", "budget.daily_token_limit"} ==> n >= 0.0)
    && (key in {"budget.alert_threshold_pct", "budget.global_usd_pct", "budget.global_token_pct"} ==> 0.0 <= n <= 100.0)
    && (key == CONNS ==> 0.0 == n || 1.0 <= n <= 4096.0)
    && (key == PER_IP ==> 0.0 == n || 1.0 <= n <= 1024.0)
    && (key == ATTEMPTS ==> 0.0 <= n <= 10.0)
    && (key in {PER_EXECUTOR, TOTAL} ==> n == 0.0 || 1048576.0 <= n <= 68719476736.0)
    && (key in HOURS ==> n == 0.0 || 1.0 <= n <= 720.0)
    && (key in MINUTES ==> n in {-1.0, 0.0} || 1.0 <= n <= 1440.0)
    && (key == "ui.oidc.max_claim_age_minutes" ==> n in {-1.0, 0.0} || 1.0 <= n <= 60.0)
    && (key == "ui.oidc.clock_skew_seconds" ==> n == -1.0 || 0.0 <= n <= 600.0)
    && (key == "ui.oidc.scim.offboard_after_days" ==> 0.0 <= n <= 3650.0)
    && (key == "ui.oidc.scim.rate_limit_per_minute" ==> n == 0.0 || 10.0 <= n <= 60000.0)
  }

  const HOURS := {"ui.oidc.session_ttl_hours", "ui.oidc.idle_timeout_hours", "ui.oidc.cli_session_ttl_hours", "ui.oidc.cli_idle_timeout_hours"}
  const MINUTES := {SUDO, "ui.oidc.refresh_interval_minutes", "ui.oidc.device_approval_max_age_minutes"}

  /** Keys that take a fraction, and keys an empty text sets back. */
  const FRACTIONS := {"rate_limit.requests_per_second", "budget.monthly_usd", "budget.daily_usd_limit", "budget.global_usd_pct", "budget.global_token_pct"}
  const BLANKED := {ATTEMPTS, PER_EXECUTOR, TOTAL}

  /** The rule of a key is what its name says. */
  ghost predicate AsNamed(key: string) {
    var r := NumberRule(key);
    && r.Some? && r.value.fraction == (key in FRACTIONS)
    && r.value.blank == (if key == ATTEMPTS then Some(Unset) else if key in BLANKED then Some(Num(0.0)) else None)
    && forall n :: r.value.band.Holds(n) <==> InLimits(key, n)
  }

  lemma ParallelAsNamed()
    ensures AsNamed("max_parallel") && AsNamed(MIN_FREE)
  {
    hide TextRule;
  }

  lemma RatesAsNamed()
    ensures AsNamed("rate_limit.requests_per_second") && AsNamed("rate_limit.burst")
  {
    hide TextRule;
  }

  lemma MoneyAsNamed()
    ensures AsNamed("budget.monthly_usd") && AsNamed("budget.daily_usd_limit") && AsNamed("budget.daily_token_limit")
  {
    hide TextRule;
  }

  lemma PercentsAsNamed()
    ensures AsNamed("budget.alert_threshold_pct") && AsNamed("budget.global_usd_pct") && AsNamed("budget.global_token_pct")
  {
    hide TextRule;
  }

  lemma ConnectionsAsNamed()
    ensures AsNamed(CONNS) && AsNamed(PER_IP)
  {
    hide TextRule;
  }

  lemma AttemptsAsNamed()
    ensures AsNamed(ATTEMPTS)
  {
    hide TextRule;
  }

  lemma BudgetsAsNamed()
    ensures AsNamed(PER_EXECUTOR) && AsNamed(TOTAL)
  {
    hide TextRule;
  }

  lemma SessionAsNamed()
    ensures AsNamed("ui.oidc.session_ttl_hours") && AsNamed("ui.oidc.idle_timeout_hours")
  {
    hide TextRule;
  }

  lemma CliAsNamed()
    ensures AsNamed("ui.oidc.cli_session_ttl_hours") && AsNamed("ui.oidc.cli_idle_timeout_hours")
  {
    hide TextRule;
  }

  lemma MinutesAsNamed()
    ensures AsNamed(SUDO) && AsNamed("ui.oidc.refresh_interval_minutes") && AsNamed("ui.oidc.device_approval_max_age_minutes")
  {
    hide TextRule;
  }

  lemma ClaimsAsNamed()
    ensures AsNamed("ui.oidc.max_claim_age_minutes") && AsNamed("ui.oidc.clock_skew_seconds")
  {
    hide TextRule;
  }

  lemma ScimAsNamed()
    ensures AsNamed("ui.oidc.scim.offboard_after_days") && AsNamed("ui.oidc.scim.rate_limit_per_minute")
  {
    hide TextRule;
  }

  lemma EachAsNamed(key: string)
    requires key in NUMBERS
    ensures AsNamed(key)
  {
    hide AsNamed;
    ParallelAsNamed();
    RatesAsNamed();
    MoneyAsNamed();
    PercentsAsNamed();
    ConnectionsAsNamed();
    AttemptsAsNamed();
    BudgetsAsNamed();
    SessionAsNamed();
    CliAsNamed();
    MinutesAsNamed();
    ClaimsAsNamed();
    ScimAsNamed();
  }

  /** What is read of a number's text: white space is no matter where an empty text sets the key back. */
  function NumberText(key: string, text: string): string {
    if key in BLANKED then Trim(text) else text
  }

  /** A number is taken exactly if it can be read and is within its key's limits; an empty text sets three keys back; nothing else is taken. */
  lemma NumberReads(key: string, text: string, lib: Library)
    requires key in NUMBERS
    ensures var t := NumberText(key, text); var v := ReadKey(key, text, lib);
            && (key in BLANKED && t == "" ==> v == Some(if key == ATTEMPTS then Unset else Num(0.0)))
            && (!(key in BLANKED && t == "") ==>
                 && (forall n :: v == Some(Num(n)) <==>
                      InLimits(key, n) && (if key in FRACTIONS then lib.number(t) == Some(n) else exists i :: lib.whole(t) == Some(i) && n == i as real))
                 && (v.Some? ==> v.value.Num?))
  {
    hide NumberRule, TextRule, Trim, InLimits;
    EachAsNamed(key);
    var t := NumberText(key, text);
    if key !in FRACTIONS && lib.whole(t).Some? {
      assert lib.whole(t) == Some(lib.whole(t).value);
    }
  }

  // ---------------------------------------------- the check and the repairs

  /** The numbers the check reads, 0 meaning each one's default. */
  const JUDGED := {"max_parallel", MIN_FREE, "rate_limit.requests_per_second", "rate_limit.burst", "budget.monthly_usd",
                   "budget.daily_usd_limit", "budget.daily_token_limit", "budget.alert_threshold_pct", "budget.global_usd_pct",
                   "budget.global_token_pct", CONNS, PER_IP, ATTEMPTS, PER_EXECUTOR, TOTAL, SUDO}

  predicate NumberFits(c: Config, key: string) {
    Amount(At(c, key)) == 0.0 || InLimits(key, Amount(At(c, key)))
  }

  predicate TextsFit(c: Config, lib: Library) {
    && (Trim(TextOf(At(c, MIN_AGENT))) == "" || lib.version(Trim(TextOf(At(c, MIN_AGENT)))))
    && Trim(TextOf(At(c, EVIDENCE))) in {"", "warn", "required"}
    && (Trim(TextOf(At(c, INTERVAL))) == "" || lib.duration(Trim(TextOf(At(c, INTERVAL)))))
    && (Trim(TextOf(At(c, FILE))) == "" || lib.path(TextOf(At(c, FILE))))
    && Lower(Trim(TextOf(At(c, GATE)))) in {"", "off", "linked", "linked+must", "linked-must", "linked_must"}
  }

  /** One address gets no more connections than there are, and one device no more of the write-back budget. */
  predicate PairsFit(c: Config) {
    var conns, perIp := Amount(At(c, CONNS)), Amount(At(c, PER_IP));
    var perExecutor, total := Amount(At(c, PER_EXECUTOR)), Amount(At(c, TOTAL));
    && (conns == 0.0 || perIp == 0.0 || perIp <= conns)
    && (if perExecutor == 0.0 then 268435456.0 else perExecutor) <= (if total == 0.0 then 1073741824.0 else total)
  }

  lemma NumberSoundIff(c: Config, key: string, lib: Library)
    requires key in JUDGED
    ensures Sound(key, At(c, key), lib) <==> NumberFits(c, key)
  {
    hide NumberRule, InLimits, TextSound;
    assert key in NUMBERS && key in CHECKED && key !in {MIN_AGENT, EVIDENCE, INTERVAL, FILE, GATE};
    EachAsNamed(key);
    NumberHasNoText(key, At(c, key), lib);
  }

  lemma NumberHasNoText(key: string, v: Value, lib: Library)
    requires key !in {MIN_AGENT, EVIDENCE, INTERVAL, FILE, GATE}
    ensures TextSound(key, TextOf(v), lib)
  {
  }

  lemma TextsHaveNoNumber(key: string, v: Value, lib: Library)
    requires key in {MIN_AGENT, EVIDENCE, INTERVAL, FILE, GATE}
    ensures Sound(key, v, lib) <==> TextSound(key, TextOf(v), lib)
  {
    hide NumberRule, TextSound;
    OnlyNumbers(key);
  }

  lemma TextsSoundIff(c: Config, lib: Library)
    ensures TextsFit(c, lib) <==> forall key :: key in {MIN_AGENT, EVIDENCE, INTERVAL, FILE, GATE} ==> Sound(key, At(c, key), lib)
  {
    hide Sound, Trim, Lower;
    forall key | key in {MIN_AGENT, EVIDENCE, INTERVAL, FILE, GATE} ensures Sound(key, At(c, key), lib) <==> TextSound(key, TextOf(At(c, key)), lib) {
      TextsHaveNoNumber(key, At(c, key), lib);
    }
    LowerIsShort(Trim(TextOf(At(c, GATE))));
  }

  /** What passes the whole check: numbers within limits, texts that can be read, pairs that fit, and whatever else is checked. */
  lemma ValidatesIff(c: Config, lib: Library)
    ensures Validates(c, lib) <==> (forall key :: key in JUDGED ==> NumberFits(c, key)) && TextsFit(c, lib) && PairsFit(c) && lib.sound(c.rest)
  {
    hide Sound, NumberFits, TextsFit;
    forall key | key in JUDGED ensures Sound(key, At(c, key), lib) <==> NumberFits(c, key) {
      NumberSoundIff(c, key, lib);
    }
    TextsSoundIff(c, lib);
    assert CHECKED == JUDGED + {MIN_AGENT, EVIDENCE, INTERVAL, FILE, GATE};
  }

  /** What loading makes of a number that stands alone: kept within its limits, else put back to what means the default. */
  lemma LoadRepairsNumber(file: Config, key: string, lib: Library)
    requires key in JUDGED && key !in {PER_IP, PER_EXECUTOR}
    ensures LoadedKey(file, key, lib)
         == if key == SUDO || NumberFits(file, key) then At(file, key) else if key in {MIN_FREE, ATTEMPTS} then Unset else Num(0.0)
  {
    hide Sound, NumberFits, Filled, NamedIn, Trim;
    FilledAt(file, key);
    NumberSoundIff(file, key, lib);
    assert key in CHECKED && key !in {MIN_AGENT, EVIDENCE, INTERVAL, FILE, GATE};
  }

  /** A limit for one address that does not fit goes back to its default; a budget for one device is lowered to the whole. */
  lemma LoadRepairsPairs(file: Config, lib: Library)
    ensures var conns, perIp := Amount(LoadedKey(file, CONNS, lib)), At(file, PER_IP);
            LoadedKey(file, PER_IP, lib) ==
              if NumberFits(file, PER_IP) && (conns == 0.0 || Amount(perIp) <= conns || Amount(perIp) == 0.0) then perIp else Num(0.0)
    ensures var total := if Amount(LoadedKey(file, TOTAL, lib)) == 0.0 then 1073741824.0 else Amount(LoadedKey(file, TOTAL, lib));
            var own := if NumberFits(file, PER_EXECUTOR) then At(file, PER_EXECUTOR) else Num(0.0);
            LoadedKey(file, PER_EXECUTOR, lib) ==
              if (if Amount(own) == 0.0 then 268435456.0 else Amount(own)) <= total then own else Num(total)
  {
    hide Sound, NumberFits, Filled, NamedIn, Trim;
    FilledAt(file, CONNS);
    FilledAt(file, PER_IP);
    FilledAt(file, PER_EXECUTOR);
    FilledAt(file, TOTAL);
    NumberSoundIff(file, PER_IP, lib);
    NumberSoundIff(file, PER_EXECUTOR, lib);
  }

  /** And of a text: one that cannot be read is dropped where loading looks at all. */
  lemma LoadRepairsTexts(file: Config, lib: Library)
    ensures forall key :: key in {MIN_AGENT, EVIDENCE} ==> LoadedKey(file, key, lib) == At(file, key)
    ensures var interval, path := At(file, INTERVAL), At(file, FILE);
            && LoadedKey(file, INTERVAL, lib) == (if Trim(TextOf(interval)) == "" || lib.duration(Trim(TextOf(interval))) then interval else Txt(""))
            && LoadedKey(file, FILE, lib) == (if Trim(TextOf(path)) == "" || lib.path(TextOf(path)) then path else Txt(""))
  {
    hide NumberRule, Filled, Trim, NamedIn;
    forall key | key in {MIN_AGENT, EVIDENCE, INTERVAL, FILE} ensures NumberRule(key).None? && key in CHECKED && At(Filled(file), key) == At(file, key) {
      OnlyNumbers(key);
      FilledAt(file, key);
    }
  }

  /** A mode is written as it is stored, and one nobody knows dropped. */
  lemma LoadRepairsMode(file: Config, lib: Library)
    ensures var mode := At(file, GATE); var w := Lower(Trim(TextOf(mode)));
            LoadedKey(file, GATE, lib) ==
              if w == "" then mode
              else if w in {"linked+must", "linked-must", "linked_must"} then Txt("linked+must")
              else if w in {"off", "linked"} then Txt(w)
              else Txt("")
  {
    hide NumberRule, Filled, Trim, Lower, LimitsAgree, BudgetsAgree;
    OnlyNumbers(GATE);
    FilledAt(file, GATE);
    LowerIsShort(Trim(TextOf(At(file, GATE))));
  }

  // ------------------------------------------------ defaults, the environment

  /** What loading takes for a key the file does not hold. */
  lemma LoadedDefaults(file: Config, lib: Library)
    ensures "provider" !in file.keys ==> LoadedKey(file, "provider", lib) == Txt("claudecode")
    ensures "anthropic.model" !in file.keys ==> LoadedKey(file, "anthropic.model", lib) == Txt("claude-opus-4-6")
    ensures "openai.model" !in file.keys ==> LoadedKey(file, "openai.model", lib) == Txt("gpt-4o")
    ensures "ollama.base_url" !in file.keys ==> LoadedKey(file, "ollama.base_url", lib) == Txt("http://localhost:11434")
    ensures "ollama.model" !in file.keys ==> LoadedKey(file, "ollama.model", lib) == Txt("llama3.2")
  {
    hide Repaired, Filled;
    forall key | key in DEFAULTED ensures LoadedKey(file, key, lib) == At(Filled(file), key) {
      UncheckedIsKept(Filled(file), key, lib);
    }
    FilledAt(file, "provider");
    FilledAt(file, "anthropic.model");
    FilledAt(file, "openai.model");
    FilledAt(file, "ollama.base_url");
    FilledAt(file, "ollama.model");
  }

  lemma UncheckedIsKept(c: Config, key: string, lib: Library)
    requires key in DEFAULTED
    ensures ClampedKey(c, key, lib) == At(c, key)
  {
    hide Sound, NamedIn, Trim;
    Defaults(key);
    UncheckedIsSound(key, At(c, key), lib);
  }

  /** A variable that is set, and not to nothing. */
  predicate Given(env: Env, name: string) {
    name in env && env[name] != ""
  }

  /** Which variable supplies which key, to be saved with the rest. */
  lemma EnvironmentSupplies(c: Config, env: Env)
    ensures At(Overlay(c, env), "provider") == if Given(env, "CLOOP_PROVIDER") then Txt(env["CLOOP_PROVIDER"]) else At(c, "provider")
    ensures At(Overlay(c, env), "anthropic.base_url") == if Given(env, "ANTHROPIC_BASE_URL") then Txt(env["ANTHROPIC_BASE_URL"]) else At(c, "anthropic.base_url")
    ensures At(Overlay(c, env), "openai.base_url") == if Given(env, "OPENAI_BASE_URL") then Txt(env["OPENAI_BASE_URL"]) else At(c, "openai.base_url")
    ensures At(Overlay(c, env), "ollama.base_url") == if Given(env, "OLLAMA_BASE_URL") then Txt(env["OLLAMA_BASE_URL"]) else At(c, "ollama.base_url")
  {
    hide Overlay;
    forall key ensures At(Overlay(c, env), key) == Overlaid(env, key, At(c, key)) {
      OverlayAt(c, env, key);
    }
  }

  /** And which supplies which credential. */
  lemma EnvironmentSuppliesSecrets(c: Config, env: Env)
    ensures At(Overlay(c, env), "ui.oidc.client_secret") == if Given(env, "CLOOP_OIDC_CLIENT_SECRET") then Txt(env["CLOOP_OIDC_CLIENT_SECRET"]) else At(c, "ui.oidc.client_secret")
    ensures At(Overlay(c, env), "anthropic.api_key") == if Given(env, "ANTHROPIC_API_KEY") then Txt(env["ANTHROPIC_API_KEY"]) else At(c, "anthropic.api_key")
    ensures At(Overlay(c, env), "openai.api_key") == if Given(env, "OPENAI_API_KEY") then Txt(env["OPENAI_API_KEY"]) else At(c, "openai.api_key")
    ensures At(Overlay(c, env), "github.token") == if Given(env, "GITHUB_TOKEN") then Txt(env["GITHUB_TOKEN"]) else At(c, "github.token")
  {
    hide Overlay;
    forall key ensures At(Overlay(c, env), key) == Overlaid(env, key, At(c, key)) {
      OverlayAt(c, env, key);
    }
  }

  // ------------------------------------------------------------- letters, space

  /** Lowering a text changes its capital letters and no other character of ASCII. */
  lemma {:induction false} LowerIs(s: string, i: nat)
    requires i < |s| && s[i] as int < 128
    ensures |Lower(s)| == |s|
    ensures Lower(s)[i] as int == s[i] as int + if 'A' <= s[i] <= 'Z' then 32 else 0
  {
    LowerIsShort(s[1..]);
    if i > 0 {
      LowerIs(s[1..], i - 1);
    }
  }
}
