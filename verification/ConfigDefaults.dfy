/** The defaults and clamps the harness ships, and what they make of the parser. */
module ConfigDefaults {
  import opened Prelude
  import opened ConfigTree
  import opened ConfigParse
  import opened ConfigSharing

  const CLAMPS := [
    Clamp("loop", "session_stall_seconds", 300.0, None, false),
    Clamp("loop", "stall_sweep_interval_seconds", 15.0, Some(600.0), false),
    Clamp("verify", "check_script_timeout_seconds", 10.0, None, false),
    Clamp("loop", "worker_protocol_max_attempts", 1.0, Some(5.0), false),
    Clamp("loop", "worker_timeout_max_attempts", 1.0, Some(5.0), false),
    Clamp("loop", "worker_first_token_retry_multiplier", 1.0, Some(10.0), false),
    Clamp("loop", "worker_first_token_retry_cap_seconds", 10.0, Some(1800.0), false),
    Clamp("loop", "sdk_first_token_timeout_seconds", 10.0, Some(1800.0), false),
    Clamp("loop", "sdk_stream_open_timeout_seconds", 10.0, Some(600.0), false),
    Clamp("loop", "worker_stream_idle_warn_seconds", 30.0, Some(600.0), false),
    Clamp("loop", "worker_idle_consecutive_slow", 2.0, Some(20.0), true),
    Clamp("loop", "worker_idle_min_elapsed_seconds", 60.0, Some(3600.0), false),
    Clamp("ci", "wait_timeout_seconds", 30.0, Some(7200.0), false),
    Clamp("ci", "none_grace_seconds", 0.0, Some(300.0), false),
    Clamp("ci", "poll_interval_seconds", 5.0, Some(300.0), false)]

  const SLACK_REACTIONS := Obj(map[
    "ship_it" := Str("rocket"), "abort" := Str("x"), "pause" := Str("pause_button"), "budget_bump" := Str("moneybag")])

  const SLACK: Root := map[
    "channel" := Str(""), "authorised_users" := Arr([]), "native_progress_delivery" := Bool(true),
    "reactions" := SLACK_REACTIONS]

  const BUDGETS: Root := map[
    "monthly_per_user_usd" := Num(1000.0), "session_default_usd" := Num(50.0),
    "session_hard_ceiling_usd" := Num(200.0), "daily_warn_usd" := Num(100.0), "daily_max_usd" := Num(200.0),
    "monthly_warn_ratio" := Num(0.8)]

  const REPOS: Root := map[
    "allowed" := Arr([]), "can_create" := Bool(false), "create_org" := Str(""), "create_visibility" := Str("private"),
    "default_base_branch" := Str("main"), "draft_pr_on_nonpass" := Bool(false)]

  const MODELS_AUTH := Obj(map[
    "credential_service" := Str(""), "api_key_env" := Str("ANTHROPIC_API_KEY")])

  const MODELS: Root := map[
    "lead" := Str("claude-fable-5"), "worker" := Str("claude-sonnet-5"), "adversary" := Str("claude-fable-5"),
    "classifier" := Str("claude-haiku-4-5"), "max_output_tokens" := Num(64000.0), "auth" := MODELS_AUTH]

  /** The fields of the loop section that are not clamped, in three parts. */
  const LOOP_A: Root := map[
    "max_cycles" := Num(3.0), "adversarial_pass_ends_early" := Bool(true), "worker_timeout_seconds" := Num(1800.0),
    "adversary_timeout_seconds" := Num(900.0), "lead_timeout_seconds" := Num(900.0),
    "session_hard_timeout_seconds" := Num(7200.0), "time_extension_ask_enabled" := Bool(true),
    "time_extension_wait_seconds" := Num(300.0), "time_extension_default_seconds" := Num(1800.0),
    "repair_reserve_ratio" := Num(0.3), "budget_extension_ask_enabled" := Bool(true),
    "budget_extension_wait_seconds" := Num(300.0), "stuck_loop_seconds" := Num(2700.0),
    "teardown_drain_seconds" := Num(3600.0), "stall_watchdog_seconds" := Num(90.0),
    "subtask_deadline_seconds" := Num(2100.0), "budget_reserve_ratio" := Num(0.15),
    "env_wait_retry_enabled" := Bool(true), "worker_protocol_retry_enabled" := Bool(true),
    "clarification_escalation_enabled" := Bool(true), "clarification_auto_accept_delegated" := Bool(false),
    "graceful_pr_on_review_crash" := Bool(true), "stall_auto_terminal" := Bool(true),
    "stall_graceful_pr" := Bool(true)]

  const LOOP_B: Root := map[
    "abort_salvage_pr" := Bool(true), "ship_time_reserve_seconds" := Num(600.0),
    "enforce_worker_context" := Bool(true), "revise_spec_turn_enabled" := Bool(true),
    "revise_spec_timeout_seconds" := Num(180.0), "skip_observe_reprobe_on_revise" := Bool(true),
    "revise_scoping_enabled" := Bool(true), "revise_targeted_planbase_window" := Bool(true),
    "deterministic_revise_mapping" := Bool(true), "worker_confab_detect" := Bool(true),
    "contract_rederive_enabled" := Bool(true), "contract_test_path_reconcile" := Bool(true),
    "contract_mismatch_escalation_enabled" := Bool(true), "ledger_reachability_guard_enabled" := Bool(true),
    "plan_path_validation_enabled" := Bool(true), "plan_policy_conflict_check_enabled" := Bool(true),
    "observe_evidence_check_enabled" := Bool(true), "plan_path_writeback_enabled" := Bool(true),
    "lead_repo_scout_enabled" := Bool(true), "lead_scout_timeout_seconds" := Num(420.0),
    "lead_scout_max_turns" := Num(60.0), "lead_scout_max_chars" := Num(32000.0),
    "revise_adopt_orphan_findings" := Bool(true), "revise_max_adoptions_per_cycle" := Num(3.0)]

  const LOOP_C: Root := map[
    "revise_route_co_fix_owners" := Bool(true), "finding_repair_subtasks_enabled" := Bool(true),
    "max_cycle_extensions" := Num(1.0), "workflow_scope_precheck" := Bool(true),
    "early_exit_no_change_cycle" := Bool(true), "ship_when_no_blocking_findings" := Bool(true),
    "auto_resolve_satisfied_contract" := Bool(true), "scope_blowout_file_threshold" := Num(500.0),
    "resume_ledger_guard_enabled" := Bool(true), "basename_rescue_enabled" := Bool(true),
    "file_written_accepts_rename" := Bool(true), "worker_timeout_retry_enabled" := Bool(true),
    "best_effort_verify" := Bool(true), "scripted_verify_fallback" := Bool(false), "recovery_max_resumes" := Num(3.0),
    "recovery_resume_window_seconds" := Num(60.0), "recovery_resume_at_subtask" := Bool(true),
    "recovery_replan_guard" := Bool(true), "lead_json_retry_enabled" := Bool(true),
    "lead_syntax_retry_enabled" := Bool(true), "deterministic_final_scope_check" := Bool(true),
    "worker_idle_abort_enabled" := Bool(false)]

  const LOOP_CLAMPED: Root := map[
    "worker_protocol_max_attempts" := Num(3.0), "session_stall_seconds" := Num(1800.0),
    "stall_sweep_interval_seconds" := Num(60.0), "sdk_first_token_timeout_seconds" := Num(30.0),
    "sdk_stream_open_timeout_seconds" := Num(120.0), "worker_stream_idle_warn_seconds" := Num(90.0),
    "worker_timeout_max_attempts" := Num(3.0), "worker_first_token_retry_multiplier" := Num(3.0),
    "worker_first_token_retry_cap_seconds" := Num(300.0), "worker_idle_consecutive_slow" := Num(3.0),
    "worker_idle_min_elapsed_seconds" := Num(900.0)]

  const LOOP: Root := LOOP_A + LOOP_B + LOOP_C + LOOP_CLAMPED

  const CI: Root := map[
    "wait_timeout_seconds" := Num(900.0), "poll_interval_seconds" := Num(20.0), "none_grace_seconds" := Num(45.0),
    "permanent_denial_polls" := Num(2.0), "max_repair_cycles" := Num(1.0), "repair_subtask_enabled" := Bool(true),
    "workflow_runs_fallback" := Bool(true), "publication_verify_attempts" := Num(4.0),
    "publication_verify_delay_ms" := Num(1500.0)]

  const VERCEL_DEPLOY_REPAIR := Obj(map[
    "enabled" := Bool(true), "max_attempts" := Num(3.0), "budget_ratio" := Num(0.25)])

  const VERCEL: Root := map[
    "api_key_env" := Str("VERCEL_TOKEN"), "enabled" := Bool(false), "credential_service" := Str(""),
    "project_id" := Str(""), "preview_wait_seconds" := Num(300.0), "deploy_repair" := VERCEL_DEPLOY_REPAIR]

  const STORAGE: Root := map[
    "state_db_path" := Str("~/.openclaw/workspace/openclaw-agent-harness/state.db"),
    "worktree_root" := Str("~/.openclaw/workspace/openclaw-agent-harness/worktrees"),
    "audit_retention_days" := Num(90.0), "prune_terminal_sessions" := Bool(false),
    "prune_terminal_sessions_days" := Num(365.0), "min_free_disk_bytes" := Num(1073741824.0),
    "checkpoint_root" := Str("")]

  const SAFETY_BASH_WHITELIST := [
    Str("git"), Str("pnpm"), Str("npm"), Str("npx"), Str("yarn"), Str("node"), Str("tsc"), Str("tsx"), Str("deno"),
    Str("bun"), Str("python"), Str("python3"), Str("pip"), Str("pip3"), Str("pytest"), Str("go"), Str("cargo"),
    Str("make"), Str("just"), Str("ls"), Str("cat"), Str("grep"), Str("rg"), Str("head"), Str("tail"), Str("wc"),
    Str("jq"), Str("yq"), Str("sed"), Str("awk"), Str("find"), Str("which"), Str("echo"), Str("printf"), Str("test"),
    Str("true"), Str("false"), Str("pwd"), Str("diff"), Str("sort"), Str("uniq"), Str("cut"), Str("tr"), Str("env"),
    Str("date"), Str("basename"), Str("dirname"), Str("realpath"), Str("xargs"), Str("comm"), Str("mkdir"), Str("cd"),
    Str("cp"), Str("mv"), Str("touch")]

  const SAFETY_BASH_DENYLIST_TOKENS := [
    Str("sudo"), Str("su"), Str("rm"), Str("shred"), Str("mkfs"), Str("dd"), Str("chmod"), Str("chown"), Str("chgrp"),
    Str("umount"), Str("mount"), Str("iptables"), Str("reboot"), Str("shutdown"), Str("halt"), Str("poweroff"),
    Str("kill"), Str("killall"), Str("pkill"), Str("sh"), Str("bash"), Str("zsh"), Str("dash"), Str("ksh"),
    Str("fish")]

  const SAFETY_PATH_DENYLIST := [
    Str(".env"), Str(".env.*"), Str(".secrets/"), Str("/etc/"), Str("/root/"), Str("~/.ssh/"), Str("id_rsa"),
    Str("id_ed25519"), Str("harness-vault/"), Str("vault.key"), Str("vault.db")]

  const SAFETY: Root := map[
    "worker_permission_mode" := Str("acceptEdits"), "bash_whitelist" := Arr(SAFETY_BASH_WHITELIST),
    "bash_denylist_tokens" := Arr(SAFETY_BASH_DENYLIST_TOKENS), "path_denylist" := Arr(SAFETY_PATH_DENYLIST),
    "path_denylist_exceptions" := Arr([]), "allow_git_push" := Bool(false), "allow_network_commands" := Bool(false)]

  const PAT_ROUTING_PROVIDERS := Obj(map[
    "github" := Obj(map["api_base" := Str("https://api.github.com"), "api_key_env" := Str("GH_TOKEN")]),
    "gitlab" := Obj(map["api_base" := Str("https://gitlab.com/api/v4"), "api_key_env" := Str("GITLAB_TOKEN")])])

  const PAT_ROUTING: Root := map[
    "overrides" := Obj(map[]), "commit_identity" := Obj(map[]),
    "default_service_pattern" := Str("{provider}-{owner}"), "auth" := Obj(map["api_key_env" := Str("GH_TOKEN")]),
    "user_identities" := Obj(map[]), "default_provider" := Str("github"), "provider_by_owner" := Obj(map[]),
    "providers" := PAT_ROUTING_PROVIDERS]

  const BRIEF: Root := map[
    "ingest_repo_conventions" := Bool(true), "convention_char_budget" := Num(10000.0),
    "repo_only_invariant" := Bool(true), "bimodal_clarify" := Bool(true), "bimodal_min_interpretations" := Num(2.0),
    "request_file_roots" := Arr([]), "request_file_max_bytes" := Num(262144.0),
    "confirm_before_spend" := Str("always"), "confirm_min_risk" := Str("high")]

  const VERIFY: Root := map[
    "run_repo_check_scripts" := Bool(false), "generators" := Arr([]), "summarise_generated_for_review" := Bool(false),
    "append_generation_subtask" := Bool(false),
    "check_script_allowlist" := Arr([Str("okf:check"), Str("lint"), Str("typecheck"), Str("test")]),
    "check_script_timeout_seconds" := Num(600.0), "typecheck_gate" := Bool(true),
    "check_script_heap_retry_mb" := Num(8192.0)]

  const LOGGING: Root := map[
    "level" := Str("info")]

  const LOG: Root := map[
    "interaction_log_enabled" := Bool(true), "dir" := Str(""), "full_prompts" := Bool(false),
    "retention_days" := Num(14.0)]

  const CREDENTIALS: Root := map[
    "dir" := Str("harness-vault"), "key_env" := Str("OAH_VAULT_KEY")]

  /** The sections the drops and clamps write to. */
  function WrittenSections(slack: Root, loop: Root, ci: Root, verify: Root): Root {
    map["slack" := Obj(slack), "loop" := Obj(loop), "ci" := Obj(ci), "verify" := Obj(verify)]
  }

  function CheckedSections(budgets: Root, repos: Root, vercel: Root, pat: Root): Root {
    map["budgets" := Obj(budgets), "repos" := Obj(repos), "vercel" := Obj(vercel), "pat_routing" := Obj(pat)]
  }

  function CarriedSections(models: Root, storage: Root, safety: Root, brief: Root, logging: Root, log: Root, credentials: Root): Root {
    map["models" := Obj(models), "storage" := Obj(storage), "safety" := Obj(safety), "brief" := Obj(brief),
        "logging" := Obj(logging), "log" := Obj(log), "credentials" := Obj(credentials)]
  }

  /** The defaults the harness ships: sections only carried along, sections checked, and sections written to. */
  const DEFAULTS: Root :=
    CarriedSections(MODELS, STORAGE, SAFETY, BRIEF, LOGGING, LOG, CREDENTIALS)
    + CheckedSections(BUDGETS, REPOS, VERCEL, PAT_ROUTING)
    + WrittenSections(SLACK, LOOP, CI, VERIFY)

  /** The place of each field in the table; it makes telling two entries apart cheap. */
  const PLACE: map<string, int> := map[
    "session_stall_seconds" := 0, "stall_sweep_interval_seconds" := 1, "check_script_timeout_seconds" := 2,
    "worker_protocol_max_attempts" := 3, "worker_timeout_max_attempts" := 4,
    "worker_first_token_retry_multiplier" := 5, "worker_first_token_retry_cap_seconds" := 6,
    "sdk_first_token_timeout_seconds" := 7, "sdk_stream_open_timeout_seconds" := 8,
    "worker_stream_idle_warn_seconds" := 9, "worker_idle_consecutive_slow" := 10,
    "worker_idle_min_elapsed_seconds" := 11, "wait_timeout_seconds" := 12, "none_grace_seconds" := 13,
    "poll_interval_seconds" := 14]

  lemma EachInPlace()
    ensures forall i | 0 <= i < |CLAMPS| :: CLAMPS[i].field in PLACE && PLACE[CLAMPS[i].field] == i
  {
  }

  lemma BoundsAreSettled()
    ensures forall i | 0 <= i < |CLAMPS| :: Settled(CLAMPS[i], CLAMPS[i].lo)
    ensures forall i | 0 <= i < |CLAMPS| && CLAMPS[i].hi.Some? :: Settled(CLAMPS[i], CLAMPS[i].hi.value)
  {
  }

  lemma ClampsAreGood()
    ensures GoodClamps(CLAMPS) && ChecksIgnore(CLAMPS)
  {
    EachInPlace();
    BoundsAreSettled();
  }

  predicate SectionSettled(clamps: seq<Clamp>, name: string, section: Root) {
    forall i | 0 <= i < |clamps| && clamps[i].section == name ::
      clamps[i].field in section && section[clamps[i].field].Num? && Settled(clamps[i], section[clamps[i].field].n)
  }

  lemma ClampedSettled()
    ensures SectionSettled(CLAMPS, "loop", LOOP_CLAMPED)
  {
  }

  lemma CiSettled()
    ensures SectionSettled(CLAMPS, "ci", CI)
  {
  }

  lemma VerifySettled()
    ensures SectionSettled(CLAMPS, "verify", VERIFY)
  {
  }

  lemma WrittenSectionsHold(slack: Root, loop: Root, ci: Root, verify: Root)
    ensures var d := WrittenSections(slack, loop, ci, verify);
      && d.Keys == {"slack", "loop", "ci", "verify"} && (forall s | s in d :: d[s].Obj?)
      && d["loop"] == Obj(loop) && d["ci"] == Obj(ci) && d["verify"] == Obj(verify) && d["slack"] == Obj(slack)
  {
  }

  lemma CheckedSectionsHold(budgets: Root, repos: Root, vercel: Root, pat: Root)
    ensures var d := CheckedSections(budgets, repos, vercel, pat);
      d.Keys == {"budgets", "repos", "vercel", "pat_routing"} && forall s | s in d :: d[s].Obj?
  {
  }

  lemma CarriedSectionsHold(models: Root, storage: Root, safety: Root, brief: Root, logging: Root, log: Root, credentials: Root)
    ensures var d := CarriedSections(models, storage, safety, brief, logging, log, credentials);
      && (forall s | s in d :: d[s].Obj?) && "slack" !in d && "loop" !in d
  {
  }

  lemma NothingRemovedFromSlack()
    ensures RemovedKeys("slack") !! SLACK.Keys
  {
  }

  lemma NothingRemovedFromLoopA()
    ensures RemovedKeys("loop") !! LOOP_A.Keys
  {
  }

  lemma NothingRemovedFromLoopB()
    ensures RemovedKeys("loop") !! LOOP_B.Keys
  {
  }

  lemma NothingRemovedFromLoopC()
    ensures RemovedKeys("loop") !! LOOP_C.Keys
  {
  }

  lemma NothingRemovedFromClamped()
    ensures RemovedKeys("loop") !! LOOP_CLAMPED.Keys
  {
  }

  lemma LoopParts(a: Root, b: Root, c: Root, clamped: Root)
    requires SectionSettled(CLAMPS, "loop", clamped)
    requires RemovedKeys("loop") !! a.Keys && RemovedKeys("loop") !! b.Keys
    requires RemovedKeys("loop") !! c.Keys && RemovedKeys("loop") !! clamped.Keys
    ensures SectionSettled(CLAMPS, "loop", a + b + c + clamped) && RemovedKeys("loop") !! (a + b + c + clamped).Keys
  {
    var clamps := CLAMPS;
    forall i | 0 <= i < |clamps| && clamps[i].section == "loop"
      ensures (a + b + c + clamped)[clamps[i].field] == clamped[clamps[i].field]
    {
    }
  }

  lemma LoopIsGood()
    ensures SectionSettled(CLAMPS, "loop", LOOP) && RemovedKeys("loop") !! LOOP.Keys
  {
    ClampedSettled();
    NothingRemovedFromLoopA();
    NothingRemovedFromLoopB();
    NothingRemovedFromLoopC();
    NothingRemovedFromClamped();
    LoopParts(LOOP_A, LOOP_B, LOOP_C, LOOP_CLAMPED);
  }

  lemma GoodFromSections(carried: Root, checked: Root, clamps: seq<Clamp>, slack: Root, loop: Root, ci: Root, verify: Root)
    requires ChecksIgnore(clamps)
    requires forall s | s in carried :: carried[s].Obj?
    requires checked.Keys == {"budgets", "repos", "vercel", "pat_routing"} && forall s | s in checked :: checked[s].Obj?
    requires RemovedKeys("slack") !! slack.Keys && RemovedKeys("loop") !! loop.Keys
    requires SectionSettled(clamps, "loop", loop) && SectionSettled(clamps, "ci", ci) && SectionSettled(clamps, "verify", verify)
    ensures var d := carried + checked + WrittenSections(slack, loop, ci, verify);
      GoodDefaults(d, clamps) && "slack" in d && "loop" in d && forall i | 0 <= i < |clamps| :: clamps[i].section in d
  {
    WrittenSectionsHold(slack, loop, ci, verify);
  }

  /** The shipped defaults are ones the drops and clamps leave alone. */
  lemma DefaultsAreGood()
    ensures GoodDefaults(DEFAULTS, CLAMPS) && "slack" in DEFAULTS && "loop" in DEFAULTS
    ensures forall i | 0 <= i < |CLAMPS| :: CLAMPS[i].section in DEFAULTS
  {
    var carried := CarriedSections(MODELS, STORAGE, SAFETY, BRIEF, LOGGING, LOG, CREDENTIALS);
    var checked := CheckedSections(BUDGETS, REPOS, VERCEL, PAT_ROUTING);
    CarriedSectionsHold(MODELS, STORAGE, SAFETY, BRIEF, LOGGING, LOG, CREDENTIALS);
    CheckedSectionsHold(BUDGETS, REPOS, VERCEL, PAT_ROUTING);
    NothingRemovedFromSlack();
    LoopIsGood();
    CiSettled();
    VerifySettled();
    ClampsAreGood();
    GoodFromSections(carried, checked, CLAMPS, SLACK, LOOP, CI, VERIFY);
  }

  /** Parsing with the shipped defaults: an accepted configuration parses to itself, in range and without removed keys. */
  lemma ShippedParseIsFixed(input: Json, patOk: Json -> bool)
    ensures match ParseWith(DEFAULTS, CLAMPS, input, patOk)
      case None => true
      case Some(root) =>
        && ParseWith(DEFAULTS, CLAMPS, Obj(root), patOk) == Some(root)
        && RootSettled(CLAMPS, root)
        && forall s | s in root && root[s].Obj? :: RemovedKeys(s) !! root[s].fields.Keys
  {
    DefaultsAreGood();
    ClampsAreGood();
    if ParseWith(DEFAULTS, CLAMPS, input, patOk).Some? {
      ParsedIsFixed(DEFAULTS, CLAMPS, input, patOk);
    }
  }

  lemma BudgetsHold()
    ensures BudgetsCohere(map["budgets" := Obj(BUDGETS)])
  {
  }

  lemma VercelHolds()
    ensures VercelCoheres(map["vercel" := Obj(VERCEL)])
  {
  }

  lemma ListsHold()
    ensures Get(Obj(SLACK), "authorised_users") == Arr([]) && Get(Obj(REPOS), "allowed") == Arr([])
  {
  }

  lemma CoherentSections(defaults: Root, budgets: Root, vercel: Root)
    requires "budgets" in defaults && defaults["budgets"] == Obj(budgets) && BudgetsCohere(map["budgets" := Obj(budgets)])
    requires "vercel" in defaults && defaults["vercel"] == Obj(vercel) && VercelCoheres(map["vercel" := Obj(vercel)])
    ensures BudgetsCohere(defaults) && VercelCoheres(defaults)
  {
    var b, v: Root := map["budgets" := Obj(budgets)], map["vercel" := Obj(vercel)];
    assert forall f :: Field(defaults, "budgets", f) == Field(b, "budgets", f);
    assert forall f :: Field(defaults, "vercel", f) == Field(v, "vercel", f);
  }

  lemma CheckedAre(budgets: Root, repos: Root, vercel: Root, pat: Root)
    ensures var d := CheckedSections(budgets, repos, vercel, pat);
      && d.Keys == {"budgets", "repos", "vercel", "pat_routing"}
      && d["budgets"] == Obj(budgets) && d["vercel"] == Obj(vercel) && d["repos"] == Obj(repos)
      && d["pat_routing"] == Obj(pat)
  {
  }

  lemma SumAt(carried: Root, checked: Root, written: Root, s: string)
    requires s in checked || s in written
    ensures s in carried + checked + written
    ensures (carried + checked + written)[s] == if s in written then written[s] else checked[s]
  {
  }

  lemma SectionsOf(carried: Root, budgets: Root, repos: Root, vercel: Root, pat: Root, slack: Root, written: Root)
    requires written.Keys == {"slack", "loop", "ci", "verify"} && written["slack"] == Obj(slack)
    ensures var d := carried + CheckedSections(budgets, repos, vercel, pat) + written;
      && {"budgets", "repos", "vercel", "pat_routing", "slack"} <= d.Keys
      && d["budgets"] == Obj(budgets) && d["vercel"] == Obj(vercel) && d["repos"] == Obj(repos)
      && d["pat_routing"] == Obj(pat) && d["slack"] == Obj(slack)
  {
    var checked := CheckedSections(budgets, repos, vercel, pat);
    CheckedAre(budgets, repos, vercel, pat);
    SumAt(carried, checked, written, "budgets");
    SumAt(carried, checked, written, "vercel");
    SumAt(carried, checked, written, "repos");
    SumAt(carried, checked, written, "pat_routing");
    SumAt(carried, checked, written, "slack");
  }

  lemma SectionsOfDefaults()
    ensures {"budgets", "repos", "vercel", "pat_routing", "slack"} <= DEFAULTS.Keys
    ensures DEFAULTS["budgets"] == Obj(BUDGETS) && DEFAULTS["vercel"] == Obj(VERCEL) && DEFAULTS["repos"] == Obj(REPOS)
    ensures DEFAULTS["pat_routing"] == Obj(PAT_ROUTING) && DEFAULTS["slack"] == Obj(SLACK)
  {
    WrittenSectionsHold(SLACK, LOOP, CI, VERIFY);
    SectionsOf(CarriedSections(MODELS, STORAGE, SAFETY, BRIEF, LOGGING, LOG, CREDENTIALS), BUDGETS, REPOS, VERCEL, PAT_ROUTING, SLACK,
               WrittenSections(SLACK, LOOP, CI, VERIFY));
  }

  lemma ListsStartEmpty()
    ensures Field(DEFAULTS, "slack", "authorised_users") == Arr([]) && Field(DEFAULTS, "repos", "allowed") == Arr([])
  {
    SectionsOfDefaults();
    ListsHold();
  }

  lemma DefaultsCohere()
    ensures BudgetsCohere(DEFAULTS) && VercelCoheres(DEFAULTS)
  {
    SectionsOfDefaults();
    BudgetsHold();
    VercelHolds();
    CoherentSections(DEFAULTS, BUDGETS, VERCEL);
  }

  /** Good defaults that cohere need only a user and a repository. */
  lemma AcceptedWith(defaults: Root, clamps: seq<Clamp>, user: string, repo: string, patOk: Json -> bool)
    requires ChecksIgnore(clamps) && GoodDefaults(defaults, clamps) && BudgetsCohere(defaults) && VercelCoheres(defaults)
    requires Field(defaults, "slack", "authorised_users") == Arr([]) && Field(defaults, "repos", "allowed") == Arr([])
    ensures ParseWith(defaults, clamps, Minimal(user, repo), patOk).Some? <==> patOk(defaults["pat_routing"])
  {
    MinimalAccepted(defaults, clamps, user, repo, patOk);
  }

  /** The shipped defaults with one user and one repository are accepted, if their token routing is. */
  lemma ShippedMinimalAccepted(user: string, repo: string, patOk: Json -> bool)
    ensures "pat_routing" in DEFAULTS && DEFAULTS["pat_routing"] == Obj(PAT_ROUTING)
    ensures ParseWith(DEFAULTS, CLAMPS, Minimal(user, repo), patOk).Some? <==> patOk(DEFAULTS["pat_routing"])
  {
    SectionsOfDefaults();
    ListsStartEmpty();
    DefaultsCohere();
    DefaultsAreGood();
    ClampsAreGood();
    AcceptedWith(DEFAULTS, CLAMPS, user, repo, patOk);
  }

  /** No input makes the parser change the shipped defaults. */
  lemma ShippedDefaultsSurvive(input: Json)
    ensures Afterwards(DEFAULTS, CLAMPS, input) == DEFAULTS
  {
    DefaultsAreGood();
    ClampsAreGood();
    DefaultsSurvive(DEFAULTS, CLAMPS, input);
  }

  /** Two parses with the shipped defaults: each result depends on its own input alone. */
  method ParseShippedTwice(defaults: Slots, first: Json, second: Json, patOk: Json -> bool)
      returns (a: Option<Slots>, b: Option<Slots>)
    requires AllHeld(defaults) && Apart(defaults) && Shows(defaults, DEFAULTS)
    modifies ObjectsOf(defaults)
    ensures Shows(defaults, DEFAULTS)
    ensures IsParsed(a, ParseWith(DEFAULTS, CLAMPS, first, patOk)) && IsParsed(b, ParseWith(DEFAULTS, CLAMPS, second, patOk))
  {
    DefaultsAreGood();
    ClampsAreGood();
    a, b := ParseTwice(defaults, CLAMPS, first, second, patOk, DEFAULTS);
  }
}
