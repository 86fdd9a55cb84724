/**
 * The permission document handed to OpenCode, merged over a repository's own block and read as the file documents:
 * an overwritten key keeps its place, a new key goes last, and the last rule that matches decides.
 */
module Permissions {
  import opened Prelude

  datatype Action = Ask | Allow | Deny

  datatype Rule = Rule(pattern: string, action: Action)

  /** An ordered record: no pattern occurs twice. */
  type Block = seq<Rule>

  predicate Unique(block: Block) {
    forall i, j | 0 <= i < j < |block| :: block[i].pattern != block[j].pattern
  }

  predicate Names(block: Block, pattern: string) { exists i | 0 <= i < |block| :: block[i].pattern == pattern }

  function IndexOf(block: Block, pattern: string): (i: int)
    ensures -1 <= i < |block|
    ensures i >= 0 ==> block[i].pattern == pattern
    ensures i < 0 <==> !Names(block, pattern)
  {
    if block == [] then -1
    else if block[|block| - 1].pattern == pattern then |block| - 1
    else IndexOf(block[..|block| - 1], pattern)
  }

  /** Assigning to a key of an ordered record. */
  function Put(block: Block, rule: Rule): Block {
    var i := IndexOf(block, rule.pattern);
    if i >= 0 then block[i := rule] else block + [rule]
  }

  /** Every rule of the source assigned in turn: the documented merge. */
  function Merge(target: Block, source: Block): Block {
    if source == [] then target else Put(Merge(target, source[..|source| - 1]), source[|source| - 1])
  }

  /** A key that is there keeps its place and takes the new action; a new key goes last. */
  lemma PutIs(block: Block, rule: Rule)
    requires Unique(block)
    ensures |Put(block, rule)| == |block| + if Names(block, rule.pattern) then 0 else 1
    ensures forall i | 0 <= i < |block| :: Put(block, rule)[i] == if block[i].pattern == rule.pattern then rule else block[i]
    ensures !Names(block, rule.pattern) ==> Put(block, rule)[|block|] == rule
  {
    var i := IndexOf(block, rule.pattern);
    assert i >= 0 ==> forall j | 0 <= j < |block| && block[j].pattern == rule.pattern :: j == i;
  }

  // ---- The document -----------------------------------------------------------------------

  const KEYS := [
    "bash", "edit", "read", "glob", "grep", "task", "todowrite", "webfetch", "websearch", "skill", "lsp", "question",
    "external_directory", "doom_loop", "plan_enter", "plan_exit", "write", "apply_patch", "mcp_*"]

  const TOOL_IDS := [
    "bash", "read", "glob", "grep", "edit", "write", "apply_patch", "task", "webfetch", "websearch", "todowrite", "skill",
    "question", "lsp", "execute", "plan_exit"]

  /** The patterns the document asks for, in the order it lists them. */
  function Injected(keys: seq<string>): seq<string> { ["*"] + keys }

  function AskFor(patterns: seq<string>): (block: Block)
    ensures |block| == |patterns| && forall i | 0 <= i < |block| :: block[i] == Rule(patterns[i], Ask)
  {
    seq(|patterns|, i requires 0 <= i < |patterns| => Rule(patterns[i], Ask))
  }

  predicate Distinct(patterns: seq<string>) {
    forall i, j | 0 <= i < j < |patterns| :: patterns[i] != patterns[j]
  }

  /** The catch-all first, then every key in order; a toolless role has every tool switched off as well. */
  method BuildConfig(keys: seq<string>, toolIds: seq<string>, toolless: bool)
      returns (permission: Block, tools: Option<map<string, bool>>)
    requires Distinct(Injected(keys))
    ensures permission == AskFor(Injected(keys)) && Unique(permission)
    ensures |permission| == 1 + |keys| && permission[0] == Rule("*", Ask)
    ensures forall i | 0 <= i < |keys| :: permission[i + 1] == Rule(keys[i], Ask)
    ensures tools.Some? <==> toolless
    ensures tools.Some? ==> tools.value == map t | t in toolIds :: false
  {
    permission := [Rule("*", Ask)];
    for i := 0 to |keys|
      invariant permission == AskFor(Injected(keys)[..i + 1])
    {
      assert Injected(keys)[i + 1] == keys[i];
      assert forall j | 0 <= j < i + 1 :: permission[j].pattern == Injected(keys)[j];
      permission := Put(permission, Rule(keys[i], Ask));
    }
    assert Injected(keys)[..|keys| + 1] == Injected(keys);
    tools := None;
    if toolless {
      var off: map<string, bool> := map[];
      for i := 0 to |toolIds|
        invariant off == map t | t in toolIds[..i] :: false
      {
        off := off[toolIds[i] := false];
      }
      assert toolIds[..|toolIds|] == toolIds;
      tools := Some(off);
    }
  }

  // ---- Evaluation -------------------------------------------------------------------------

  type Matcher = (string, string) -> bool

  /** The last rule that matches, or -1. */
  function LastMatch(block: Block, key: string, m: Matcher): (i: int)
    ensures -1 <= i < |block|
    ensures i >= 0 ==> m(block[i].pattern, key)
    ensures forall j | i < j < |block| :: !m(block[j].pattern, key)
  {
    if block == [] then -1
    else if m(block[|block| - 1].pattern, key) then |block| - 1
    else LastMatch(block[..|block| - 1], key, m)
  }

  function Evaluate(block: Block, key: string, m: Matcher): Option<Action> {
    var i := LastMatch(block, key, m);
    if i >= 0 then Some(block[i].action) else None
  }

  predicate Escapes(block: Block, key: string, m: Matcher) {
    var e := Evaluate(block, key, m);
    e.Some? && !e.value.Ask?
  }

  /** The pattern of the deciding rule. */
  function Decider(block: Block, key: string, m: Matcher): Option<string> {
    var i := LastMatch(block, key, m);
    if i >= 0 then Some(block[i].pattern) else None
  }

  lemma LastMatchIs(block: Block, key: string, m: Matcher, i: int)
    requires 0 <= i < |block| && m(block[i].pattern, key)
    requires forall j | i < j < |block| :: !m(block[j].pattern, key)
    ensures LastMatch(block, key, m) == i
  {
    var last := LastMatch(block, key, m);
    assert !(i < last) && !(last < i);
  }

  lemma PutNames(block: Block, rule: Rule)
    requires Unique(block)
    ensures Unique(Put(block, rule))
    ensures forall p :: Names(Put(block, rule), p) <==> Names(block, p) || p == rule.pattern
  {
    var i, after := IndexOf(block, rule.pattern), Put(block, rule);
    if i < 0 {
      assert after[|block|] == rule && forall j | 0 <= j < |block| :: after[j] == block[j];
    } else {
      assert forall j | 0 <= j < |block| :: after[j].pattern == block[j].pattern;
    }
  }

  /** Asking for one more pattern. */
  lemma PutAsk(block: Block, pattern: string, key: string, m: Matcher)
    requires Unique(block)
    ensures Escapes(Put(block, Rule(pattern, Ask)), key, m) <==>
            Escapes(block, key, m) && (m(pattern, key) ==> Names(block, pattern) && Decider(block, key, m) != Some(pattern))
    ensures Escapes(Put(block, Rule(pattern, Ask)), key, m) ==>
            Decider(Put(block, Rule(pattern, Ask)), key, m) == Decider(block, key, m)
  {
    var i, after, last := IndexOf(block, pattern), Put(block, Rule(pattern, Ask)), LastMatch(block, key, m);
    if i >= 0 {
      assert forall j | 0 <= j < |block| :: after[j].pattern == block[j].pattern;
      if last >= 0 { LastMatchIs(after, key, m, last); }
    } else {
      assert forall j | 0 <= j < |block| :: after[j] == block[j];
      if m(pattern, key) {
        LastMatchIs(after, key, m, |block|);
      } else if last >= 0 {
        LastMatchIs(after, key, m, last);
      }
    }
  }

  /**
   * For any repository block, any way of matching, and any patterns asked for: a key escapes exactly when the block
   * lets it, names every pattern that matches it, and decides it by a rule of its own.
   */
  lemma {:induction false} EscapesIff(repo: Block, patterns: seq<string>, key: string, m: Matcher)
    requires Unique(repo)
    ensures var merged := Merge(repo, AskFor(patterns));
      && Unique(merged)
      && (forall p :: Names(merged, p) <==> Names(repo, p) || p in patterns)
      && (Escapes(merged, key, m) ==> Decider(merged, key, m) == Decider(repo, key, m))
      && (Escapes(merged, key, m) <==>
          && Escapes(repo, key, m)
          && forall p | p in patterns && m(p, key) :: Names(repo, p) && Decider(repo, key, m) != Some(p))
    decreases |patterns|
  {
    if patterns != [] {
      var front, last := patterns[..|patterns| - 1], patterns[|patterns| - 1];
      assert AskFor(patterns)[..|patterns| - 1] == AskFor(front);
      EscapesIff(repo, front, key, m);
      PutNames(Merge(repo, AskFor(front)), Rule(last, Ask));
      PutAsk(Merge(repo, AskFor(front)), last, key, m);
      assert forall p :: p in patterns <==> p in front || p == last;
    }
  }

  // ---- OpenCode's wildcards ---------------------------------------------------------------

  /** `*` stands for any text. */
  predicate Glob(pattern: string, key: string)
    decreases |pattern| + |key|
  {
    if pattern == "" then key == ""
    else if pattern[0] == '*' then Glob(pattern[1..], key) || (key != "" && Glob(pattern, key[1..]))
    else key != "" && key[0] == pattern[0] && Glob(pattern[1..], key[1..])
  }

  const GLOB: Matcher := (pattern: string, key: string) => Glob(pattern, key)

  predicate Literal(pattern: string) { '*' !in pattern }

  lemma {:induction false} GlobLiteral(pattern: string, key: string)
    requires Literal(pattern)
    ensures Glob(pattern, key) <==> pattern == key
    decreases |pattern|
  {
    if pattern != "" && key != "" {
      GlobLiteral(pattern[1..], key[1..]);
      assert pattern == [pattern[0]] + pattern[1..] && key == [key[0]] + key[1..];
    }
  }

  lemma {:induction false} GlobPrefix(prefix: string, key: string)
    requires Literal(prefix)
    ensures Glob(prefix + "*", key) <==> prefix <= key
    decreases |prefix|, |key|
  {
    var pattern := prefix + "*";
    if prefix == "" {
      assert pattern == "*" && pattern[1..] == "";
      if key != "" { GlobPrefix(prefix, key[1..]); }
    } else if key != "" {
      assert pattern[1..] == prefix[1..] + "*";
      GlobPrefix(prefix[1..], key[1..]);
      assert prefix == [prefix[0]] + prefix[1..] && key == [key[0]] + key[1..];
    }
  }

  /** A repository block of literal keys, besides the two wildcards the document itself names. */
  predicate Plain(repo: Block) {
    Unique(repo) && forall i | 0 <= i < |repo| :: Literal(repo[i].pattern) || repo[i].pattern == "*" || repo[i].pattern == "mcp_*"
  }

  /** The patterns asked for: the catch-all, literal keys, and the MCP prefix. */
  predicate Proper(patterns: seq<string>) {
    && "*" in patterns && "mcp_*" in patterns
    && forall p | p in patterns :: Literal(p) || p == "*" || p == "mcp_*"
  }

  /** A rule of a plain block that none of the patterns asked for overwrites is the key's own. */
  lemma OwnRule(repo: Block, patterns: seq<string>, key: string)
    requires Plain(repo) && Proper(patterns)
    requires Decider(repo, key, GLOB).Some? && Decider(repo, key, GLOB).value !in patterns
    ensures Decider(repo, key, GLOB) == Some(key)
  {
    GlobLiteral(Decider(repo, key, GLOB).value, key);
  }

  /** Every key asked for asks, whatever plain block the repository has. */
  lemma ListedKeysAsk(repo: Block, patterns: seq<string>, key: string)
    requires Plain(repo) && Proper(patterns) && key in patterns
    ensures Evaluate(Merge(repo, AskFor(patterns)), key, GLOB) == Some(Ask)
  {
    var merged := Merge(repo, AskFor(patterns));
    EscapesIff(repo, patterns, key, GLOB);
    CatchAllMatches(merged, key);
    if Escapes(merged, key, GLOB) {
      var p := Decider(repo, key, GLOB).value;
      assert GLOB(p, key);
      if p !in patterns {
        OwnRule(repo, patterns, key);
        assert false;
      }
    }
  }

  lemma CatchAllMatches(block: Block, key: string)
    requires Names(block, "*")
    ensures Evaluate(block, key, GLOB).Some?
  {
    GlobPrefix("", key);
    assert "" + "*" == "*";
    assert GLOB("*", key);
    var i :| 0 <= i < |block| && block[i].pattern == "*";
    assert GLOB(block[i].pattern, key);
  }

  predicate Before(block: Block, p: string, i: int)
    requires i <= |block|
  {
    exists j | 0 <= j < i :: block[j].pattern == p
  }

  /** Of the patterns asked for, only the wildcards can match another key. */
  lemma WildcardsMatch(pattern: string, key: string)
    requires Literal(pattern) || pattern == "*" || pattern == "mcp_*"
    ensures GLOB(pattern, key) <==> pattern == "*" || (pattern == "mcp_*" && "mcp_" <= key) || (Literal(pattern) && pattern == key)
  {
    if Literal(pattern) {
      GlobLiteral(pattern, key);
    } else if pattern == "*" {
      GlobPrefix("", key);
      assert "" + "*" == "*";
    } else {
      GlobPrefix("mcp_", key);
      assert "mcp_" + "*" == "mcp_*";
    }
  }

  predicate LetsThrough(repo: Block, key: string, i: int)
    requires 0 <= i < |repo|
  {
    repo[i].pattern == key && !repo[i].action.Ask? && Before(repo, "*", i) && ("mcp_" <= key ==> Before(repo, "mcp_*", i))
  }

  lemma LetThroughDecides(repo: Block, patterns: seq<string>, key: string, i: int)
    requires Plain(repo) && Proper(patterns) && key !in patterns
    requires 0 <= i < |repo| && LetsThrough(repo, key, i)
    ensures LastMatch(repo, key, GLOB) == i
    ensures forall p | p in patterns && GLOB(p, key) :: Names(repo, p) && p != key
  {
    WildcardsMatch(key, key);
    forall j | i < j < |repo| ensures !GLOB(repo[j].pattern, key) {
      WildcardsMatch(repo[j].pattern, key);
    }
    LastMatchIs(repo, key, GLOB, i);
    forall p | p in patterns && GLOB(p, key) ensures Names(repo, p) {
      WildcardsMatch(p, key);
    }
  }

  lemma EscapeIsLetThrough(repo: Block, patterns: seq<string>, key: string)
    requires Plain(repo) && Proper(patterns) && key !in patterns
    requires Escapes(repo, key, GLOB)
    requires forall p | p in patterns && GLOB(p, key) :: Names(repo, p) && Decider(repo, key, GLOB) != Some(p)
    ensures LetsThrough(repo, key, LastMatch(repo, key, GLOB))
  {
    var i := LastMatch(repo, key, GLOB);
    assert GLOB(repo[i].pattern, key);
    OwnRule(repo, patterns, key);
    forall p | (p == "*" || p == "mcp_*") && GLOB(p, key) ensures Before(repo, p, i) {
      var j :| 0 <= j < |repo| && repo[j].pattern == p;
      assert GLOB(repo[j].pattern, key);
    }
    WildcardsMatch("*", key);
    WildcardsMatch("mcp_*", key);
  }

  /**
   * Any other key escapes exactly when the repository names it with something other than ask, after the catch-all and,
   * for an MCP key, after the MCP prefix.
   */
  lemma OtherKeyEscapesIff(repo: Block, patterns: seq<string>, key: string)
    requires Plain(repo) && Proper(patterns) && key !in patterns
    ensures Escapes(Merge(repo, AskFor(patterns)), key, GLOB) <==> exists i | 0 <= i < |repo| :: LetsThrough(repo, key, i)
  {
    EscapesIff(repo, patterns, key, GLOB);
    if Escapes(Merge(repo, AskFor(patterns)), key, GLOB) {
      EscapeIsLetThrough(repo, patterns, key);
    }
    forall i | 0 <= i < |repo| && LetsThrough(repo, key, i) ensures Escapes(Merge(repo, AskFor(patterns)), key, GLOB) {
      LetThroughDecides(repo, patterns, key, i);
    }
  }

  // ---- The shipped lists ------------------------------------------------------------------

  const PLACE: map<string, int> := map[
    "*" := 0, "bash" := 1, "edit" := 2, "read" := 3, "glob" := 4, "grep" := 5, "task" := 6, "todowrite" := 7, "webfetch" := 8,
    "websearch" := 9, "skill" := 10, "lsp" := 11, "question" := 12, "external_directory" := 13, "doom_loop" := 14,
    "plan_enter" := 15, "plan_exit" := 16, "write" := 17, "apply_patch" := 18, "mcp_*" := 19]

  lemma ShippedKeysInPlace()
    ensures forall i | 0 <= i < |Injected(KEYS)| :: Injected(KEYS)[i] in PLACE && PLACE[Injected(KEYS)[i]] == i
  {
  }

  lemma ShippedKeysLiteral()
    ensures forall i | 0 <= i < |KEYS| - 1 :: Literal(KEYS[i])
    ensures KEYS[|KEYS| - 1] == "mcp_*"
  {
  }

  /** The shipped keys meet what the results above ask of a list of patterns. */
  lemma ShippedKeysAreProper()
    ensures Distinct(Injected(KEYS)) && Proper(Injected(KEYS))
  {
    ShippedKeysInPlace();
    ShippedKeysLiteral();
    ProperList(KEYS);
  }

  lemma ProperList(keys: seq<string>)
    requires keys != [] && keys[|keys| - 1] == "mcp_*" && forall i | 0 <= i < |keys| - 1 :: Literal(keys[i])
    ensures Proper(Injected(keys))
  {
    assert Injected(keys)[0] == "*" && Injected(keys)[|keys|] == "mcp_*";
  }

  /** The document the harness ships. */
  method BuildShippedConfig(toolless: bool) returns (permission: Block, tools: Option<map<string, bool>>)
    ensures permission == AskFor(Injected(KEYS)) && Unique(permission)
    ensures tools == if toolless then Some(map t | t in TOOL_IDS :: false) else None
  {
    ShippedKeysAreProper();
    permission, tools := BuildConfig(KEYS, TOOL_IDS, toolless);
  }
}
