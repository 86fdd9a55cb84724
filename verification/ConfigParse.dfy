/**
 * Parsing the harness configuration: merge with the defaults, drop removed keys, validate, clamp.
 *
 * Sections the input leaves out are shared with the defaults, and the drops and clamps write to them in place.
 */
module ConfigParse {
  import opened Prelude
  import opened ConfigTree

  type Root = map<string, Json>

  const SECTIONS := {"slack", "budgets", "repos", "loop", "ci", "vercel", "verify", "pat_routing"}

  // ---- Removed keys and clamps ------------------------------------------------------------

  function RemovedKeys(section: string): set<string> {
    if section == "slack" then {"listener_enabled"}
    else if section == "loop" then {"subtask_concurrency", "parallel_independent_subtasks"}
    else {}
  }

  datatype Clamp = Clamp(section: string, field: string, lo: real, hi: Option<real>, rounded: bool)

  /** Math.round: halves go up. */
  function Round(x: real): real { (x + 0.5).Floor as real }

  predicate InRange(c: Clamp, n: real) { c.lo <= n && (c.hi.Some? ==> n <= c.hi.value) }

  function Clamped(c: Clamp, n: real): real {
    var v := if c.rounded then Round(n) else n;
    var capped := if c.hi.Some? && v > c.hi.value then c.hi.value else v;
    if capped < c.lo then c.lo else capped
  }

  /** The effect of a table of clamps on one field, in table order. */
  function ClampField(clamps: seq<Clamp>, section: string, field: string, v: Json): Json {
    if clamps == [] then v
    else
      var before := ClampField(clamps[..|clamps| - 1], section, field, v);
      var c := clamps[|clamps| - 1];
      if c.section == section && c.field == field && before.Num? then Num(Clamped(c, before.n)) else before
  }

  function ClampSection(clamps: seq<Clamp>, section: string, j: Json): Json {
    if j.Obj? then Obj(map f | f in j.fields :: ClampField(clamps, section, f, j.fields[f])) else j
  }

  function Strip(section: string, j: Json): Json {
    if j.Obj? then Obj(j.fields - RemovedKeys(section)) else j
  }

  function Stripped(root: Root): Root { map s | s in root :: Strip(s, root[s]) }

  function ClampedRoot(clamps: seq<Clamp>, root: Root): Root {
    map s | s in root :: ClampSection(clamps, s, root[s])
  }

  // ---- Validation -------------------------------------------------------------------------

  predicate Truthy(j: Json) {
    match j
    case Undefined => false
    case Null => false
    case Bool(b) => b
    case Num(n) => n != 0.0
    case Str(s) => s != ""
    case Arr(_) => true
    case Obj(_) => true
  }

  /** `a < b`, false unless both are numbers. */
  predicate Less(a: Json, b: Json) { a.Num? && b.Num? && a.n < b.n }

  predicate AtMost(a: Json, b: Json) { a.Num? && b.Num? && a.n <= b.n }

  /** Reading `.length` of it neither throws nor gives zero. */
  predicate HasLength(j: Json) {
    match j
    case Undefined => false
    case Null => false
    case Arr(items) => items != []
    case Str(s) => s != ""
    case Obj(fields) => Get(j, "length") != Num(0.0)
    case _ => true
  }

  function Field(root: Root, section: string, field: string): Json {
    if section in root then Get(root[section], field) else Undefined
  }

  predicate DeployRepairOk(dr: Json) {
    Truthy(dr) ==>
      && !Less(Get(dr, "max_attempts"), Num(1.0)) && !Less(Num(10.0), Get(dr, "max_attempts"))
      && !AtMost(Get(dr, "budget_ratio"), Num(0.0)) && !Less(Num(1.0), Get(dr, "budget_ratio"))
  }

  /** The checks made before the clamps. */
  predicate EarlyChecks(root: Root) {
    && HasLength(Field(root, "slack", "authorised_users"))
    && !Less(Field(root, "budgets", "session_hard_ceiling_usd"), Field(root, "budgets", "session_default_usd"))
    && !AtMost(Field(root, "budgets", "monthly_per_user_usd"), Num(0.0))
    && !Less(Field(root, "budgets", "daily_max_usd"), Field(root, "budgets", "daily_warn_usd"))
    && DeployRepairOk(Field(root, "vercel", "deploy_repair"))
    && HasLength(Field(root, "repos", "allowed"))
  }

  /** The checks made after them; `patOk` is the validation of the pat_routing tree. */
  predicate LateChecks(root: Root, patOk: Json -> bool) {
    && (Truthy(Field(root, "vercel", "enabled")) ==>
          Truthy(Field(root, "vercel", "credential_service")) && Truthy(Field(root, "vercel", "project_id")))
    && patOk(if "pat_routing" in root then root["pat_routing"] else Undefined)
  }

  /** The parser over given defaults and clamps. */
  function ParseWith(defaults: Root, clamps: seq<Clamp>, input: Json, patOk: Json -> bool): Option<Root> {
    var root := Stripped(Merge(Obj(defaults), input).fields);
    var final := ClampedRoot(clamps, root);
    if EarlyChecks(root) && LateChecks(final, patOk) then Some(final) else None
  }

  // ---- What the tables must satisfy -------------------------------------------------------

  /** A value its clamp keeps. */
  predicate Settled(c: Clamp, n: real) { InRange(c, n) && (c.rounded ==> Round(n) == n) }

  /** Bounds in order and whole where the value is rounded, and no field clamped twice. */
  predicate GoodClamps(clamps: seq<Clamp>) {
    && (forall i | 0 <= i < |clamps| :: Settled(clamps[i], clamps[i].lo))
    && (forall i | 0 <= i < |clamps| && clamps[i].hi.Some? :: Settled(clamps[i], clamps[i].hi.value))
    && (forall i, j | 0 <= i < j < |clamps| :: clamps[i].section != clamps[j].section || clamps[i].field != clamps[j].field)
  }

  /** Every default section is an object that the drops and clamps would leave as it is. */
  predicate GoodDefaults(defaults: Root, clamps: seq<Clamp>) {
    && SECTIONS <= defaults.Keys
    && (forall s | s in defaults :: defaults[s].Obj? && RemovedKeys(s) !! defaults[s].fields.Keys)
    && (forall i | 0 <= i < |clamps| :: SettledIn(clamps[i], defaults))
  }

  predicate SettledIn(c: Clamp, root: Root) {
    var v := Field(root, c.section, c.field);
    v.Num? ==> Settled(c, v.n)
  }

  lemma ClampSettles(c: Clamp, n: real)
    requires Settled(c, c.lo) && (c.hi.Some? ==> Settled(c, c.hi.value))
    ensures Settled(c, Clamped(c, n)) && (Settled(c, n) ==> Clamped(c, n) == n)
  {
    RoundTwice(n);
  }

  lemma RoundTwice(n: real)
    ensures Round(Round(n)) == Round(n)
  {
    var v := (n + 0.5).Floor;
    assert (v as real + 0.5).Floor == v;
  }

  predicate FieldSettled(clamps: seq<Clamp>, section: string, field: string, n: real) {
    forall i | 0 <= i < |clamps| && clamps[i].section == section && clamps[i].field == field :: Settled(clamps[i], n)
  }

  /** Clamping leaves a field settled, and leaves a settled field alone. */
  lemma {:induction false} ClampFieldSettles(clamps: seq<Clamp>, section: string, field: string, v: Json)
    requires GoodClamps(clamps)
    ensures var r := ClampField(clamps, section, field, v);
      && (r.Num? <==> v.Num?) && (!v.Num? ==> r == v)
      && (v.Num? ==> FieldSettled(clamps, section, field, r.n))
    ensures v.Num? && FieldSettled(clamps, section, field, v.n) ==> ClampField(clamps, section, field, v) == v
  {
    if clamps != [] {
      var front, c := clamps[..|clamps| - 1], clamps[|clamps| - 1];
      ClampFieldSettles(front, section, field, v);
      if v.Num? { ClampSettles(c, ClampField(front, section, field, v).n); }
    }
  }

  predicate RootSettled(clamps: seq<Clamp>, root: Root) {
    forall i | 0 <= i < |clamps| :: SettledIn(clamps[i], root)
  }

  /** After clamping every clamped number is in its range; before it, a settled root is left as it is. */
  lemma ClampedRootSettles(clamps: seq<Clamp>, root: Root)
    requires GoodClamps(clamps)
    ensures RootSettled(clamps, ClampedRoot(clamps, root))
    ensures RootSettled(clamps, root) ==> ClampedRoot(clamps, root) == root
  {
    forall i | 0 <= i < |clamps| ensures SettledIn(clamps[i], ClampedRoot(clamps, root)) {
      var c := clamps[i];
      ClampFieldSettles(clamps, c.section, c.field, Field(root, c.section, c.field));
    }
    if RootSettled(clamps, root) {
      forall s | s in root ensures ClampSection(clamps, s, root[s]) == root[s] {
        SettledSectionKept(clamps, root, s);
      }
    }
  }

  lemma SettledSectionKept(clamps: seq<Clamp>, root: Root, s: string)
    requires GoodClamps(clamps) && RootSettled(clamps, root) && s in root
    ensures ClampSection(clamps, s, root[s]) == root[s]
  {
    if root[s].Obj? {
      forall f | f in root[s].fields ensures ClampField(clamps, s, f, root[s].fields[f]) == root[s].fields[f] {
        ClampFieldSettles(clamps, s, f, root[s].fields[f]);
        assert forall i | 0 <= i < |clamps| && clamps[i].section == s && clamps[i].field == f :: SettledIn(clamps[i], root);
      }
      assert ClampSection(clamps, s, root[s]).fields == root[s].fields;
    }
  }

  // ---- A parsed configuration parses to itself --------------------------------------------

  /** Merging the root back into the defaults changes nothing. */
  predicate Absorbed(defaults: Root, root: Root) {
    Merge(Obj(defaults), Obj(root)) == Obj(root)
  }

  lemma MergedIsAbsorbed(defaults: Root, input: Json)
    ensures Merge(Obj(defaults), input).Obj? && Absorbed(defaults, Merge(Obj(defaults), input).fields)
  {
    MergeAbsorbs(Obj(defaults), input);
  }

  predicate AbsorbedField(base: Json, k: string, v: Json)
    requires base.Obj?
  {
    MergeField(base, k, v) == v
  }

  lemma AbsorbedFields(base: Json, j: Json)
    requires base.Obj? && j.Obj?
    ensures Merge(base, j) == j <==>
            base.fields.Keys <= j.fields.Keys && forall f | f in j.fields :: AbsorbedField(base, f, j.fields[f])
  {
    var m := Merge(base, j).fields;
    assert m.Keys == base.fields.Keys + j.fields.Keys;
    assert forall f | f in j.fields :: m[f] == MergeField(base, f, j.fields[f]);
    if base.fields.Keys <= j.fields.Keys && forall f | f in j.fields :: AbsorbedField(base, f, j.fields[f]) {
      assert m == j.fields;
    }
  }

  /** Dropping keys the base lacks and replacing numbers by numbers keeps a section absorbed. */
  lemma SectionStaysAbsorbed(base: Json, j: Json, j': Json)
    requires base.Obj? && j.Obj? && j'.Obj? && Merge(base, j) == j
    requires j'.fields.Keys <= j.fields.Keys && base.fields.Keys <= j'.fields.Keys
    requires forall f | f in j'.fields :: j'.fields[f] == j.fields[f] || (j'.fields[f].Num? && j.fields[f].Num?)
    ensures Merge(base, j') == j'
  {
    AbsorbedFields(base, j);
    AbsorbedFields(base, j');
    forall f | f in j'.fields ensures AbsorbedField(base, f, j'.fields[f]) {
      assert AbsorbedField(base, f, j.fields[f]);
    }
  }

  lemma RootStaysAbsorbed(defaults: Root, root: Root, root': Root)
    requires Absorbed(defaults, root) && root'.Keys == root.Keys
    requires forall s | s in root :: root'[s] == root[s] || (s in defaults && defaults[s].Obj? && root[s].Obj? && root'[s].Obj?
                                                           && Merge(defaults[s], root'[s]) == root'[s])
                                  || (s !in defaults && !root'[s].Nullish() && !root[s].Nullish())
    ensures Absorbed(defaults, root')
  {
    var base := Obj(defaults);
    forall s | s in root' ensures MergeField(base, s, root'[s]) == root'[s] {
      assert root[s] == Merge(base, Obj(root)).fields[s] == MergeField(base, s, root[s]);
    }
    assert defaults.Keys <= root'.Keys by {
      assert Merge(base, Obj(root)).fields.Keys == defaults.Keys + root.Keys;
    }
    assert Merge(base, Obj(root')).fields == root';
  }

  /** Dropping and clamping one absorbed section leaves it absorbed. */
  lemma SettledSectionAbsorbed(base: Json, clamps: seq<Clamp>, s: string, j: Json)
    requires GoodClamps(clamps) && base.Obj? && j.Obj? && Merge(base, j) == j && RemovedKeys(s) !! base.fields.Keys
    ensures Merge(base, ClampSection(clamps, s, Strip(s, j))) == ClampSection(clamps, s, Strip(s, j))
  {
    var stripped, j' := Strip(s, j), ClampSection(clamps, s, Strip(s, j));
    forall f | f in j'.fields ensures j'.fields[f] == j.fields[f] || (j'.fields[f].Num? && j.fields[f].Num?) {
      ClampFieldSettles(clamps, s, f, stripped.fields[f]);
    }
    AbsorbedFields(base, j);
    SectionStaysAbsorbed(base, j, j');
  }

  lemma AbsorbedRootSection(defaults: Root, root: Root, s: string)
    requires Absorbed(defaults, root) && s in defaults && s in root && defaults[s].Obj? && root[s].Obj?
    ensures Merge(defaults[s], root[s]) == root[s]
  {
    assert MergeField(Obj(defaults), s, root[s]) == Merge(Obj(defaults), Obj(root)).fields[s] == root[s];
  }

  lemma SettledRootAbsorbed(defaults: Root, clamps: seq<Clamp>, root: Root)
    requires GoodClamps(clamps) && Absorbed(defaults, root)
    requires forall s | s in defaults :: defaults[s].Obj? && RemovedKeys(s) !! defaults[s].fields.Keys
    ensures Absorbed(defaults, ClampedRoot(clamps, Stripped(root)))
  {
    var root' := ClampedRoot(clamps, Stripped(root));
    forall s | s in root && root[s].Obj? && s in defaults ensures Merge(defaults[s], root'[s]) == root'[s] {
      AbsorbedRootSection(defaults, root, s);
      SettledSectionAbsorbed(defaults[s], clamps, s, root[s]);
    }
    RootStaysAbsorbed(defaults, root, root');
  }

  lemma ParsedIsAbsorbed(defaults: Root, clamps: seq<Clamp>, input: Json)
    requires GoodDefaults(defaults, clamps) && GoodClamps(clamps)
    ensures Absorbed(defaults, ClampedRoot(clamps, Stripped(Merge(Obj(defaults), input).fields)))
  {
    MergedIsAbsorbed(defaults, input);
    SettledRootAbsorbed(defaults, clamps, Merge(Obj(defaults), input).fields);
  }

  /** Drops and clamps touch no field the checks read. */
  predicate ChecksIgnore(clamps: seq<Clamp>) {
    forall i | 0 <= i < |clamps| :: clamps[i].section in {"loop", "verify", "ci"}
  }

  lemma ClampSectionOutside(clamps: seq<Clamp>, section: string, j: Json)
    requires forall i | 0 <= i < |clamps| :: clamps[i].section != section
    ensures ClampSection(clamps, section, j) == j
  {
    if j.Obj? {
      forall f | f in j.fields ensures ClampField(clamps, section, f, j.fields[f]) == j.fields[f] {
        ClampFieldOutside(clamps, section, f, j.fields[f]);
      }
      assert ClampSection(clamps, section, j).fields == j.fields;
    }
  }

  lemma {:induction false} ClampFieldOutside(clamps: seq<Clamp>, section: string, field: string, v: Json)
    requires forall i | 0 <= i < |clamps| :: clamps[i].section != section
    ensures ClampField(clamps, section, field, v) == v
  {
    if clamps != [] {
      ClampFieldOutside(clamps[..|clamps| - 1], section, field, v);
    }
  }

  lemma ClampedStaysStripped(clamps: seq<Clamp>, root: Root)
    ensures Stripped(ClampedRoot(clamps, Stripped(root))) == ClampedRoot(clamps, Stripped(root))
  {
    var r := ClampedRoot(clamps, Stripped(root));
    forall s | s in root ensures Strip(s, r[s]) == r[s] {
      if r[s].Obj? {
        assert r[s].fields - RemovedKeys(s) == r[s].fields;
      }
    }
  }

  /** The early checks give the same answer before and after the clamps. */
  lemma ClampedStaysAccepted(clamps: seq<Clamp>, root: Root)
    requires ChecksIgnore(clamps)
    ensures EarlyChecks(ClampedRoot(clamps, root)) <==> EarlyChecks(root)
  {
    forall s | s in {"slack", "budgets", "vercel", "repos"} && s in root
      ensures ClampedRoot(clamps, root)[s] == root[s]
    {
      ClampSectionOutside(clamps, s, root[s]);
    }
  }

  /**
   * An accepted configuration parses to itself, every clamped number in it is in range, and no removed key is
   * left.
   */
  lemma ParsedIsFixed(defaults: Root, clamps: seq<Clamp>, input: Json, patOk: Json -> bool)
    requires GoodDefaults(defaults, clamps) && GoodClamps(clamps) && ChecksIgnore(clamps)
    requires ParseWith(defaults, clamps, input, patOk).Some?
    ensures var root := ParseWith(defaults, clamps, input, patOk).value;
      && ParseWith(defaults, clamps, Obj(root), patOk) == Some(root)
      && RootSettled(clamps, root)
      && forall s | s in root && root[s].Obj? :: RemovedKeys(s) !! root[s].fields.Keys
  {
    var merged := Stripped(Merge(Obj(defaults), input).fields);
    var root := ClampedRoot(clamps, merged);
    ClampedRootSettles(clamps, merged);
    ParsedIsAbsorbed(defaults, clamps, input);
    ClampedStaysStripped(clamps, Merge(Obj(defaults), input).fields);
    ClampedStaysAccepted(clamps, merged);
    ClampedRootSettles(clamps, root);
  }

  // ---- What a parsed field is -------------------------------------------------------------

  /** A field with a clamp gets that clamp and no other. */
  lemma {:induction false} ClampedOnce(clamps: seq<Clamp>, i: nat, n: real)
    requires GoodClamps(clamps) && i < |clamps|
    ensures ClampField(clamps, clamps[i].section, clamps[i].field, Num(n)) == Num(Clamped(clamps[i], n))
  {
    var front, c := clamps[..|clamps| - 1], clamps[i];
    if i < |front| {
      ClampedOnce(front, i, n);
    } else {
      ClampFieldUnlisted(front, c.section, c.field, Num(n));
    }
  }

  lemma {:induction false} ClampFieldUnlisted(clamps: seq<Clamp>, section: string, field: string, v: Json)
    requires forall i | 0 <= i < |clamps| :: clamps[i].section != section || clamps[i].field != field
    ensures ClampField(clamps, section, field, v) == v
  {
    if clamps != [] {
      ClampFieldUnlisted(clamps[..|clamps| - 1], section, field, v);
    }
  }

  /**
   * A field of a section that has defaults: gone if the input replaces the section by something that is no object, or
   * if the field was removed; otherwise the input's value where there is one, else the default, merged if both are
   * objects, and clamped.
   */
  lemma ParsedField(defaults: Root, clamps: seq<Clamp>, input: Json, patOk: Json -> bool, s: string, f: string)
    requires ParseWith(defaults, clamps, input, patOk).Some?
    requires s in defaults && defaults[s].Obj?
    ensures var given, default, parsed := Get(Get(input, s), f), Get(defaults[s], f),
                                          Field(ParseWith(defaults, clamps, input, patOk).value, s, f);
      parsed == if Replaces(input, s) || f in RemovedKeys(s) then Undefined
                else if given.Obj? && default.Obj? then ClampField(clamps, s, f, Merge(default, given))
                else ClampField(clamps, s, f, Coalesce(given, default))
  {
    MergedSection(defaults, input, s);
    var root := Merge(Obj(defaults), input).fields;
    SettledField(clamps, root, s, f);
    ClampUndefined(clamps, s, f);
    if !Replaces(input, s) {
      MergedField(defaults[s], Get(input, s), f);
    }
  }

  /** The input gives the section as something that is neither an object nor null. */
  predicate Replaces(input: Json, s: string) { !Get(input, s).Nullish() && !Get(input, s).Obj? }

  lemma MergedSection(defaults: Root, input: Json, s: string)
    requires s in defaults && defaults[s].Obj?
    ensures s in Merge(Obj(defaults), input).fields
    ensures Merge(Obj(defaults), input).fields[s] == if Replaces(input, s) then Get(input, s) else Merge(defaults[s], Get(input, s))
  {
    if input.Obj? && s in input.fields {
      assert Merge(Obj(defaults), input).fields[s] == MergeField(Obj(defaults), s, input.fields[s]);
    }
  }

  lemma SettledField(clamps: seq<Clamp>, root: Root, s: string, f: string)
    ensures Field(ClampedRoot(clamps, Stripped(root)), s, f) ==
            if f in RemovedKeys(s) then Undefined else ClampField(clamps, s, f, Field(root, s, f))
  {
    ClampUndefined(clamps, s, f);
  }

  lemma MergedField(base: Json, over: Json, f: string)
    requires base.Obj? && (over.Obj? || over.Nullish())
    ensures Get(Merge(base, over), f) ==
            if Get(over, f).Obj? && Get(base, f).Obj? then Merge(Get(base, f), Get(over, f)) else Coalesce(Get(over, f), Get(base, f))
  {
    if over.Obj? && f in over.fields {
      assert Merge(base, over).fields[f] == MergeField(base, f, over.fields[f]);
    }
  }

  lemma {:induction false} ClampUndefined(clamps: seq<Clamp>, section: string, field: string)
    ensures ClampField(clamps, section, field, Undefined) == Undefined
  {
    if clamps != [] {
      ClampUndefined(clamps[..|clamps| - 1], section, field);
    }
  }

  // ---- What is accepted -------------------------------------------------------------------

  /** The settings the checks read have the types the configuration schema gives them. */
  predicate WellTyped(root: Root) {
    && Field(root, "slack", "authorised_users").Arr? && Field(root, "repos", "allowed").Arr?
    && Field(root, "budgets", "session_default_usd").Num? && Field(root, "budgets", "session_hard_ceiling_usd").Num?
    && Field(root, "budgets", "monthly_per_user_usd").Num?
    && Field(root, "budgets", "daily_warn_usd").Num? && Field(root, "budgets", "daily_max_usd").Num?
    && Field(root, "vercel", "enabled").Bool?
    && Field(root, "vercel", "credential_service").Str? && Field(root, "vercel", "project_id").Str?
    && WellTypedRepair(Field(root, "vercel", "deploy_repair"))
  }

  predicate WellTypedRepair(repair: Json) {
    repair.Nullish() || (repair.Obj? && Get(repair, "max_attempts").Num? && Get(repair, "budget_ratio").Num?)
  }

  /** The rules an operator is told, on settings of the right types. */
  predicate Coherent(root: Root)
    requires WellTyped(root)
  {
    var repair := Field(root, "vercel", "deploy_repair");
    && Field(root, "slack", "authorised_users").items != [] && Field(root, "repos", "allowed").items != []
    && Field(root, "budgets", "session_default_usd").n <= Field(root, "budgets", "session_hard_ceiling_usd").n
    && Field(root, "budgets", "monthly_per_user_usd").n > 0.0
    && Field(root, "budgets", "daily_warn_usd").n <= Field(root, "budgets", "daily_max_usd").n
    && (repair.Obj? ==> 1.0 <= Get(repair, "max_attempts").n <= 10.0 && 0.0 < Get(repair, "budget_ratio").n <= 1.0)
    && (Field(root, "vercel", "enabled").b ==>
          Field(root, "vercel", "credential_service").s != "" && Field(root, "vercel", "project_id").s != "")
  }

  lemma StrippedField(root: Root, s: string, f: string)
    ensures Field(Stripped(root), s, f) == if f in RemovedKeys(s) then Undefined else Field(root, s, f)
  {
  }

  /** The checks read what was merged: no removed key and no clamp is among the settings they look at. */
  lemma CheckedFieldsKept(clamps: seq<Clamp>, root: Root, s: string, f: string)
    requires ChecksIgnore(clamps) && s in {"slack", "budgets", "repos", "vercel"} && f != "listener_enabled"
    ensures Field(Stripped(root), s, f) == Field(root, s, f)
    ensures Field(ClampedRoot(clamps, Stripped(root)), s, f) == Field(root, s, f)
  {
    StrippedField(root, s, f);
    if s in root { ClampSectionOutside(clamps, s, Strip(s, root[s])); }
  }

  lemma RoutingKept(clamps: seq<Clamp>, root: Root)
    requires ChecksIgnore(clamps) && "pat_routing" in root
    ensures ClampedRoot(clamps, Stripped(root))["pat_routing"] == root["pat_routing"]
  {
    var routing := root["pat_routing"];
    assert RemovedKeys("pat_routing") == {};
    assert routing.Obj? ==> routing.fields - {} == routing.fields;
    ClampSectionOutside(clamps, "pat_routing", Strip("pat_routing", routing));
  }

  lemma EarlyIff(clamps: seq<Clamp>, root: Root)
    requires ChecksIgnore(clamps) && WellTyped(root)
    ensures EarlyChecks(Stripped(root)) <==>
      var repair := Field(root, "vercel", "deploy_repair");
      && Field(root, "slack", "authorised_users").items != [] && Field(root, "repos", "allowed").items != []
      && Field(root, "budgets", "session_default_usd").n <= Field(root, "budgets", "session_hard_ceiling_usd").n
      && Field(root, "budgets", "monthly_per_user_usd").n > 0.0
      && Field(root, "budgets", "daily_warn_usd").n <= Field(root, "budgets", "daily_max_usd").n
      && (repair.Obj? ==> 1.0 <= Get(repair, "max_attempts").n <= 10.0 && 0.0 < Get(repair, "budget_ratio").n <= 1.0)
  {
    CheckedFieldsKept(clamps, root, "slack", "authorised_users");
    CheckedFieldsKept(clamps, root, "repos", "allowed");
    CheckedFieldsKept(clamps, root, "budgets", "session_default_usd");
    CheckedFieldsKept(clamps, root, "budgets", "session_hard_ceiling_usd");
    CheckedFieldsKept(clamps, root, "budgets", "monthly_per_user_usd");
    CheckedFieldsKept(clamps, root, "budgets", "daily_warn_usd");
    CheckedFieldsKept(clamps, root, "budgets", "daily_max_usd");
    CheckedFieldsKept(clamps, root, "vercel", "deploy_repair");
  }

  lemma LateIff(clamps: seq<Clamp>, root: Root, patOk: Json -> bool)
    requires ChecksIgnore(clamps) && WellTyped(root) && "pat_routing" in root
    ensures LateChecks(ClampedRoot(clamps, Stripped(root)), patOk) <==>
      && (Field(root, "vercel", "enabled").b ==>
            Field(root, "vercel", "credential_service").s != "" && Field(root, "vercel", "project_id").s != "")
      && patOk(root["pat_routing"])
  {
    CheckedFieldsKept(clamps, root, "vercel", "enabled");
    CheckedFieldsKept(clamps, root, "vercel", "credential_service");
    CheckedFieldsKept(clamps, root, "vercel", "project_id");
    RoutingKept(clamps, root);
  }

  /** A configuration of the right types is accepted exactly when it is coherent and its token routing is valid. */
  lemma AcceptedIff(defaults: Root, clamps: seq<Clamp>, input: Json, patOk: Json -> bool)
    requires ChecksIgnore(clamps) && "pat_routing" in defaults
    requires WellTyped(Merge(Obj(defaults), input).fields)
    ensures "pat_routing" in Merge(Obj(defaults), input).fields
    ensures ParseWith(defaults, clamps, input, patOk).Some? <==>
            Coherent(Merge(Obj(defaults), input).fields) && patOk(Merge(Obj(defaults), input).fields["pat_routing"])
  {
    var root := Merge(Obj(defaults), input).fields;
    EarlyIff(clamps, root);
    LateIff(clamps, root, patOk);
  }

  /** The least an operator writes: one user and one repository. */
  function Minimal(user: string, repo: string): Json {
    Obj(map["slack" := Obj(map["authorised_users" := Arr([Str(user)])]), "repos" := Obj(map["allowed" := Arr([Str(repo)])])])
  }

  lemma MinimalMerged(defaults: Root, user: string, repo: string, s: string, f: string)
    requires s in defaults && defaults[s].Obj?
    requires s in {"slack", "repos"} ==> f in defaults[s].fields && !defaults[s].fields[f].Obj?
    ensures Field(Merge(Obj(defaults), Minimal(user, repo)).fields, s, f) ==
      if s == "slack" && f == "authorised_users" then Arr([Str(user)])
      else if s == "repos" && f == "allowed" then Arr([Str(repo)])
      else Field(defaults, s, f)
  {
    MergedSection(defaults, Minimal(user, repo), s);
    MergedField(defaults[s], Get(Minimal(user, repo), s), f);
  }

  lemma MinimalRouting(defaults: Root, user: string, repo: string)
    requires "pat_routing" in defaults && defaults["pat_routing"].Obj?
    ensures var merged := Merge(Obj(defaults), Minimal(user, repo)).fields;
      "pat_routing" in merged && merged["pat_routing"] == defaults["pat_routing"]
  {
    MergedSection(defaults, Minimal(user, repo), "pat_routing");
    assert Get(Minimal(user, repo), "pat_routing") == Undefined;
  }

  /** Budgets and Vercel settings that cohere by themselves. */
  predicate BudgetsCohere(root: Root) {
    var ceiling, daily := Field(root, "budgets", "session_hard_ceiling_usd"), Field(root, "budgets", "daily_max_usd");
    var session, warn := Field(root, "budgets", "session_default_usd"), Field(root, "budgets", "daily_warn_usd");
    var monthly := Field(root, "budgets", "monthly_per_user_usd");
    && ceiling.Num? && daily.Num? && session.Num? && warn.Num? && monthly.Num?
    && session.n <= ceiling.n && warn.n <= daily.n && monthly.n > 0.0
  }

  predicate VercelCoheres(root: Root) {
    var repair := Field(root, "vercel", "deploy_repair");
    && Field(root, "vercel", "enabled") == Bool(false)
    && Field(root, "vercel", "credential_service").Str? && Field(root, "vercel", "project_id").Str?
    && repair.Obj? && WellTypedRepair(repair)
    && 1.0 <= Get(repair, "max_attempts").n <= 10.0 && 0.0 < Get(repair, "budget_ratio").n <= 1.0
  }

  lemma MinimalBudgets(defaults: Root, user: string, repo: string)
    requires "budgets" in defaults && defaults["budgets"].Obj? && BudgetsCohere(defaults)
    ensures BudgetsCohere(Merge(Obj(defaults), Minimal(user, repo)).fields)
  {
    MinimalMerged(defaults, user, repo, "budgets", "session_default_usd");
    MinimalMerged(defaults, user, repo, "budgets", "session_hard_ceiling_usd");
    MinimalMerged(defaults, user, repo, "budgets", "monthly_per_user_usd");
    MinimalMerged(defaults, user, repo, "budgets", "daily_warn_usd");
    MinimalMerged(defaults, user, repo, "budgets", "daily_max_usd");
  }

  lemma MinimalVercel(defaults: Root, user: string, repo: string)
    requires "vercel" in defaults && defaults["vercel"].Obj? && VercelCoheres(defaults)
    ensures VercelCoheres(Merge(Obj(defaults), Minimal(user, repo)).fields)
  {
    MinimalMerged(defaults, user, repo, "vercel", "enabled");
    MinimalMerged(defaults, user, repo, "vercel", "credential_service");
    MinimalMerged(defaults, user, repo, "vercel", "project_id");
    MinimalMerged(defaults, user, repo, "vercel", "deploy_repair");
  }

  lemma CoherentFrom(root: Root, user: string, repo: string)
    requires BudgetsCohere(root) && VercelCoheres(root)
    requires Field(root, "slack", "authorised_users") == Arr([Str(user)]) && Field(root, "repos", "allowed") == Arr([Str(repo)])
    ensures WellTyped(root) && Coherent(root)
  {
  }

  /** Defaults whose own settings cohere need only a user and a repository. */
  lemma MinimalAccepted(defaults: Root, clamps: seq<Clamp>, user: string, repo: string, patOk: Json -> bool)
    requires ChecksIgnore(clamps) && SECTIONS <= defaults.Keys && forall s | s in defaults :: defaults[s].Obj?
    requires BudgetsCohere(defaults) && VercelCoheres(defaults)
    requires Field(defaults, "slack", "authorised_users") == Arr([]) && Field(defaults, "repos", "allowed") == Arr([])
    ensures ParseWith(defaults, clamps, Minimal(user, repo), patOk).Some? <==> patOk(defaults["pat_routing"])
  {
    var root := Merge(Obj(defaults), Minimal(user, repo)).fields;
    MinimalMerged(defaults, user, repo, "slack", "authorised_users");
    MinimalMerged(defaults, user, repo, "repos", "allowed");
    MinimalBudgets(defaults, user, repo);
    MinimalVercel(defaults, user, repo);
    MinimalRouting(defaults, user, repo);
    CoherentFrom(root, user, repo);
    AcceptedIff(defaults, clamps, Minimal(user, repo), patOk);
  }

  // ---- What a clamp does ------------------------------------------------------------------

  /** Too low gives the floor, too high the ceiling, and in between the value itself, rounded where that is asked. */
  lemma ClampedIs(c: Clamp, n: real)
    requires c.hi.Some? ==> c.lo <= c.hi.value
    ensures !c.rounded && n < c.lo ==> Clamped(c, n) == c.lo
    ensures !c.rounded && c.hi.Some? && c.hi.value < n ==> Clamped(c, n) == c.hi.value
    ensures !c.rounded && c.lo <= n && (c.hi.Some? ==> n <= c.hi.value) ==> Clamped(c, n) == n
    ensures c.rounded ==> Clamped(c, n) == Clamped(c.(rounded := false), Round(n))
  {
  }

  /** Rounding gives the whole number at most a half below and less than a half above. */
  lemma RoundIs(n: real)
    ensures Round(n) == Round(n).Floor as real && n - 0.5 < Round(n) <= n + 0.5
  {
  }

  /** No accepted configuration holds a key that was removed. */
  lemma RemovedAreGone(defaults: Root, clamps: seq<Clamp>, input: Json, patOk: Json -> bool)
    requires ParseWith(defaults, clamps, input, patOk).Some?
    ensures var root := ParseWith(defaults, clamps, input, patOk).value;
      && Field(root, "slack", "listener_enabled") == Undefined
      && Field(root, "loop", "subtask_concurrency") == Undefined
      && Field(root, "loop", "parallel_independent_subtasks") == Undefined
  {
    var root := Merge(Obj(defaults), input).fields;
    SettledField(clamps, root, "slack", "listener_enabled");
    SettledField(clamps, root, "loop", "subtask_concurrency");
    SettledField(clamps, root, "loop", "parallel_independent_subtasks");
    ClampUndefined(clamps, "slack", "listener_enabled");
    ClampUndefined(clamps, "loop", "subtask_concurrency");
    ClampUndefined(clamps, "loop", "parallel_independent_subtasks");
  }
}
