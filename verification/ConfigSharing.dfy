/**
 * The parser on the heap: sections the input leaves out are the defaults' own objects, and the drops and clamps
 * write to them in place.
 */
module ConfigSharing {
  import opened Prelude
  import opened ConfigTree
  import opened ConfigParse

  class Section {
    var fields: map<string, Json>

    constructor (fields: map<string, Json>)
      ensures this.fields == fields
    {
      this.fields := fields;
    }
  }

  /** What the merged root holds under a key: an object the parser may write to, or a value it never writes. */
  datatype Slot = Held(section: Section) | Plain(value: Json)

  type Slots = map<string, Slot>

  function ObjectsOf(slots: Slots): set<Section> {
    set s | s in slots && slots[s].Held? :: slots[s].section
  }

  predicate Apart(slots: Slots) {
    forall s, t | s in slots && t in slots && s != t && slots[s].Held? && slots[t].Held? :: slots[s].section != slots[t].section
  }

  function ValueOf(slot: Slot): Json
    reads if slot.Held? then {slot.section} else {}
  {
    match slot
    case Held(section) => Obj(section.fields)
    case Plain(value) => value
  }

  function RootOf(slots: Slots): Root
    reads ObjectsOf(slots)
  {
    map s | s in slots :: ValueOf(slots[s])
  }

  /** The input leaves this section out, so the merged root holds the defaults' own object. */
  predicate Shares(input: Json, s: string) {
    !input.Obj? || s !in input.fields || input.fields[s].Nullish()
  }

  /** No object is held as a plain value, so what the parser writes to is never missed. */
  predicate Writable(slot: Slot) { slot.Plain? ==> !slot.value.Obj? }

  predicate AllHeld(defaults: Slots) { forall s | s in defaults :: defaults[s].Held? }

  ghost predicate Shows(slots: Slots, root: Root)
    reads ObjectsOf(slots)
  {
    slots.Keys == root.Keys && forall s | s in slots :: ValueOf(slots[s]) == root[s]
  }

  lemma ShowsIsRoot(slots: Slots, root: Root)
    ensures Shows(slots, root) <==> RootOf(slots) == root
  {
    assert Shows(slots, RootOf(slots));
    if Shows(slots, root) {
      assert RootOf(slots) == root;
    }
  }

  /** One key of the merge; a new object only where both sides are objects. */
  method MergeKey(defaults: Slots, ghost base: Root, k: string, o: Json) returns (slot: Slot)
    requires AllHeld(defaults) && Shows(defaults, base)
    ensures ValueOf(slot) == MergeField(Obj(base), k, o)
    ensures k in defaults ==> Writable(slot)
    ensures k in defaults && o.Nullish() ==> slot == defaults[k]
    ensures slot.Held? && !(k in defaults && o.Nullish()) ==> fresh(slot.section)
  {
    if k !in defaults {
      slot := Plain(Coalesce(o, Undefined));
    } else if o.Obj? {
      assert ValueOf(defaults[k]) == base[k];
      var merged := MergeDeep(Obj(defaults[k].section.fields), o);
      var section := new Section(merged.fields);
      slot := Held(section);
    } else {
      slot := if o.Nullish() then defaults[k] else Plain(o);
    }
  }

  lemma StaysApart(slots: Slots, k: string, slot: Slot)
    requires Apart(slots)
    requires (k in slots && slot == slots[k]) ||
             (slot.Held? ==> forall s | s in slots && slots[s].Held? :: slots[s].section != slot.section)
    ensures Apart(slots[k := slot])
  {
  }

  /** Where a merged slot may come from: the defaults' own object when the input leaves the key out. */
  twostate predicate Origin(defaults: Slots, input: Json, s: string, new slot: Slot) {
    && (if s in defaults && Shares(input, s) then slot == defaults[s] else slot.Held? ==> fresh(slot.section))
    && (s in defaults ==> Writable(slot))
  }

  /** What the merge holds, key by key. */
  ghost predicate MergesTo(base: Root, over: Root, merged: Root) {
    && merged.Keys == base.Keys + over.Keys
    && (forall s | s in over :: merged[s] == MergeField(Obj(base), s, over[s]))
    && (forall s | s in base && s !in over :: merged[s] == base[s])
  }

  /** One turn of the loop: one slot is replaced, and no object is held twice. */
  method MergeNext(defaults: Slots, ghost base: Root, slots: Slots, k: string, o: Json) returns (next: Slots)
    requires AllHeld(defaults) && Shows(defaults, base) && Apart(slots)
    requires k in defaults ==> k in slots && slots[k] == defaults[k]
    ensures k in next && next == slots[k := next[k]] && Apart(next)
    ensures ValueOf(next[k]) == MergeField(Obj(base), k, o)
    ensures k in defaults ==> Writable(next[k]) && (o.Nullish() ==> next[k] == defaults[k])
    ensures next[k].Held? && !(k in defaults && o.Nullish()) ==> fresh(next[k].section)
  {
    var slot := MergeKey(defaults, base, k, o);
    StaysApart(slots, k, slot);
    next := slots[k := slot];
  }

  /** The loop over the input's keys. */
  method MergeKeys(defaults: Slots, input: Json, ghost base: Root, ghost merged: Root) returns (slots: Slots)
    requires AllHeld(defaults) && Apart(defaults) && input.Obj?
    requires Shows(defaults, base) && MergesTo(base, input.fields, merged)
    ensures Apart(slots) && Shows(slots, merged)
    ensures forall s | s in slots :: Origin(defaults, input, s, slots[s])
  {
    slots := defaults;
    var keys := input.fields.Keys;
    ghost var done: set<string> := {};
    while keys != {}
      invariant done !! keys && done + keys == input.fields.Keys && slots.Keys == defaults.Keys + done
      invariant forall s | s in done :: Origin(defaults, input, s, slots[s]) && ValueOf(slots[s]) == merged[s]
      invariant forall s | s in defaults && s !in done :: slots[s] == defaults[s]
      invariant Apart(slots)
      decreases keys
    {
      var k :| k in keys;
      slots := MergeNext(defaults, base, slots, k, input.fields[k]);
      keys, done := keys - {k}, done + {k};
    }
  }

  /** Merging the input into the defaults: what the input leaves out stays the defaults' own object. */
  method MergeRoot(defaults: Slots, input: Json, ghost base: Root) returns (slots: Slots)
    requires AllHeld(defaults) && Apart(defaults) && Shows(defaults, base)
    ensures Apart(slots) && defaults.Keys <= slots.Keys
    ensures Shows(slots, Merge(Obj(base), input).fields)
    ensures forall s | s in slots :: Origin(defaults, input, s, slots[s])
  {
    if input.Obj? {
      slots := MergeKeys(defaults, input, base, Merge(Obj(base), input).fields);
    } else {
      slots := defaults;
    }
  }

  /** The slot holds an object, and not one of the defaults'. */
  predicate Owned(defaults: Slots, input: Json, slots: Slots, s: string)
    requires s in slots
  {
    slots[s].Held? && !(s in defaults && Shares(input, s))
  }

  /** What writing through the merged root can reach: new objects, and the defaults' own where they are shared. */
  method MergePlaced(defaults: Slots, input: Json, ghost base: Root) returns (slots: Slots)
    requires AllHeld(defaults) && Apart(defaults) && Shows(defaults, base)
    ensures Apart(slots) && defaults.Keys <= slots.Keys && Shows(slots, Merge(Obj(base), input).fields)
    ensures forall s | s in defaults :: Writable(slots[s]) && (Shares(input, s) ==> slots[s] == defaults[s])
    ensures forall s | s in defaults && !Shares(input, s) :: defaults[s].section !in ObjectsOf(slots)
    ensures forall s | s in slots && slots[s].Held? :: slots[s].section in ObjectsOf(defaults) || fresh(slots[s].section)
    ensures forall s | s in slots && Owned(defaults, input, slots, s) :: fresh(slots[s].section)
  {
    slots := MergeRoot(defaults, input, base);
  }

  // ---- Writing through the slots ----------------------------------------------------------

  /** Overwriting one object changes one section of what the slots show. */
  method Write(slots: Slots, s: string, fields: map<string, Json>, ghost root: Root)
    requires s in slots && slots[s].Held? && Apart(slots) && Shows(slots, root)
    modifies slots[s].section
    ensures Shows(slots, root[s := Obj(fields)])
  {
    slots[s].section.fields := fields;
  }

  method DropFrom(slots: Slots, s: string, ghost root: Root)
    requires s in slots && Apart(slots) && Shows(slots, root) && Writable(slots[s])
    modifies ObjectsOf(slots)
    ensures Shows(slots, root[s := Strip(s, root[s])])
  {
    assert root[s] == ValueOf(slots[s]);
    if slots[s].Held? {
      Write(slots, s, slots[s].section.fields - RemovedKeys(s), root);
    } else {
      assert root[s := root[s]] == root;
    }
  }

  lemma StripsTwoSections(root: Root)
    requires "slack" in root && "loop" in root
    ensures root["slack" := Strip("slack", root["slack"])]["loop" := Strip("loop", root["loop"])] == Stripped(root)
  {
    forall s | s in root && s != "slack" && s != "loop" ensures Strip(s, root[s]) == root[s] {
      if root[s].Obj? { assert root[s].fields - {} == root[s].fields; }
    }
  }

  /** Deleting the removed keys. */
  method DropRemoved(slots: Slots, ghost root: Root)
    requires "slack" in slots && "loop" in slots && Writable(slots["slack"]) && Writable(slots["loop"])
    requires Apart(slots) && Shows(slots, root)
    modifies ObjectsOf(slots)
    ensures Shows(slots, Stripped(root))
  {
    DropFrom(slots, "slack", root);
    DropFrom(slots, "loop", root["slack" := Strip("slack", root["slack"])]);
    StripsTwoSections(root);
  }

  function ClampOnce(c: Clamp, root: Root): Root {
    var v := Field(root, c.section, c.field);
    if v.Num? then root[c.section := Obj(root[c.section].fields[c.field := Num(Clamped(c, v.n))])] else root
  }

  lemma ClampedRootSnoc(clamps: seq<Clamp>, i: nat, root: Root)
    requires i < |clamps|
    ensures ClampedRoot(clamps[..i + 1], root) == ClampOnce(clamps[i], ClampedRoot(clamps[..i], root))
  {
    assert clamps[..i + 1][..i] == clamps[..i];
    var before, after := ClampedRoot(clamps[..i], root), ClampOnce(clamps[i], ClampedRoot(clamps[..i], root));
    forall s | s in root ensures ClampSection(clamps[..i + 1], s, root[s]) == after[s] {
      if root[s].Obj? {
        assert ClampSection(clamps[..i + 1], s, root[s]).fields == after[s].fields;
      }
    }
  }

  /** The clamps, one after another, each written through its slot. */
  method ClampInPlace(slots: Slots, clamps: seq<Clamp>, ghost root: Root)
    requires forall i | 0 <= i < |clamps| :: clamps[i].section in slots && Writable(slots[clamps[i].section])
    requires Apart(slots) && Shows(slots, root)
    modifies ObjectsOf(slots)
    ensures Shows(slots, ClampedRoot(clamps, root))
  {
    ghost var now := root;
    ClampedByNothing(root);
    for i := 0 to |clamps|
      invariant now == ClampedRoot(clamps[..i], root) && Shows(slots, now)
    {
      var c := clamps[i];
      ClampedRootSnoc(clamps, i, root);
      assert now[c.section] == ValueOf(slots[c.section]);
      if slots[c.section].Held? && c.field in slots[c.section].section.fields && slots[c.section].section.fields[c.field].Num? {
        var fields := slots[c.section].section.fields;
        Write(slots, c.section, fields[c.field := Num(Clamped(c, fields[c.field].n))], now);
      }
      now := ClampOnce(c, now);
    }
    assert clamps[..|clamps|] == clamps;
  }

  lemma ClampedByNothing(root: Root)
    ensures ClampedRoot([], root) == root
  {
    forall s | s in root ensures ClampSection([], s, root[s]) == root[s] {
      if root[s].Obj? { assert ClampSection([], s, root[s]).fields == root[s].fields; }
    }
  }

  // ---- The parser -------------------------------------------------------------------------

  /** The root the parser leaves in its slots, accepted or not. */
  function Final(clamps: seq<Clamp>, merged: Root): Root {
    if EarlyChecks(Stripped(merged)) then ClampedRoot(clamps, Stripped(merged)) else Stripped(merged)
  }

  /** What the parser leaves in the defaults: shared sections take the drops, and the clamps once these are reached. */
  function Afterwards(base: Root, clamps: seq<Clamp>, input: Json): Root {
    var final := Final(clamps, Merge(Obj(base), input).fields);
    map s | s in base :: if Shares(input, s) then final[s] else base[s]
  }

  /** Everything after the merge: drops, early checks, clamps, late checks. */
  method Settle(slots: Slots, clamps: seq<Clamp>, patOk: Json -> bool, ghost merged: Root) returns (ok: bool)
    requires "slack" in slots && "loop" in slots && Writable(slots["slack"]) && Writable(slots["loop"])
    requires forall i | 0 <= i < |clamps| :: clamps[i].section in slots && Writable(slots[clamps[i].section])
    requires Apart(slots) && Shows(slots, merged)
    modifies ObjectsOf(slots)
    ensures Shows(slots, Final(clamps, merged))
    ensures ok <==> EarlyChecks(Stripped(merged)) && LateChecks(Final(clamps, merged), patOk)
  {
    DropRemoved(slots, merged);
    ShowsIsRoot(slots, Stripped(merged));
    if !EarlyChecks(RootOf(slots)) {
      return false;
    }
    ClampInPlace(slots, clamps, Stripped(merged));
    ShowsIsRoot(slots, ClampedRoot(clamps, Stripped(merged)));
    ok := LateChecks(RootOf(slots), patOk);
  }

  lemma EndsAs(defaults: Slots, input: Json, slots: Slots, base: Root, final: Root)
    requires AllHeld(defaults) && defaults.Keys == base.Keys <= slots.Keys && Shows(slots, final)
    requires forall s | s in defaults && Shares(input, s) :: slots[s] == defaults[s]
    requires forall s | s in defaults && !Shares(input, s) :: ValueOf(defaults[s]) == base[s]
    ensures RootOf(defaults) == map s | s in base :: if Shares(input, s) then final[s] else base[s]
  {
  }

  /** Merge, then everything after it, on the heap. */
  method MergeAndSettle(defaults: Slots, clamps: seq<Clamp>, input: Json, patOk: Json -> bool, ghost base: Root)
      returns (slots: Slots, ok: bool)
    requires AllHeld(defaults) && Apart(defaults) && Shows(defaults, base) && "slack" in defaults && "loop" in defaults
    requires forall i | 0 <= i < |clamps| :: clamps[i].section in defaults
    modifies ObjectsOf(defaults)
    ensures var merged := Merge(Obj(base), input).fields;
      && Shows(slots, Final(clamps, merged))
      && (ok <==> EarlyChecks(Stripped(merged)) && LateChecks(Final(clamps, merged), patOk))
    ensures defaults.Keys <= slots.Keys && forall s | s in defaults && Shares(input, s) :: slots[s] == defaults[s]
    ensures forall s | s in defaults && !Shares(input, s) :: ValueOf(defaults[s]) == base[s]
    ensures forall s | s in slots && Owned(defaults, input, slots, s) :: fresh(slots[s].section)
  {
    slots := MergePlaced(defaults, input, base);
    ok := Settle(slots, clamps, patOk, Merge(Obj(base), input).fields);
  }

  /**
   * The parser. The result is what the parser computes on values, and the defaults end as Afterwards says. Sections
   * the input leaves out are the defaults' own objects.
   */
  method Parse(defaults: Slots, clamps: seq<Clamp>, input: Json, patOk: Json -> bool) returns (result: Option<Slots>)
    requires AllHeld(defaults) && Apart(defaults) && "slack" in defaults && "loop" in defaults
    requires forall i | 0 <= i < |clamps| :: clamps[i].section in defaults
    modifies ObjectsOf(defaults)
    ensures RootOf(defaults) == Afterwards(old(RootOf(defaults)), clamps, input)
    ensures match ParseWith(old(RootOf(defaults)), clamps, input, patOk)
      case None => result.None?
      case Some(root) => result.Some? && RootOf(result.value) == root
    ensures result.Some? ==> forall s | s in defaults && Shares(input, s) :: s in result.value && result.value[s] == defaults[s]
    ensures result.Some? ==> forall s | s in result.value && Owned(defaults, input, result.value, s) :: fresh(result.value[s].section)
  {
    ghost var base := RootOf(defaults);
    ShowsIsRoot(defaults, base);
    var slots, ok := MergeAndSettle(defaults, clamps, input, patOk, base);
    ghost var final := Final(clamps, Merge(Obj(base), input).fields);
    EndsAs(defaults, input, slots, base, final);
    ShowsIsRoot(slots, final);
    result := if ok then Some(slots) else None;
  }

  // ---- When sharing is safe ---------------------------------------------------------------

  /** The clamps of a section keep the numbers it holds. */
  predicate ClampsKeep(clamps: seq<Clamp>, s: string, fields: map<string, Json>) {
    forall f | f in fields && fields[f].Num? :: FieldSettled(clamps, s, f, fields[f].n)
  }

  lemma ClampSectionIff(clamps: seq<Clamp>, s: string, j: Json)
    requires GoodClamps(clamps) && j.Obj?
    ensures ClampSection(clamps, s, j) == j <==> ClampsKeep(clamps, s, j.fields)
  {
    var r := ClampSection(clamps, s, j);
    forall f | f in j.fields ensures r.fields[f] == j.fields[f] <==> (j.fields[f].Num? ==> FieldSettled(clamps, s, f, j.fields[f].n)) {
      ClampFieldSettles(clamps, s, f, j.fields[f]);
    }
    if ClampsKeep(clamps, s, j.fields) {
      assert r.fields == j.fields;
    }
  }

  lemma StripIff(s: string, j: Json)
    requires j.Obj?
    ensures Strip(s, j) == j <==> RemovedKeys(s) !! j.fields.Keys
  {
    if RemovedKeys(s) !! j.fields.Keys {
      assert j.fields - RemovedKeys(s) == j.fields;
    }
  }

  /** No removed key and, once the early checks pass, only numbers the clamps keep. */
  predicate SafeToShare(base: Root, clamps: seq<Clamp>, input: Json, s: string)
    requires s in base && base[s].Obj?
  {
    && RemovedKeys(s) !! base[s].fields.Keys
    && (EarlyChecks(Stripped(Merge(Obj(base), input).fields)) ==> ClampsKeep(clamps, s, base[s].fields))
  }

  lemma SharedSectionIff(base: Root, clamps: seq<Clamp>, input: Json, s: string)
    requires GoodClamps(clamps) && s in base && base[s].Obj? && Shares(input, s)
    ensures Afterwards(base, clamps, input)[s] == base[s] <==> SafeToShare(base, clamps, input, s)
  {
    var merged := Merge(Obj(base), input).fields;
    assert input.Obj? && s in input.fields ==> MergeField(Obj(base), s, input.fields[s]) == base[s];
    StripIff(s, base[s]);
    if RemovedKeys(s) !! base[s].fields.Keys {
      ClampSectionIff(clamps, s, base[s]);
    } else {
      var k :| k in RemovedKeys(s) && k in base[s].fields;
      assert k !in Strip(s, base[s]).fields && k !in ClampSection(clamps, s, Strip(s, base[s])).fields;
    }
  }

  /**
   * A parse leaves the defaults as they were exactly when every section the input leaves out is safe to share.
   */
  lemma SharingIsSafeIff(base: Root, clamps: seq<Clamp>, input: Json)
    requires GoodClamps(clamps) && forall s | s in base :: base[s].Obj?
    ensures Afterwards(base, clamps, input) == base <==>
            forall s | s in base && Shares(input, s) :: SafeToShare(base, clamps, input, s)
  {
    forall s | s in base && Shares(input, s)
      ensures Afterwards(base, clamps, input)[s] == base[s] <==> SafeToShare(base, clamps, input, s)
    {
      SharedSectionIff(base, clamps, input, s);
    }
    assert Afterwards(base, clamps, input).Keys == base.Keys;
  }

  /** Defaults that the drops and clamps leave alone survive every parse. */
  lemma DefaultsSurvive(base: Root, clamps: seq<Clamp>, input: Json)
    requires GoodClamps(clamps) && GoodDefaults(base, clamps)
    ensures Afterwards(base, clamps, input) == base
  {
    forall s, f | s in base && f in base[s].fields && base[s].fields[f].Num? ensures FieldSettled(clamps, s, f, base[s].fields[f].n) {
      assert forall i | 0 <= i < |clamps| && clamps[i].section == s && clamps[i].field == f :: SettledIn(clamps[i], base);
    }
    SharingIsSafeIff(base, clamps, input);
  }

  // ---- One parse after another ------------------------------------------------------------

  /** Nothing, or slots that show the value. */
  ghost predicate IsParsed(result: Option<Slots>, parsed: Option<Root>)
    reads if result.Some? then ObjectsOf(result.value) else {}
  {
    match parsed
    case None => result.None?
    case Some(root) => result.Some? && Shows(result.value, root)
  }

  /** An object under a key is the defaults' own under that key, or none of theirs. */
  predicate ApartFrom(defaults: Slots, slots: Slots) {
    forall s | s in slots && slots[s].Held? :: slots[s].section !in ObjectsOf(defaults) || (s in defaults && slots[s] == defaults[s])
  }

  /** A parse with defaults that survive it. */
  method ParseOnce(defaults: Slots, clamps: seq<Clamp>, input: Json, patOk: Json -> bool, ghost base: Root)
      returns (result: Option<Slots>)
    requires AllHeld(defaults) && Apart(defaults) && "slack" in defaults && "loop" in defaults
    requires forall i | 0 <= i < |clamps| :: clamps[i].section in defaults
    requires Shows(defaults, base) && GoodClamps(clamps) && GoodDefaults(base, clamps)
    modifies ObjectsOf(defaults)
    ensures Shows(defaults, base) && IsParsed(result, ParseWith(base, clamps, input, patOk))
    ensures result.Some? ==> ApartFrom(defaults, result.value)
  {
    DefaultsSurvive(base, clamps, input);
    ShowsIsRoot(defaults, base);
    result := Parse(defaults, clamps, input, patOk);
    ShowsIsRoot(defaults, base);
    if result.Some? { ShowsIsRoot(result.value, RootOf(result.value)); }
  }

  lemma SharedShowsBase(defaults: Slots, base: Root, slots: Slots, root: Root)
    requires Shows(defaults, base) && Shows(slots, root)
    ensures forall s | s in slots && s in defaults && slots[s] == defaults[s] :: root[s] == base[s]
  {
  }

  /** A parse beside an earlier result, which goes on showing what it showed. */
  method ParseBeside(defaults: Slots, clamps: seq<Clamp>, input: Json, patOk: Json -> bool, ghost base: Root,
                     earlier: Slots, ghost root: Root)
      returns (result: Option<Slots>)
    requires AllHeld(defaults) && Apart(defaults) && "slack" in defaults && "loop" in defaults
    requires forall i | 0 <= i < |clamps| :: clamps[i].section in defaults
    requires Shows(defaults, base) && GoodClamps(clamps) && GoodDefaults(base, clamps)
    requires ApartFrom(defaults, earlier) && Shows(earlier, root)
    modifies ObjectsOf(defaults)
    ensures Shows(defaults, base) && Shows(earlier, root)
    ensures IsParsed(result, ParseWith(base, clamps, input, patOk))
  {
    SharedShowsBase(defaults, base, earlier, root);
    result := ParseOnce(defaults, clamps, input, patOk, base);
    forall s | s in earlier ensures ValueOf(earlier[s]) == root[s] {
      if s in defaults && earlier[s] == defaults[s] {
        assert ValueOf(defaults[s]) == base[s];
      }
    }
  }

  /**
   * Two parses over the same defaults, given that nobody writes to the first result in between. Each returns what
   * its own input calls for, the second leaves the first result alone, and the defaults are what they were.
   */
  method ParseTwice(defaults: Slots, clamps: seq<Clamp>, first: Json, second: Json, patOk: Json -> bool, ghost base: Root)
      returns (a: Option<Slots>, b: Option<Slots>)
    requires AllHeld(defaults) && Apart(defaults) && "slack" in defaults && "loop" in defaults
    requires forall i | 0 <= i < |clamps| :: clamps[i].section in defaults
    requires Shows(defaults, base) && GoodClamps(clamps) && GoodDefaults(base, clamps)
    modifies ObjectsOf(defaults)
    ensures Shows(defaults, base)
    ensures IsParsed(a, ParseWith(base, clamps, first, patOk)) && IsParsed(b, ParseWith(base, clamps, second, patOk))
  {
    a := ParseOnce(defaults, clamps, first, patOk, base);
    if a.Some? {
      b := ParseBeside(defaults, clamps, second, patOk, base, a.value, ParseWith(base, clamps, first, patOk).value);
    } else {
      b := ParseOnce(defaults, clamps, second, patOk, base);
    }
  }
}
