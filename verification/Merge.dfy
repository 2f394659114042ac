/** Composing the final data model from the derived contract and two untrusted
    LLM outputs (analyze/merge.py, analyze/enrich.py: `structural_entities`). */
module Merge {
  import opened Wrappers
  import opened Json
  import opened StableSort
  import opened Names
  import opened Ir
  import opened Identity

  /** The fallback stage's output. */
  datatype Fallback = Fallback(entities: seq<Entity>, declined: seq<string>)

  datatype DataModel = DataModel(apiName: string, entities: seq<Entity>, metadata: StoreMetadata, declined: seq<string>)

  /** Which path each entity name came from. */
  datatype Origin = FromDerivation | FromLlm

  datatype Composition = Composition(model: DataModel, provenance: map<string, Origin>)

  // ---- collision keys ----

  function TrimLeft(s: string): (r: string) {
    if s != [] && Space(s[0]) then TrimLeft(s[1..]) else s
  }

  function TrimRight(s: string): (r: string) {
    if s != [] && Space(s[|s| - 1]) then TrimRight(s[..|s| - 1]) else s
  }

  /** Stripped and case-folded. */
  function Key(value: string): (r: string) {
    Lower(TrimRight(TrimLeft(value)))
  }

  function CollectionKey(e: Entity): (r: string) { Key(e.collection) }
  function NameKey(e: Entity): (r: string) { Key(e.name) }

  // ---- fallback entities that survive ----

  function Select(es: seq<Entity>, keep: Entity -> bool): (r: seq<Entity>) {
    if es == [] then []
    else
      var init, last := es[..|es| - 1], es[|es| - 1];
      Select(init, keep) + (if keep(last) then [last] else [])
  }

  /** Python's `Counter(key(e) for e in es)[k]`. */
  function CountOf(es: seq<Entity>, key: Entity -> string, k: string): (n: nat) {
    |Select(es, e => key(e) == k)|
  }

  function Unreserved(collections: set<string>, names: set<string>): Entity -> bool {
    e => NameKey(e) !in names && CollectionKey(e) !in collections
  }

  /** Claimed by no other entity of the list. */
  function Unique(es: seq<Entity>, key: Entity -> string): Entity -> bool {
    e => CountOf(es, key, key(e)) <= 1
  }

  /** Colliding groups are dropped whole: first by collection, then by name. */
  function Survivors(candidates: seq<Entity>, collections: set<string>, names: set<string>): (r: seq<Entity>) {
    var contested := Select(candidates, Unreserved(collections, names));
    var apart := Select(contested, Unique(contested, CollectionKey));
    Select(apart, Unique(apart, NameKey))
  }

  // ---- pinning derived entities ----

  function ShapeFor(d: DerivedEntity, name: string): (r: Option<ElementShape>) {
    LastShape(d.elements, name)
  }

  function LastShape(elements: seq<FieldShape>, name: string): (r: Option<ElementShape>) {
    if elements == [] then None
    else if elements[|elements| - 1].name == name then Some(elements[|elements| - 1].shape)
    else LastShape(elements[..|elements| - 1], name)
  }

  function LastEnum(enums: seq<FieldEnum>, name: string): (r: Option<seq<string>>) {
    if enums == [] then None
    else if enums[|enums| - 1].name == name then Some(enums[|enums| - 1].values)
    else LastEnum(enums[..|enums| - 1], name)
  }

  function PinField(d: DerivedEntity, f: Field): (r: Field) {
    var shaped := if ShapeFor(d, f.name) != f.element then f.(element := ShapeFor(d, f.name)) else f;
    var values := LastEnum(d.enums, f.name);
    if values.Some? && shaped.values != values then shaped.(values := values) else shaped
  }

  function PinFields(d: DerivedEntity, fields: seq<Field>): (r: seq<Field>) {
    seq(|fields|, i requires 0 <= i < |fields| => PinField(d, fields[i]))
  }

  /** What a derived entity amounts to without any enrichment. */
  function Structural(d: DerivedEntity): (r: Entity) {
    var fields := seq(|d.fields|, i requires 0 <= i < |d.fields| =>
      var values := LastEnum(d.enums, d.fields[i].name);
      Field(d.fields[i].name, d.fields[i].type_, d.fields[i].name == d.primaryKey,
            if values.Some? && values.value != [] then values else None,
            None, None, ShapeFor(d, d.fields[i].name)));
    Entity(d.name, d.collection, d.primaryKey, fields, [], [], [])
  }

  function LastNamed(es: seq<Entity>, name: string): (r: Option<Entity>) {
    if es == [] then None
    else if es[|es| - 1].name == name then Some(es[|es| - 1])
    else LastNamed(es[..|es| - 1], name)
  }

  function Pinned(d: DerivedEntity, enriched: seq<Entity>): (r: Entity) {
    match LastNamed(enriched, d.name)
    case None => Structural(d)
    case Some(e) => e.(name := d.name, collection := d.collection, primaryKey := d.primaryKey, fields := PinFields(d, e.fields))
  }

  function PinnedAll(ds: seq<DerivedEntity>, enriched: seq<Entity>): (r: seq<Entity>) {
    seq(|ds|, i requires 0 <= i < |ds| => Pinned(ds[i], enriched))
  }

  // ---- the composed model ----

  const ByName: Order<Entity> := By((e: Entity) => e.name, NameLe)

  /** A dictionary built from pairs: a repeated key keeps its place and takes
      the later value. */
  function PutPk(items: seq<PrimaryKey>, pk: PrimaryKey): (r: seq<PrimaryKey>) {
    if items == [] then [pk]
    else if items[0].collection == pk.collection then [pk] + items[1..]
    else [items[0]] + PutPk(items[1..], pk)
  }

  function PkMap(es: seq<Entity>): (r: seq<PrimaryKey>) {
    if es == [] then []
    else
      var last := es[|es| - 1];
      PutPk(PkMap(es[..|es| - 1]), PrimaryKey(last.collection, last.primaryKey))
  }

  function EnumMap(ds: seq<DerivedEntity>): (r: map<string, seq<FieldEnum>>) {
    if ds == [] then map[]
    else
      var before, last := EnumMap(ds[..|ds| - 1]), ds[|ds| - 1];
      if last.enums == [] then before else before[last.collection := last.enums]
  }

  function Collections(es: seq<Entity>): (r: seq<string>) {
    seq(|es|, i requires 0 <= i < |es| => es[i].collection)
  }

  function Reserved(ds: seq<DerivedEntity>): (r: set<string>) {
    set d | d in ds :: Key(d.collection)
  }

  function ReservedNames(ds: seq<DerivedEntity>): (r: set<string>) {
    set d | d in ds :: Key(d.name)
  }

  function Extras(identity: IdentityModel, fallback: Option<Fallback>): (r: seq<Entity>) {
    match fallback
    case None => []
    case Some(f) => Survivors(f.entities, Reserved(identity.entities), ReservedNames(identity.entities))
  }

  function DerivedNames(ds: seq<DerivedEntity>): (r: seq<string>) {
    seq(|ds|, i requires 0 <= i < |ds| => ds[i].name)
  }

  function EntityNames(es: seq<Entity>): (r: seq<string>) {
    seq(|es|, i requires 0 <= i < |es| => es[i].name)
  }

  function Mark(into: map<string, Origin>, names: seq<string>, origin: Origin): (r: map<string, Origin>) {
    into + (map n | n in names :: origin)
  }

  function Provenance(ds: seq<DerivedEntity>, extras: seq<Entity>): (r: map<string, Origin>) {
    Mark(Mark(map[], DerivedNames(ds), FromDerivation), EntityNames(extras), FromLlm)
  }

  function Merged(identity: IdentityModel, enriched: seq<Entity>, fallback: Option<Fallback>): (r: seq<Entity>) {
    Sort(PinnedAll(identity.entities, enriched) + Extras(identity, fallback), ByName)
  }

  function Composed(apiName: string, identity: IdentityModel, enriched: seq<Entity>, fallback: Option<Fallback>): (r: Composition) {
    var merged := Merged(identity, enriched, fallback);
    Composition(
      DataModel(apiName, merged,
                StoreMetadata(Collections(merged), PkMap(merged), EnumMap(identity.entities)),
                if fallback.Some? then fallback.value.declined else []),
      Provenance(identity.entities, Extras(identity, fallback)))
  }

  // ---- the stage's loops ----

  method SelectUnique(es: seq<Entity>, key: Entity -> string) returns (r: seq<Entity>)
    ensures r == Select(es, Unique(es, key))
  {
    r := [];
    for i := 0 to |es|
      invariant r == Select(es[..i], Unique(es, key))
    {
      assert es[..i + 1][..i] == es[..i];
      if CountOf(es, key, key(es[i])) > 1 { continue; }
      r := r + [es[i]];
    }
    assert es[..|es|] == es;
  }

  method SurvivingFallbackEntities(candidates: seq<Entity>, collections: set<string>, names: set<string>) returns (r: seq<Entity>)
    ensures r == Survivors(candidates, collections, names)
  {
    var contested: seq<Entity> := [];
    for i := 0 to |candidates|
      invariant contested == Select(candidates[..i], Unreserved(collections, names))
    {
      assert candidates[..i + 1][..i] == candidates[..i];
      if NameKey(candidates[i]) in names || CollectionKey(candidates[i]) in collections { continue; }
      contested := contested + [candidates[i]];
    }
    assert candidates[..|candidates|] == candidates;
    var apart := SelectUnique(contested, CollectionKey);
    r := SelectUnique(apart, NameKey);
  }

  lemma MarkOne(into: map<string, Origin>, names: seq<string>, name: string, origin: Origin)
    ensures Mark(into, names + [name], origin) == Mark(into, names, origin)[name := origin]
  {
    var all, one := Mark(into, names + [name], origin), Mark(into, names, origin)[name := origin];
    assert forall n :: n in names + [name] <==> n in names || n == name;
    assert all.Keys == one.Keys;
    assert forall n | n in all :: all[n] == one[n];
  }

  lemma MarkNext(into: map<string, Origin>, names: seq<string>, origin: Origin)
    ensures Mark(into, [], origin) == into
    ensures forall i | 0 <= i < |names| :: Mark(into, names[..i + 1], origin) == Mark(into, names[..i], origin)[names[i] := origin]
  {
    assert Mark(into, [], origin) == into;
    hide Mark;
    forall i | 0 <= i < |names| ensures Mark(into, names[..i + 1], origin) == Mark(into, names[..i], origin)[names[i] := origin] {
      MarkOne(into, names[..i], names[i], origin);
      assert names[..i + 1] == names[..i] + [names[i]];
    }
  }

  method MarkAll(into: map<string, Origin>, names: seq<string>, origin: Origin) returns (r: map<string, Origin>)
    ensures r == Mark(into, names, origin)
  {
    MarkNext(into, names, origin);
    hide Mark;
    assert names[..0] == [];
    r := into;
    for i := 0 to |names|
      invariant r == Mark(into, names[..i], origin)
    {
      r := r[names[i] := origin];
    }
    assert names[..|names|] == names;
  }

  method BuildPkMap(es: seq<Entity>) returns (r: seq<PrimaryKey>)
    ensures r == PkMap(es)
  {
    r := [];
    for i := 0 to |es|
      invariant r == PkMap(es[..i])
    {
      assert es[..i + 1][..i] == es[..i];
      r := PutPk(r, PrimaryKey(es[i].collection, es[i].primaryKey));
    }
    assert es[..|es|] == es;
  }

  method ComposeDataModel(apiName: string, identity: IdentityModel, enriched: seq<Entity>, fallback: Option<Fallback>)
    returns (r: Composition)
    ensures r == Composed(apiName, identity, enriched, fallback)
  {
    hide Pinned, Survivors, Mark, PkMap, EnumMap, Sort;
    var ds := identity.entities;
    var entities: seq<Entity> := [];
    for i := 0 to |ds|
      invariant entities == PinnedAll(ds, enriched)[..i]
    {
      entities := entities + [Pinned(ds[i], enriched)];
    }
    var provenance := MarkAll(map[], DerivedNames(ds), FromDerivation);
    var extras: seq<Entity> := [];
    if fallback.Some? {
      extras := SurvivingFallbackEntities(fallback.value.entities, Reserved(ds), ReservedNames(ds));
      provenance := MarkAll(provenance, EntityNames(extras), FromLlm);
    }
    MarkNext(provenance, [], FromLlm);
    assert EntityNames([]) == [];
    assert entities == PinnedAll(ds, enriched);
    assert extras == Extras(identity, fallback);
    assert provenance == Provenance(ds, extras);
    var merged := Sort(entities + extras, ByName);
    var pkMap := BuildPkMap(merged);
    r := Composition(
      DataModel(apiName, merged, StoreMetadata(Collections(merged), pkMap, EnumMap(ds)),
                if fallback.Some? then fallback.value.declined else []),
      provenance);
  }
}
