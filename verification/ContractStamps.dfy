/** What a stamped definition says: the derived element shapes and enums are in
    place, whatever the LLM wrote there (generation/stages/schema.py). */
module ContractStamps {
  import opened Wrappers
  import opened Json
  import opened Ir
  import opened Contract

  /** A write to this keyword, guarded by this declared type. */
  ghost predicate Targets(v: DefWrite, prop: string, declared: string, keyword: string) {
    v.SetKeyword? && v.prop == prop && v.declared == declared && v.keyword == keyword
  }

  /** What the last of some writes puts there. */
  ghost function LastWord(ws: seq<DefWrite>, prop: string, declared: string, keyword: string): (r: Option<Json>) {
    if ws == [] then None
    else
      var last := ws[|ws| - 1];
      if Targets(last, prop, declared, keyword) then Some(last.value)
      else LastWord(ws[..|ws| - 1], prop, declared, keyword)
  }

  /** What a definition says under a keyword of a property declared like this. */
  ghost function Word(def: Object, prop: string, declared: string, keyword: string): (r: Option<Json>) {
    match Declared(def, prop, declared)
    case Some(fields) => Obj(fields).Get(keyword)
    case None => None
  }

  ghost function Else<T>(a: Option<T>, b: Option<T>): Option<T> {
    if a.Some? then a else b
  }

  lemma PutWord(def: Object, v: DefWrite, prop: string, declared: string, keyword: string)
    requires Stamp(v) && Declared(def, prop, declared).Some?
    ensures Declared(Put(def, v), prop, declared).Some?
    ensures Word(Put(def, v), prop, declared, keyword)
         == if Targets(v, prop, declared, keyword) then Some(v.value) else Word(def, prop, declared, keyword)
  {
    PutKeepsTypes(def, v, prop, declared);
  }

  lemma PutAllLast(def: Object, ws: seq<DefWrite>)
    requires ws != []
    ensures PutAll(def, ws) == Put(PutAll(def, ws[..|ws| - 1]), ws[|ws| - 1])
  {
    var init, last := ws[..|ws| - 1], ws[|ws| - 1];
    assert ws == init + [last];
    PutAllAppend(def, init, [last]);
    PutAllOne(PutAll(def, init), last);
  }

  lemma {:induction false} PutAllKeepsTypes(def: Object, ws: seq<DefWrite>, prop: string, declared: string)
    requires Stamps(ws)
    ensures Declared(PutAll(def, ws), prop, declared).Some? <==> Declared(def, prop, declared).Some?
    decreases ws
  {
    if ws != [] {
      PutKeepsTypes(def, ws[0], prop, declared);
      PutAllKeepsTypes(Put(def, ws[0]), ws[1..], prop, declared);
    }
  }

  /** After any writes a keyword has its last value, or the one it had. */
  lemma {:induction false} PutAllWord(def: Object, ws: seq<DefWrite>, prop: string, declared: string, keyword: string)
    requires Stamps(ws) && Declared(def, prop, declared).Some?
    ensures Word(PutAll(def, ws), prop, declared, keyword)
         == Else(LastWord(ws, prop, declared, keyword), Word(def, prop, declared, keyword))
  {
    if ws != [] {
      var init, last := ws[..|ws| - 1], ws[|ws| - 1];
      PutAllWord(def, init, prop, declared, keyword);
      PutAllKeepsTypes(def, init, prop, declared);
      PutAllLast(def, ws);
      hide Word, Declared, PutAll, Put;
      PutWord(PutAll(def, init), last, prop, declared, keyword);
    }
  }

  lemma RequireKeepsTypes(def: Object, key: string, prop: string, declared: string)
    ensures Declared(Require(def, key), prop, declared) == Declared(def, prop, declared)
  {
  }

  lemma {:induction false} RequireAllKeepsTypes(def: Object, pks: seq<PrimaryKey>, prop: string, declared: string)
    ensures Declared(RequireAll(def, pks), prop, declared) == Declared(def, prop, declared)
  {
    if pks != [] {
      RequireAllKeepsTypes(def, pks[..|pks| - 1], prop, declared);
      RequireKeepsTypes(RequireAll(def, pks[..|pks| - 1]), pks[|pks| - 1].key, prop, declared);
    }
  }

  /** What a stamped definition says under every keyword of every property. */
  lemma StampDefWord(def: Object, ir: Model, pks: seq<PrimaryKey>, prop: string, declared: string, keyword: string)
    ensures Declared(StampDef(def, ir, pks), prop, declared).Some? <==> Declared(def, prop, declared).Some?
    ensures Declared(def, prop, declared).Some? ==>
              Word(StampDef(def, ir, pks), prop, declared, keyword) ==
                Else(LastWord(AllWrites(ir, pks), prop, declared, keyword), Word(def, prop, declared, keyword))
  {
    var ws := AllWrites(ir, pks);
    StampDefSplit(def, ir, pks);
    RequireAllKeepsTypes(PutAll(def, ws), pks, prop, declared);
    PutAllKeepsTypes(def, ws, prop, declared);
    hide StampDef, AllWrites, Declared, PutAll, RequireAll, LastWord;
    if Declared(def, prop, declared).Some? { PutAllWord(def, ws, prop, declared, keyword); }
  }

  lemma {:induction false} LastWordSome(ws: seq<DefWrite>, w: DefWrite)
    requires w in ws && w.SetKeyword?
    ensures LastWord(ws, w.prop, w.declared, w.keyword).Some?
  {
    if w != ws[|ws| - 1] { LastWordSome(ws[..|ws| - 1], w); }
  }

  lemma {:induction false} AllWritesMembers(ir: Model, pks: seq<PrimaryKey>, pk: PrimaryKey)
    requires pk in pks
    ensures forall w | w in CollectionWrites(ir, pk) :: w in AllWrites(ir, pks)
  {
    hide CollectionWrites;
    if pk != pks[|pks| - 1] { AllWritesMembers(ir, pks[..|pks| - 1], pk); }
  }

  /** The definition has, in place, what the write puts there. */
  ghost predicate Says(def: Object, w: DefWrite)
    requires w.SetKeyword?
  {
    Word(def, w.prop, w.declared, w.keyword) == Some(w.value)
  }

  /** What the collections sharing a definition finally make of a keyword. */
  ghost function FinalWord(schema0: Json, ir: Model, d: string, w: DefWrite): Option<Json>
    requires w.SetKeyword?
  {
    LastWord(AllWrites(ir, Sharing(StampTop(schema0, ir), ir.metadata.pkMap, d)), w.prop, w.declared, w.keyword)
  }

  lemma StampedSays(def: Object, ir: Model, share: seq<PrimaryKey>, w: DefWrite)
    requires w.SetKeyword? && w in AllWrites(ir, share)
    ensures Says(StampDef(def, ir, share), w) <==>
              Declared(def, w.prop, w.declared).Some?
              && LastWord(AllWrites(ir, share), w.prop, w.declared, w.keyword) == Some(w.value)
  {
    StampDefWord(def, ir, share, w.prop, w.declared, w.keyword);
    LastWordSome(AllWrites(ir, share), w);
    hide StampDef, AllWrites, LastWord;
  }

  lemma DefinitionStamped(schema: Json, ir: Model, pks: seq<PrimaryKey>, d: string)
    requires Definition(schema, d).Some?
    ensures Definition(StampDefs(schema, ir, pks), d) == Some(StampDef(Definition(schema, d).value, ir, Sharing(schema, pks, d)))
  {
    hide StampDef, Sharing;
  }

  /** Whatever the LLM wrote there, a definition of the enforced schema says what
      a collection derived - element schemas, references and enums - exactly if
      the property is declared with the matching type and no collection stamped
      later on the same definition says otherwise. */
  lemma StampsReachSchema(schema0: Json, ir: Model, d: string, pk: PrimaryKey, w: DefWrite)
    requires Definition(StampTop(schema0, ir), d).Some?
    requires pk in ir.metadata.pkMap && DefName(StampTop(schema0, ir), pk.collection) == Some(d)
    requires w in CollectionWrites(ir, pk) && w.SetKeyword?
    ensures Definition(Enforced(schema0, ir), d).Some?
    ensures Says(Definition(Enforced(schema0, ir), d).value, w) <==>
              Declared(Definition(StampTop(schema0, ir), d).value, w.prop, w.declared).Some?
              && FinalWord(schema0, ir, d, w) == Some(w.value)
  {
    var pks, top := ir.metadata.pkMap, StampTop(schema0, ir);
    var share, def := Sharing(top, pks, d), Definition(top, d).value;
    StampCollectionsIsStampDefs(top, ir, pks);
    DefinitionStamped(top, ir, pks, d);
    SharingMembers(top, pks, d);
    AllWritesMembers(ir, share, pk);
    assert Enforced(schema0, ir) == StampDefs(top, ir, pks);
    hide Declared, CollectionWrites, Sharing, StampDef, StampDefs, StampTop, Enforced, Says, Definition, AllWrites;
    StampedSays(def, ir, share, w);
  }

  // ---- collections whose own writes agree ----

  /** No two writes put different values in one place. */
  ghost predicate NoClash(ws: seq<DefWrite>) {
    forall v, w | v in ws && w in ws && w.SetKeyword? && Targets(v, w.prop, w.declared, w.keyword) :: v.value == w.value
  }

  /** Then each write has the last word. */
  lemma {:induction false} AgreedWord(ws: seq<DefWrite>, w: DefWrite)
    requires NoClash(ws) && w in ws && w.SetKeyword?
    ensures LastWord(ws, w.prop, w.declared, w.keyword) == Some(w.value)
  {
    var init, last := ws[..|ws| - 1], ws[|ws| - 1];
    if !Targets(last, w.prop, w.declared, w.keyword) {
      assert w in init;
      assert forall v | v in init :: v in ws;
      AgreedWord(init, w);
    }
  }

  /** Fields of one name have one shape, and enums of one name the same values. */
  ghost predicate Agreeing(fields: seq<Field>, enums: seq<FieldEnum>) {
    && (forall f, g | f in fields && g in fields && f.name == g.name :: f.element == g.element)
    && forall e, f | e in enums && f in enums && e.name == f.name :: e.values == f.values
  }

  lemma ElementWritesFacts(f: Field)
    ensures forall w | w in ElementWrites(f) :: w.SetKeyword? && w.prop == f.name && w.keyword != "enum"
    ensures NoClash(ElementWrites(f))
    ensures forall g: Field | g.name == f.name && g.element == f.element :: ElementWrites(g) == ElementWrites(f)
  {
    hide ElementItems, ElementRef;
  }

  lemma {:induction false} ShapeWritesMembers(fields: seq<Field>)
    ensures forall w :: w in ShapeWrites(fields) <==> exists f | f in fields :: w in ElementWrites(f)
  {
    hide ElementWrites;
    if fields != [] {
      ShapeWritesMembers(fields[..|fields| - 1]);
      assert fields == fields[..|fields| - 1] + [fields[|fields| - 1]];
    }
  }

  lemma ShapeWritesApart(fields: seq<Field>)
    requires Agreeing(fields, [])
    ensures NoClash(ShapeWrites(fields))
    ensures forall w | w in ShapeWrites(fields) :: w.SetKeyword? && w.keyword != "enum"
  {
    ShapeWritesMembers(fields);
    hide ElementWrites, ShapeWrites;
    forall w | w in ShapeWrites(fields) ensures w.SetKeyword? && w.keyword != "enum" {
      var f :| f in fields && w in ElementWrites(f);
      ElementWritesFacts(f);
    }
    forall v, w | v in ShapeWrites(fields) && w in ShapeWrites(fields) && Targets(v, w.prop, w.declared, w.keyword)
      ensures v.value == w.value
    {
      var f :| f in fields && v in ElementWrites(f);
      var g :| g in fields && w in ElementWrites(g);
      ElementWritesFacts(f);
      ElementWritesFacts(g);
    }
  }

  lemma EnumWritesApart(enums: seq<FieldEnum>)
    requires Agreeing([], enums)
    ensures NoClash(EnumWrites(enums))
    ensures forall w | w in EnumWrites(enums) :: w.SetKeyword? && w.keyword == "enum"
  {
    forall v, w | v in EnumWrites(enums) && w in EnumWrites(enums) && Targets(v, w.prop, w.declared, w.keyword)
      ensures v.value == w.value
    {
      var i :| 0 <= i < |enums| && EnumWrites(enums)[i] == v;
      var j :| 0 <= j < |enums| && EnumWrites(enums)[j] == w;
      assert enums[i] in enums && enums[j] in enums;
    }
  }

  /** A field's schema is its type, and its values if it is a string with any. */
  ghost predicate Describes(prop: Json, f: ElementField) {
    && prop.GetStr("type") == Some(f.type_)
    && prop.Get("enum") == (if f.type_ == "string" && f.values.GetOr([]) != [] then Some(Strings(f.values.value)) else None)
  }

  /** An element's schema has exactly the fields' names, each described as its
      (last) field is. */
  ghost predicate DescribesAll(properties: Object, fields: seq<ElementField>) {
    && (forall n :: n in properties <==> exists f | f in fields :: f.name == n)
    && forall n | n in properties :: exists f | f in fields :: f.name == n && Describes(properties[n], f)
  }

  lemma {:induction false} ElementPropertiesMeaning(fields: seq<ElementField>)
    ensures DescribesAll(ElementProperties(fields), fields)
  {
    if fields != [] {
      var init, last := fields[..|fields| - 1], fields[|fields| - 1];
      ElementPropertiesMeaning(init);
      assert fields == init + [last];
      hide DescribesAll;
      OneMoreDescribed(ElementProperties(init), init, last);
    }
  }

  lemma OneMoreDescribed(properties: Object, fields: seq<ElementField>, f: ElementField)
    requires DescribesAll(properties, fields)
    ensures DescribesAll(properties[f.name := ElementProperty(f)], fields + [f])
  {
    var more, all := properties[f.name := ElementProperty(f)], fields + [f];
    assert Describes(ElementProperty(f), f);
    hide Describes, ElementProperty;
    forall n | n in more ensures exists g | g in all :: g.name == n && Describes(more[n], g) {
      if n == f.name {
        assert f in all;
      } else {
        var g :| g in fields && g.name == n && Describes(properties[n], g);
        assert g in all;
      }
    }
    forall g | g in all ensures g.name in more {
      assert g == f || g in fields;
    }
  }

  lemma {:induction false} RequiredNamesMeaning(fields: seq<ElementField>)
    ensures forall n :: n in RequiredNames(fields) <==> exists f | f in fields :: f.required && f.name == n
  {
    if fields != [] {
      RequiredNamesMeaning(fields[1..]);
      assert fields == [fields[0]] + fields[1..];
    }
  }

  lemma StringsMembers(names: seq<string>)
    ensures forall n :: Str(n) in Strings(names).items <==> n in names
  {
    forall n ensures Str(n) in Strings(names).items <==> n in names {
      if n in names {
        var i :| 0 <= i < |names| && names[i] == n;
        assert Strings(names).items[i] == Str(n);
      }
    }
  }

  /** An object element's schema has exactly the fields, and requires exactly the
      required ones. */
  lemma ObjectElementMeaning(fields: seq<ElementField>)
    ensures var items := ObjectElement(fields);
            && items.GetStr("type") == Some("object")
            && items.GetObj("properties").Some?
            && DescribesAll(items.GetObj("properties").value, fields)
            && forall n :: Str(n) in ListItems(items.Get("required")) <==> exists f | f in fields :: f.required && f.name == n
  {
    ElementPropertiesMeaning(fields);
    RequiredNamesMeaning(fields);
    StringsMembers(RequiredNames(fields));
    hide ElementProperties, RequiredNames, DescribesAll;
  }

  /** A reference that keeps nothing is stored as a bare string; any other
      object element is stored as an object of the fields it keeps. */
  lemma ElementItemsMeaning(shape: ElementShape)
    requires !shape.kind.Scalar?
    ensures var kept := if shape.kind.Embedded? then shape.fields else shape.linkFields;
            && ElementItems(shape).Some?
            && var items := ElementItems(shape).value;
               if shape.kind.Reference? && kept == [] then items == Obj(map["type" := Str("string")])
               else
                 && items.GetStr("type") == Some("object")
                 && items.GetObj("properties").Some?
                 && DescribesAll(items.GetObj("properties").value, kept)
                 && forall n :: Str(n) in ListItems(items.Get("required")) <==> exists f | f in kept :: f.required && f.name == n
  {
    ObjectElementMeaning(if shape.kind.Embedded? then shape.fields else shape.linkFields);
    hide ObjectElement, DescribesAll;
  }

  ghost function ListItems(j: Option<Json>): (r: seq<Json>) {
    match j
    case Some(Arr(items)) => items
    case _ => []
  }
}
