/** What the naming rules decide, stated without their search order. */
module NamingProperties {
  import opened Wrappers
  import opened Json
  import opened StableSort
  import opened Names
  import opened Naming

  /** A property that could hold a key and is named like one. */
  ghost predicate Candidate(props: Object, p: string) {
    p in props && EndsWith(p, "_id") && ScalarCandidate(props[p])
  }

  lemma {:induction false} CandidatesAmongMeaning(props: Object, names: seq<string>)
    ensures forall p :: p in CandidatesAmong(props, names) <==> p in names && Candidate(props, p)
  {
    hide EndsWith, ScalarCandidate;
    if names != [] {
      CandidatesAmongMeaning(props, names[1..]);
      assert names == [names[0]] + names[1..];
    }
  }

  lemma {:induction false} CandidatesAmongSorted(props: Object, names: seq<string>)
    requires Sorted(names, NameLe) && Distinct(names)
    ensures Sorted(CandidatesAmong(props, names), NameLe) && Distinct(CandidatesAmong(props, names))
  {
    hide EndsWith, ScalarCandidate, NameLe;
    if names != [] {
      var rest := CandidatesAmong(props, names[1..]);
      CandidatesAmongSorted(props, names[1..]);
      CandidatesAmongMeaning(props, names[1..]);
      forall j | 0 <= j < |rest| ensures NameLe(names[0], rest[j]) && names[0] != rest[j] {
        assert rest[j] in rest;
        var k :| 0 <= k < |names[1..]| && names[1..][k] == rest[j];
        assert NameLe(names[0], names[k + 1]);
      }
    }
  }

  lemma KeyCandidatesMeaning(props: Object)
    ensures forall p :: p in KeyCandidates(props) <==> Candidate(props, p)
    ensures Sorted(KeyCandidates(props), NameLe) && Distinct(KeyCandidates(props))
  {
    var names := SortedNames(props.Keys);
    SortedNamesLists(props.Keys);
    CandidatesAmongMeaning(props, names);
    CandidatesAmongSorted(props, names);
  }

  /** The naming rule's winner: it names the schema, nothing longer does, and
      among equally long ones it comes first. */
  ghost predicate Winner(props: Object, own: string, k: string) {
    && Candidate(props, k) && NounNames(NounOf(k), own)
    && forall c | Candidate(props, c) && NounNames(NounOf(c), own) ::
         |c| < |k| || (|c| == |k| && NameLe(k, c))
  }

  lemma LengthOrder()
    ensures TotalPreorder(LongestFirst)
  {
  }

  lemma {:induction false} FirstNamingMeaning(candidates: seq<string>, own: string)
    ensures match FirstNaming(candidates, own)
            case None => forall c | c in candidates :: !NounNames(NounOf(c), own)
            case Some(k) =>
              && NounNames(NounOf(k), own)
              && exists i | 0 <= i < |candidates| ::
                   candidates[i] == k && forall j | 0 <= j < i :: !NounNames(NounOf(candidates[j]), own)
  {
    hide NounNames;
    if candidates != [] && !NounNames(NounOf(candidates[0]), own) {
      FirstNamingMeaning(candidates[1..], own);
      if FirstNaming(candidates, own).Some? {
        var k := FirstNaming(candidates, own).value;
        var i :| 0 <= i < |candidates[1..]| && candidates[1..][i] == k
              && forall j | 0 <= j < i :: !NounNames(NounOf(candidates[1..][j]), own);
        assert candidates[i + 1] == k;
        forall j | 0 <= j < i + 1 ensures !NounNames(NounOf(candidates[j]), own) {
          if j > 0 { assert candidates[j] == candidates[1..][j - 1]; }
        }
      }
    }
  }

  /** In a stable sort by length, equally long names keep their order. */
  lemma EqualLengthsInOrder(names: seq<string>, i: nat, j: nat)
    requires Sorted(names, NameLe) && i < j < |Sort(names, LongestFirst)|
    requires |Sort(names, LongestFirst)[i]| == |Sort(names, LongestFirst)[j]|
    ensures NameLe(Sort(names, LongestFirst)[i], Sort(names, LongestFirst)[j])
  {
    var r := Sort(names, LongestFirst);
    LengthOrder();
    var p, q := TiesInOrder(r, i, j, LongestFirst);
    SortStable(names, r[i], LongestFirst);
    SubSorted(names, r[i], LongestFirst, NameLe);
    assert NameLe(Ties(names, r[i], LongestFirst)[p], Ties(names, r[i], LongestFirst)[q]);
  }

  lemma FirstIsWinner(props: Object, own: string)
    ensures match FirstNaming(Sort(KeyCandidates(props), LongestFirst), own)
            case None => forall c | Candidate(props, c) :: !NounNames(NounOf(c), own)
            case Some(k) => Winner(props, own, k)
  {
    var candidates := KeyCandidates(props);
    var r := Sort(candidates, LongestFirst);
    KeyCandidatesMeaning(props);
    SortMembers(candidates, LongestFirst);
    LengthOrder();
    SortSorted(candidates, LongestFirst);
    FirstNamingMeaning(r, own);
    hide NounNames, NameLe, Candidate, Sort, KeyCandidates;
    if FirstNaming(r, own).Some? {
      var k := FirstNaming(r, own).value;
      var i :| 0 <= i < |r| && r[i] == k && forall j | 0 <= j < i :: !NounNames(NounOf(r[j]), own);
      assert k in r;
      forall c | Candidate(props, c) && NounNames(NounOf(c), own)
        ensures |c| < |k| || (|c| == |k| && NameLe(k, c))
      {
        assert c in r;
        var j :| 0 <= j < |r| && r[j] == c;
        assert j >= i;
        if j == i {
          NameLeTotal(k, c);
        } else {
          assert LongestFirst(r[i], r[j]);
          if |c| == |k| { EqualLengthsInOrder(candidates, i, j); }
        }
      }
    }
  }

  /** The rules of an undeclared key, in order: the winner of the naming rule;
      else a scalar `id`; else, for a synthetic schema, its only candidate - on
      an element only if it is named after its holder; else none. */
  lemma KeyRules(name: string, props: Object, synthetic: bool, nested: bool)
    ensures var key := KeyAmong(name, props, synthetic, nested);
            if exists c :: Candidate(props, c) && NounNames(NounOf(c), Snake(name)) then
              key.Some? && Winner(props, Snake(name), key.value)
            else if "id" in props && ScalarCandidate(props["id"]) then key == Some("id")
            else match key
              case Some(k) =>
                && synthetic && Candidate(props, k) && (forall c :: Candidate(props, c) ==> c == k)
                && (nested ==> NounIsStem(NounOf(k), name))
              case None =>
                !synthetic || forall k | Candidate(props, k) ::
                  (exists c :: Candidate(props, c) && c != k) || (nested && !NounIsStem(NounOf(k), name))
  {
    FirstIsWinner(props, Snake(name));
    KeyCandidatesMeaning(props);
    hide NounNames, NameLe, Candidate, Sort, KeyCandidates, NounIsStem, FirstNaming, Snake, ScalarCandidate;
    var candidates := KeyCandidates(props);
    if |candidates| == 1 {
      assert candidates[0] in candidates;
      assert forall c | c in candidates :: c == candidates[0];
    } else if |candidates| >= 2 {
      assert candidates[0] in candidates && candidates[1] in candidates && candidates[0] != candidates[1];
    }
  }

  /** A key that was not declared is always a single value: a property of the
      schema, or of its variants, that is not an array or object. */
  lemma DerivedKeyIsScalar(name: string, schema: Object, synthetic: bool, nested: bool)
    ensures var key := IdentityKey(name, schema, synthetic, nested);
            key.Some? && Obj(schema).GetStr("x-primary-key") != key ==>
              && PropertiesOrUnion(schema).Some?
              && key.value in PropertiesOrUnion(schema).value
              && ScalarCandidate(PropertiesOrUnion(schema).value[key.value])
              && (EndsWith(key.value, "_id") || key.value == "id")
  {
    if PropertiesOrUnion(schema).Some? {
      KeyRules(name, PropertiesOrUnion(schema).value, synthetic, nested);
    }
    hide KeyAmong, NounNames, NameLe, NounIsStem, PropertiesOrUnion, ScalarCandidate, EndsWith, Snake;
  }

  /** Reducing a segment is undone by pluralizing it. */
  lemma SingularRoundTrip(segment: string)
    ensures SingularSegment(segment) == segment || Pluralize(SingularSegment(segment)) == segment
    ensures segment != "" ==> SingularSegment(segment) != ""
  {
    hide Pluralize, EndsWithAny;
  }

  /** A name without capitals passes through, and no capital is left. */
  lemma {:induction false} SnakeFixpoint(s: string)
    ensures NoCapitals(Snake(s))
    ensures NoCapitals(s) ==> Snake(s) == s
  {
    if s != [] {
      var init, last := s[..|s| - 1], s[|s| - 1];
      SnakeFixpoint(init);
      assert s == init + [last];
      assert !IsUpper(LowerChar(last)) && !IsUpper('_');
      assert NoCapitals(s) ==> last in s;
      hide IsUpper;
    }
  }

  ghost predicate NoCapitals(s: string) {
    forall c | c in s :: !IsUpper(c)
  }

  /** Reads a snake-case name back: an underscore and the letter after it are a capital. */
  ghost function Unsnake(t: string): (r: string) {
    var n := |t|;
    if n == 0 then []
    else if n >= 2 && t[n - 2] == '_' then Unsnake(t[..n - 2]) + [UpperChar(t[n - 1])]
    else Unsnake(t[..n - 1]) + [t[n - 1]]
  }

  /** The words of a name without underscores can be read back: only the case
      of its first letter is lost. */
  lemma {:induction false} SnakeDecodes(s: string)
    requires '_' !in s
    ensures Unsnake(Snake(s)) == if s == [] then [] else [LowerChar(s[0])] + s[1..]
    ensures s != [] ==> Snake(s) != [] && Snake(s)[|Snake(s)| - 1] == LowerChar(s[|s| - 1]) != '_'
  {
    if s != [] {
      var init, last := s[..|s| - 1], s[|s| - 1];
      SnakeDecodes(init);
      var before, t := Snake(init), Snake(s);
      assert s == init + [last];
      assert last in s;
      if init == [] {
        assert t == [LowerChar(last)] && t[..0] == [];
      } else if IsUpper(last) {
        assert t == before + "_" + [LowerChar(last)];
        assert t[..|t| - 2] == before;
      } else {
        assert t == before + [last];
        assert t[..|t| - 1] == before;
      }
    }
  }

  // ---- unions ----

  /** A flattened union has exactly the properties some variant declares, and
      requires exactly the names every variant requires. */
  lemma {:induction false} UnionMeaning(variants: seq<Json>)
    requires variants != []
    ensures FlattenVariants(variants).Some? <==> forall v | v in variants :: v.GetObj("properties").Some?
    ensures FlattenVariants(variants).Some? ==>
              var u := FlattenVariants(variants).value;
              && (forall n :: n in u.properties <==> exists v | v in variants :: v.GetObj("properties").Some? && n in v.GetObj("properties").value)
              && (forall n :: n in u.required <==> forall v | v in variants :: n in StringsOf(ListOrEmpty(v.Get("required"))))
  {
    hide MergeProp, StringsOf;
    var init, last := variants[..|variants| - 1], variants[|variants| - 1];
    assert variants == init + [last];
    if |variants| > 1 {
      UnionMeaning(init);
    }
    if FlattenVariants(variants).Some? {
      var u := FlattenVariants(variants).value;
      var own := last.GetObj("properties").value;
      forall n ensures n in u.properties <==> exists v | v in variants :: v.GetObj("properties").Some? && n in v.GetObj("properties").value {
        assert n in own ==> last in variants;
        if |variants| > 1 {
          assert n in u.properties <==> n in FlattenVariants(init).value.properties || n in own;
        } else {
          assert n in u.properties <==> n in own;
        }
      }
    }
  }

  /** What the variants in turn say about one property. */
  ghost function Descriptions(variants: seq<Json>, name: string): (r: seq<Json>) {
    if variants == [] then []
    else
      var last := variants[|variants| - 1];
      Descriptions(variants[..|variants| - 1], name) +
      (if last.GetObj("properties").Some? && name in last.GetObj("properties").value
       then [last.GetObj("properties").value[name]] else [])
  }

  ghost function FoldProps(props: seq<Json>): (r: Json)
    requires props != []
  {
    if |props| == 1 then props[0] else MergeProp(FoldProps(props[..|props| - 1]), props[|props| - 1])
  }

  /** A property of a flattened union is the fold of its descriptions. */
  lemma {:induction false} UnionFolds(variants: seq<Json>, name: string)
    requires variants != [] && FlattenVariants(variants).Some?
    ensures var u := FlattenVariants(variants).value;
            && (name in u.properties <==> Descriptions(variants, name) != [])
            && (name in u.properties ==> u.properties[name] == FoldProps(Descriptions(variants, name)))
  {
    var init, last := variants[..|variants| - 1], variants[|variants| - 1];
    var properties := last.GetObj("properties").value;
    var before := Descriptions(init, name);
    assert Descriptions(variants, name) == before + (if name in properties then [properties[name]] else []);
    assert init == [] ==> before == [];
    hide MergeProp, Descriptions;
    if |variants| == 1 {
      assert before == [];
    } else {
      UnionFolds(init, name);
    }
    if name in properties {
      FoldOneMore(before, properties[name]);
    } else {
      assert before + [] == before;
    }
  }

  lemma FoldOneMore(props: seq<Json>, prop: Json)
    ensures FoldProps(props + [prop]) == if props == [] then prop else MergeProp(FoldProps(props), prop)
  {
    hide MergeProp;
    assert (props + [prop])[..|props|] == props;
  }

  /** The constants described, in order of first appearance. */
  ghost function Constants(props: seq<Json>): (r: seq<Json>) {
    if props == [] then []
    else
      var before, c := Constants(props[..|props| - 1]), props[|props| - 1].Get("const").GetOr(Null);
      if c in before then before else before + [c]
  }

  ghost predicate Discriminates(prop: Json) {
    prop.Obj? && prop.Get("const").GetOr(Null) != Null && prop.Get("enum").None?
  }

  ghost function Folded(first: Json, constants: seq<Json>): (r: Json) {
    if |constants| == 1 then first else Obj(map["enum" := Arr(constants)])
  }

  lemma FoldStep(first: Json, constants: seq<Json>, prop: Json)
    requires Discriminates(first) && Discriminates(prop)
    requires constants != [] && constants[0] == first.Get("const").value && Null !in constants
    ensures var c := prop.Get("const").value;
            MergeProp(Folded(first, constants), prop) == Folded(first, if c in constants then constants else constants + [c])
  {
    var c := prop.Get("const").value;
    if |constants| == 1 && c !in constants {
      assert constants + [c] == [constants[0], c];
    }
  }

  lemma {:induction false} ConstantsMeaning(props: seq<Json>)
    requires forall p | p in props :: Discriminates(p)
    ensures forall c :: c in Constants(props) <==> exists p | p in props :: p.Get("const") == Some(c)
    ensures Null !in Constants(props)
    ensures props != [] ==> Constants(props) != [] && props[0].Get("const") == Some(Constants(props)[0])
  {
    if props != [] {
      var init, last := props[..|props| - 1], props[|props| - 1];
      assert props == init + [last] && last in props;
      ConstantsMeaning(init);
    }
  }

  /** A discriminator: if every variant gives a property a constant, the union
      gives it all the constants, as an enum if there is more than one. */
  lemma {:induction false} DiscriminatorFolds(props: seq<Json>)
    requires props != [] && forall p | p in props :: Discriminates(p)
    ensures FoldProps(props) == if |Constants(props)| == 1 then props[0] else Obj(map["enum" := Arr(Constants(props))])
    ensures forall c :: c in Constants(props) <==> exists p | p in props :: p.Get("const") == Some(c)
  {
    ConstantsMeaning(props);
    var init, last := props[..|props| - 1], props[|props| - 1];
    assert last in props;
    if |props| == 1 {
      assert Constants(props[..0]) == [];
    } else {
      assert forall p | p in init :: p in props;
      DiscriminatorFolds(init);
      ConstantsMeaning(init);
      assert props[0] == init[0] && props[0] in props;
      hide Discriminates, MergeProp;
      FoldStep(props[0], Constants(init), last);
    }
  }
}
