/** What the naming forms do to a word, without their tests on its tail
    (analyze/identity.py: `camel`, `pluralize`, `singularize`, `noun_for`). */
module NamingRules {
  import opened Wrappers
  import opened Json
  import opened Names
  import opened Naming
  import opened NamingProperties

  // ---- tails ----

  lemma TailMeaning(s: string, tail: string)
    ensures EndsWith(s, tail) <==> exists stem :: s == stem + tail
  {
    if EndsWith(s, tail) {
      assert s == s[..|s| - |tail|] + tail;
    }
    if stem :| s == stem + tail {
      assert s[|s| - |tail|..] == tail;
    }
  }

  /** A key `x_id` names the noun `x`, whatever the schema is called. */
  lemma NounOfKey(x: string, schemaName: string)
    requires x != ""
    ensures NounFor(x + "_id", schemaName) == Snake(x)
  {
    var key := x + "_id";
    assert key[|key| - 3..] == "_id" && key[..|key| - 3] == x;
    hide Snake;
  }

  /** The bare `id` names what the schema is called; any other key names itself. */
  lemma NounOfOther(key: string, schemaName: string)
    requires forall x | x != "" :: key != x + "_id"
    ensures NounFor(key, schemaName) == if key == "id" then Singularize(Snake(schemaName)) else Snake(key)
  {
    hide Snake, Singularize;
    if |key| > 3 {
      assert key != key[..|key| - 3] + "_id";
      assert key == key[..|key| - 3] + key[|key| - 3..];
    }
  }

  /** The noun `x` of a candidate `x_id` names a schema that is called so, ends
      so, or is called by its plural. */
  lemma NounNamesMeaning(x: string, own: string)
    ensures NounNames(NounOf(x + "_id"), own) <==> x != "" && ((exists p :: own == p + x) || own == Pluralize(x))
  {
    var c := x + "_id";
    assert c[..|c| - 3] == x;
    TailMeaning(own, x);
    assert own == [] + own;
    hide Pluralize, EndsWith;
  }

  /** A property may be a key unless it declares, by its type or by a schema for
      its parts, that it is an array or an object. */
  lemma ScalarMeaning(prop: Json)
    ensures !ScalarCandidate(prop) <==>
              || (exists t | t in ["array", "object"] ::
                    || prop.Get("type") == Some(Str(t))
                    || (prop.Get("type").Some? && prop.Get("type").value.Arr? && Str(t) in prop.Get("type").value.items))
              || prop.GetObj("items").Some? || prop.GetObj("properties").Some?
  {
    assert "array" in ["array", "object"] && "object" in ["array", "object"];
  }

  // ---- plurals ----

  predicate IsVowel(c: char) {
    c == 'a' || c == 'e' || c == 'i' || c == 'o' || c == 'u'
  }

  /** Words in -ss, -us and -is count as singular despite their s. */
  ghost predicate SingularTail(s: string) {
    |s| >= 2 && s[|s| - 1] == 's' && (s[|s| - 2] == 's' || s[|s| - 2] == 'u' || s[|s| - 2] == 'i')
  }

  ghost predicate Sibilant(s: string) {
    var n := |s|;
    n >= 1 && (s[n - 1] == 's' || s[n - 1] == 'x' || s[n - 1] == 'z' || (n >= 2 && s[n - 1] == 'h' && (s[n - 2] == 'c' || s[n - 2] == 's')))
  }

  lemma OneLetter(s: string, c: char)
    ensures EndsWith(s, [c]) <==> s != "" && s[|s| - 1] == c
  {
    if s != "" { assert s[|s| - 1..] == [s[|s| - 1]]; }
  }

  lemma TwoLetters(s: string, c: char, d: char)
    ensures EndsWith(s, [c, d]) <==> |s| >= 2 && s[|s| - 2] == c && s[|s| - 1] == d
  {
    if |s| >= 2 { assert s[|s| - 2..] == [s[|s| - 2], s[|s| - 1]]; }
  }

  lemma SingularTailMeaning(s: string)
    ensures EndsWithAny(s, SINGULAR_S_ENDINGS) <==> SingularTail(s)
  {
    TwoLetters(s, 's', 's');
    TwoLetters(s, 'u', 's');
    TwoLetters(s, 'i', 's');
    assert SINGULAR_S_ENDINGS[0] == ['s', 's'] && SINGULAR_S_ENDINGS[1] == ['u', 's'] && SINGULAR_S_ENDINGS[2] == ['i', 's'];
    hide EndsWith;
  }

  lemma SibilantMeaning(s: string)
    ensures EndsWithAny(s, ["s", "x", "z", "ch", "sh"]) <==> Sibilant(s)
  {
    OneLetter(s, 's');
    OneLetter(s, 'x');
    OneLetter(s, 'z');
    TwoLetters(s, 'c', 'h');
    TwoLetters(s, 's', 'h');
    var endings := ["s", "x", "z", "ch", "sh"];
    assert endings[0] == ['s'] && endings[1] == ['x'] && endings[2] == ['z'] && endings[3] == ['c', 'h'] && endings[4] == ['s', 'h'];
    hide EndsWith;
  }

  /** How a plural is formed, by the last letters. */
  lemma PluralMeaning(s: string)
    ensures var (n, p) := (|s|, Pluralize(s));
            if n >= 1 && s[n - 1] == 's' && !SingularTail(s) then p == s
            else if Sibilant(s) then p == s + "es"
            else if n >= 2 && s[n - 1] == 'y' && !IsVowel(s[n - 2]) then p == s[..n - 1] + "ies"
            else p == s + "s"
  {
    OneLetter(s, 's');
    OneLetter(s, 'y');
    SingularTailMeaning(s);
    SibilantMeaning(s);
    assert "aeiou" == ['a', 'e', 'i', 'o', 'u'];
    assert forall c :: c in "aeiou" <==> IsVowel(c);
    hide EndsWith, EndsWithAny;
  }

  lemma Plurals()
    ensures Pluralize("order") == "orders" && Pluralize("orders") == "orders" && Pluralize("status") == "statuses"
    ensures Pluralize("box") == "boxes" && Pluralize("branch") == "branches" && Pluralize("wish") == "wishes" && Pluralize("quiz") == "quizes"
    ensures Pluralize("category") == "categories" && Pluralize("day") == "days" && Pluralize("class") == "classes" && Pluralize("axis") == "axises"
  {
    PluralMeaning("order");
    PluralMeaning("orders");
    PluralMeaning("status");
    PluralMeaning("box");
    PluralMeaning("branch");
    PluralMeaning("wish");
    PluralMeaning("quiz");
    PluralMeaning("category");
    PluralMeaning("day");
    PluralMeaning("class");
    PluralMeaning("axis");
    hide Pluralize;
    assert "category"[..7] == "categor";
  }

  // ---- singulars ----

  /** What pluralizes to a segment: itself, or a stem that gained -s, -es or -ies. */
  lemma PluralOf(w: string, segment: string)
    requires Pluralize(w) == segment
    ensures w == segment || segment == w + "s" || segment == w + "es" || (w != "" && w[|w| - 1] == 'y' && segment == w[..|w| - 1] + "ies")
  {
    PluralMeaning(w);
    hide Pluralize;
  }

  lemma Cut(w: string, tail: string)
    ensures EndsWith(w + tail, tail) && (w + tail)[..|w + tail| - |tail|] == w
  {
  }

  /** The three reductions never compete: what gained -ies did not gain -es. */
  lemma NotBoth(segment: string, w: string)
    requires segment == w + "es" && EndsWith(segment, "ies")
    ensures Pluralize(w) != segment
  {
    assert segment[|segment| - 3..][0] == 'i';
    assert w[|w| - 1] == 'i';
    PluralMeaning(w);
    hide Pluralize;
    assert |w + "s"| < |segment|;
  }

  /** A reduction that pluralizes back is found, unless a shorter one is. */
  lemma CutS(segment: string, w: string)
    requires w != "" && Pluralize(w) == segment == w + "s" && !SingularTail(segment)
    ensures var r := SingularSegment(segment); r == w || (r != "" && Pluralize(r) == segment && |r| < |w|)
  {
    SingularTailMeaning(segment);
    Cut(w, "s");
    assert EndsWith(segment, "ies") ==> |segment| >= 3;
    hide Pluralize, EndsWith, EndsWithAny, SingularTail;
  }

  lemma CutEs(segment: string, w: string)
    requires w != "" && Pluralize(w) == segment == w + "es" && !SingularTail(segment)
    ensures SingularSegment(segment) == w
  {
    SingularTailMeaning(segment);
    Cut(w, "es");
    if EndsWith(segment, "ies") { NotBoth(segment, w); }
    hide Pluralize, EndsWith, EndsWithAny, SingularTail;
  }

  lemma CutIes(segment: string, w: string)
    requires w != "" && w[|w| - 1] == 'y' && Pluralize(w) == segment == w[..|w| - 1] + "ies" && !SingularTail(segment)
    ensures SingularSegment(segment) == w
  {
    SingularTailMeaning(segment);
    Cut(w[..|w| - 1], "ies");
    assert w == w[..|w| - 1] + "y";
    hide Pluralize, EndsWith, EndsWithAny, SingularTail;
  }

  lemma NeverLonger(segment: string)
    ensures |SingularSegment(segment)| < |segment| || SingularSegment(segment) == segment
  {
    hide Pluralize, EndsWithAny;
  }

  /** A segment that is not in -ss, -us or -is is reduced to the shortest word
      that pluralizes to it, if there is one. */
  lemma ShortestSingular(segment: string, w: string)
    requires w != "" && Pluralize(w) == segment && !SingularTail(segment)
    ensures var r := SingularSegment(segment);
            && r != "" && Pluralize(r) == segment && |r| <= |w| && (|r| == |w| ==> r == w)
  {
    hide *;
    PluralOf(w, segment);
    if segment == w {
      NeverLonger(segment);
      SingularRoundTrip(segment);
    } else if segment == w + "s" {
      CutS(segment, w);
    } else if segment == w + "es" {
      CutEs(segment, w);
    } else {
      CutIes(segment, w);
    }
  }

  /** Words in -ss, -us and -is, and words that are no plural, stay. */
  lemma StaysSingular(segment: string)
    ensures SingularTail(segment) ==> SingularSegment(segment) == segment
    ensures (forall w :: w != "" ==> Pluralize(w) != segment) ==> SingularSegment(segment) == segment
  {
    SingularTailMeaning(segment);
    SingularRoundTrip(segment);
    hide Pluralize, EndsWith, EndsWithAny, SingularTail;
    if segment != "" { assert SingularSegment(segment) != ""; }
    if segment == "" { EmptySegment(); }
  }

  lemma EmptySegment()
    ensures SingularSegment("") == ""
  {
  }

  // ---- segments ----

  lemma {:induction false} NonEmptyAppend(a: seq<string>, b: seq<string>)
    ensures NonEmpty(a + b) == NonEmpty(a) + NonEmpty(b)
  {
    if a == [] {
      assert a + b == b;
    } else {
      assert (a + b)[1..] == a[1..] + b;
      NonEmptyAppend(a[1..], b);
    }
  }

  /** The segments of a name are its words between underscores, empty ones left out. */
  lemma SegmentsMeaning(a: string, b: string)
    ensures Segments(a + "_" + b) == Segments(a) + Segments(b)
    ensures '_' !in a ==> Segments(a) == if a == "" then [] else [a]
  {
    SplitAround(a, b, '_');
    NonEmptyAppend(Split(a, '_'), Split(b, '_'));
    if '_' !in a {
      SplitPlain(a, '_');
      assert [a][1..] == [];
    }
    hide Split;
  }

  lemma {:induction false} SegmentsOfWords(words: seq<string>)
    requires words != [] && forall w | w in words :: w != "" && '_' !in w
    ensures Segments(Join(words, '_')) == words
  {
    assert words[0] in words;
    if |words| == 1 {
      SegmentsMeaning(words[0], "");
      assert words == [words[0]];
    } else {
      assert forall w | w in words[1..] :: w in words;
      SegmentsOfWords(words[1..]);
      SegmentsMeaning(words[0], Join(words[1..], '_'));
      assert words == [words[0]] + words[1..];
    }
    hide Segments;
  }

  /** Only the last word of a name is reduced. */
  lemma SingularizeMeaning(words: seq<string>)
    requires words != [] && forall w | w in words :: w != "" && '_' !in w
    ensures var n := |words| - 1;
            Singularize(Join(words, '_')) == Join(words[..n] + [SingularSegment(words[n])], '_')
  {
    SegmentsOfWords(words);
    hide Segments, SingularSegment;
  }

  lemma NoWords(noun: string)
    requires forall c | c in noun :: c == '_'
    ensures Singularize(noun) == noun
  {
    NoSegments(noun);
    hide Segments;
  }

  lemma {:induction false} NoSegments(noun: string)
    requires forall c | c in noun :: c == '_'
    ensures Segments(noun) == []
  {
    if noun != "" {
      assert noun[0] in noun && forall c | c in noun[1..] :: c in noun;
      assert noun == "" + "_" + noun[1..];
      SegmentsMeaning("", noun[1..]);
      NoSegments(noun[1..]);
    }
  }

  /** A noun is a stem of a holder's name if its words, in the singular, are the
      first of the holder's. */
  lemma StemMeaning(noun: seq<string>, holder: seq<string>)
    requires noun != [] && holder != []
    requires forall w | w in noun + holder :: w != "" && '_' !in w
    ensures NounIsStem(Join(noun, '_'), Join(holder, '_')) <==>
              |noun| <= |holder| && forall i | 0 <= i < |noun| :: SingularSegment(noun[i]) == SingularSegment(holder[i])
  {
    assert forall w | w in noun :: w in noun + holder;
    assert forall w | w in holder :: w in noun + holder;
    SegmentsOfWords(noun);
    SegmentsOfWords(holder);
    hide Segments, SingularSegment, SingularSegments, Join;
    SingularsAgree(noun, holder);
  }

  lemma SingularsAgree(noun: seq<string>, holder: seq<string>)
    requires noun != []
    ensures SingularSegments(noun) != []
    ensures SingularSegments(noun) <= SingularSegments(holder) <==>
              |noun| <= |holder| && forall i | 0 <= i < |noun| :: SingularSegment(noun[i]) == SingularSegment(holder[i])
  {
    hide SingularSegment;
    var want, have := SingularSegments(noun), SingularSegments(holder);
    if want <= have {
      forall i | 0 <= i < |noun| ensures SingularSegment(noun[i]) == SingularSegment(holder[i]) { assert want[i] == have[i]; }
    }
  }

  // ---- camel case ----

  lemma CaseMeaning(c: char)
    ensures IsUpper(c) ==> UpperChar(LowerChar(c)) == c && !IsUpper(LowerChar(c))
    ensures !IsUpper(c) ==> LowerChar(c) == c && (UpperChar(c) == c || (IsUpper(UpperChar(c)) && LowerChar(UpperChar(c)) == c))
    ensures 'a' <= c <= 'z' ==> IsUpper(UpperChar(c))
  {
  }

  /** One more character goes to the last part, or starts another. */
  ghost function Extended(parts: seq<string>, c: char, sep: char): (r: seq<string>)
    requires parts != []
  {
    if c == sep then parts + [""] else parts[..|parts| - 1] + [parts[|parts| - 1] + [c]]
  }

  lemma {:induction false} SplitOneMore(s: string, c: char, sep: char)
    ensures Split(s + [c], sep) == Extended(Split(s, sep), c, sep)
  {
    hide Split;
    if s == [] {
      SplitStep(c, [], sep);
      assert s + [c] == [c] + [];
    } else {
      var t := s[1..];
      var rest := Split(t, sep);
      SplitOneMore(t, c, sep);
      SplitStep(s[0], t, sep);
      SplitStep(s[0], t + [c], sep);
      assert s == [s[0]] + t && s + [c] == [s[0]] + (t + [c]);
      if s[0] == sep {
        assert [""] + Extended(rest, c, sep) == Extended([""] + rest, c, sep);
      } else {
        var more := Extended(rest, c, sep);
        if |rest| == 1 {
          assert [s[0]] + (rest[0] + [c]) == [s[0]] + rest[0] + [c];
        } else {
          assert more[0] == rest[0];
        }
        assert [[s[0]] + more[0]] + more[1..] == Extended([[s[0]] + rest[0]] + rest[1..], c, sep);
      }
    }
  }

  lemma {:induction false} CapitalizedAppend(parts: seq<string>, p: string)
    ensures Capitalized(parts + [p]) == Capitalized(parts) + Capitalize(p)
  {
    if parts == [] {
      assert [] + [p] == [p] && [p][1..] == [];
    } else {
      assert (parts + [p])[1..] == parts[1..] + [p];
      CapitalizedAppend(parts[1..], p);
    }
  }

  lemma CapitalizeOneMore(p: string, c: char)
    requires !IsUpper(c)
    ensures Capitalize(p + [c]) == Capitalize(p) + [if p == "" then UpperChar(c) else c]
    ensures Capitalize("") == ""
  {
    if p == "" {
      assert p + [c] == [c];
    } else {
      assert (p + [c])[1..] == p[1..] + [c];
      assert Lower((p + [c])[1..]) == Lower(p[1..]) + [c];
    }
    hide UpperChar;
  }

  /** A letter after an underscore, or at the start, becomes a capital. */
  lemma CamelOneMore(s: string, c: char)
    requires c != '_' && !IsUpper(c)
    ensures Camel(s + "_") == Camel(s)
    ensures Camel(s + [c]) == Camel(s) + [if s == "" || s[|s| - 1] == '_' then UpperChar(c) else c]
  {
    var parts := Split(s, '_');
    var n := |parts| - 1;
    SplitOneMore(s, c, '_');
    SplitOneMore(s, '_', '_');
    LastPartEmpty(s);
    hide Split, Capitalized, UpperChar, IsUpper, Capitalize;
    CapitalizedAppend(parts, "");
    CapitalizedAppend(parts[..n], parts[n]);
    CapitalizedAppend(parts[..n], parts[n] + [c]);
    CapitalizeOneMore(parts[n], c);
    assert parts == parts[..n] + [parts[n]];
    assert Capitalized(parts) + "" == Capitalized(parts);
  }

  lemma {:induction false} LastPartEmpty(s: string)
    ensures var parts := Split(s, '_'); parts[|parts| - 1] == "" <==> s == "" || s[|s| - 1] == '_'
  {
    if s != "" {
      SplitOneMore(s[..|s| - 1], s[|s| - 1], '_');
      assert s == s[..|s| - 1] + [s[|s| - 1]];
      hide Split;
    }
  }

  lemma SnakeOneMore(init: string, last: char)
    ensures Snake(init + [last]) == Snake(init) + (if IsUpper(last) && init != [] then "_" else "") + [LowerChar(last)]
  {
    assert (init + [last])[..|init|] == init;
  }

  lemma LastLetter(s: string)
    requires '_' !in s
    ensures s != "" ==> Snake(s) != "" && Snake(s)[|Snake(s)| - 1] != '_'
  {
    SnakeDecodes(s);
  }

  lemma CamelSnakeStep(init: string, last: char)
    requires last != '_' && '_' !in init
    ensures Camel(Snake(init + [last])) == Camel(Snake(init)) + [if init == "" then UpperChar(LowerChar(last)) else last]
  {
    var before, c := Snake(init), LowerChar(last);
    EmptyCamel();
    LastLetter(init);
    SnakeOneMore(init, last);
    CaseMeaning(last);
    assert c != '_';
    hide Camel, UpperChar, IsUpper, Snake, LowerChar;
    if IsUpper(last) && init != "" {
      CamelOneMore(before, c);
      CamelOneMore(before + "_", c);
      assert (before + "_")[|before + "_"| - 1] == '_';
    } else {
      assert before + "" + [c] == before + [c];
      CamelOneMore(before, c);
    }
  }

  /** A name in camel case comes back from snake case, but for its first letter. */
  lemma {:induction false} CamelSnake(s: string)
    requires '_' !in s
    ensures Camel(Snake(s)) == if s == "" then "" else [UpperChar(LowerChar(s[0]))] + s[1..]
  {
    EmptyCamel();
    hide Camel, Snake, UpperChar, LowerChar;
    if s != "" {
      var init, last := s[..|s| - 1], s[|s| - 1];
      assert s == init + [last] && last in s;
      CamelSnake(init);
      CamelSnakeStep(init, last);
    }
  }

  lemma EmptyCamel()
    ensures Snake("") == "" && Camel("") == ""
  {
    assert Split("", '_') == [""];
    assert [""][1..] == [];
  }

  // ---- one property, described twice ----

  ghost predicate HasConst(prop: Json) {
    prop.Get("const").Some? && prop.Get("const") != Some(Null)
  }

  /** Where there is nothing to fold, the first description of a property stands. */
  lemma FirstStands(existing: Json, prop: Json)
    requires existing != Null && (!existing.Obj? || !HasConst(prop) || existing.Get("const") == prop.Get("const"))
    requires existing.Get("enum").Some? ==> !HasConst(prop)
    ensures MergeProp(existing, prop) == existing
  {
  }

  /** Two constants make an enum, which each further constant extends. */
  lemma ConstantsMerge(existing: Json, prop: Json, values: seq<Json>)
    requires existing.Obj? && HasConst(prop)
    ensures HasConst(existing) && existing.Get("const") != prop.Get("const") ==>
              MergeProp(existing, prop) == Obj(map["enum" := Arr([existing.Get("const").value, prop.Get("const").value])])
    ensures !HasConst(existing) && existing.Get("enum") == Some(Arr(values)) ==>
              MergeProp(existing, prop) == if prop.Get("const").value in values then existing else Obj(map["enum" := Arr(values + [prop.Get("const").value])])
    ensures MergeProp(Null, prop) == prop
  {
  }
}
