/** The KANJIDIC2 record classes. Simple records copy their keys with
    `data["k"]` / `data.get("k")`; the character table is a Python dict keyed
    by literal, kept here as an insertion-ordered list of pairs because the
    cross-linking loop iterates it in order. `json.loads(json.dumps(d))` in
    the `to_dict`s is the identity on JSON values and is not modelled. */
module KanjidicTypes {
  import opened Wrappers
  import opened Json
  import opened PyRecord

  // The simple records: `Kanjidic2Codepoint`, `Kanjidic2Radical` and
  // `Kanjidic2Variant` (type, value), `Kanjidic2Meaning` (lang, value),
  // whose `to_dict` is the whole `__dict__`, and the three whose `to_dict`
  // drops None.
  const CodepointFields: seq<Field> := [Req("type", "type"), Req("value", "value")]
  const RadicalFields: seq<Field> := [Req("type", "type"), Req("value", "value")]
  const VariantFields: seq<Field> := [Req("type", "type"), Req("value", "value")]
  const MeaningFields: seq<Field> := [Req("lang", "lang"), Req("value", "value")]
  const DictionaryReferenceFields: seq<Field> := [Req("type", "type"), Opt("morohashi", "morohashi"), Req("value", "value")]
  const QueryCodeFields: seq<Field> :=
    [Req("type", "type"), Opt("skip_misclassification", "skipMisclassification"), Req("value", "value")]
  const ReadingFields: seq<Field> := [Req("type", "type"), Opt("on_type", "onType"), Opt("status", "status"), Req("value", "value")]

  function Codepoint(d: map<string, Json>): Option<seq<Attr>> { Construct(CodepointFields, d) }
  function Radical(d: map<string, Json>): Option<seq<Attr>> { Construct(RadicalFields, d) }
  function Variant(d: map<string, Json>): Option<seq<Attr>> { Construct(VariantFields, d) }
  function Meaning(d: map<string, Json>): Option<seq<Attr>> { Construct(MeaningFields, d) }
  function DictionaryReference(d: map<string, Json>): Option<seq<Attr>> { Construct(DictionaryReferenceFields, d) }
  function QueryCode(d: map<string, Json>): Option<seq<Attr>> { Construct(QueryCodeFields, d) }
  function Reading(d: map<string, Json>): Option<seq<Attr>> { Construct(ReadingFields, d) }

  /** `Kanjidic2Misc`. */
  datatype Misc = Misc(grade: Option<Json>, strokeCounts: Option<Json>, variants: seq<seq<Attr>>,
                       frequency: Option<Json>, radicalNames: Option<Json>, jlptLevel: Option<Json>)
  {
    function ScalarAttrs(): seq<Attr>
    {
      [("grade", grade), ("stroke_counts", strokeCounts), ("frequency", frequency),
       ("radical_names", radicalNames), ("jlpt_level", jlptLevel)]
    }

    /** The non-None attributes, and the variant dicts always. */
    function ToDict(): map<string, Json>
    {
      DropNone(ScalarAttrs())["variants" := ToDicts(variants, AllAttrs)]
    }
  }

  /** `Kanjidic2Misc(data)`: `strokeCounts` is required; `variants` and
      `radicalNames` default to `[]` only when absent (a null `variants`
      cannot be iterated, a null `radicalNames` is kept as None). */
  function NewMisc(d: map<string, Json>): (r: Option<Misc>)
    ensures r.Some? <==> "strokeCounts" in d && MapDicts(GetOr(d, "variants", JArray([])), Variant).Some?
    ensures r.Some? && "variants" !in d ==> r.value.variants == []
    ensures r.Some? && "radicalNames" !in d ==> r.value.radicalNames == Some(JArray([]))
  {
    if "strokeCounts" !in d then None
    else
      match MapDicts(GetOr(d, "variants", JArray([])), Variant)
      case None => None
      case Some(variants) =>
        Some(Misc(GetOpt(d, "grade"), PyValue(d["strokeCounts"]), variants, GetOpt(d, "frequency"),
                  PyValue(GetOr(d, "radicalNames", JArray([]))), GetOpt(d, "jlptLevel")))
  }

  /** `Kanjidic2ReadingMeaning`: only the first group is read. */
  datatype ReadingMeaning = ReadingMeaning(readings: seq<seq<Attr>>, meanings: seq<seq<Attr>>, nanori: Option<Json>,
                                           onyomi: seq<Option<Json>>, kunyomi: seq<Option<Json>>)
  {
    function ToDict(): map<string, Json>
    {
      map["readings" := ToDicts(readings, DropNone), "meanings" := ToDicts(meanings, AllAttrs),
          "nanori" := OrNull(nanori), "onyomi" := JArray(Nulls(onyomi)), "kunyomi" := JArray(Nulls(kunyomi))]
    }
  }

  function OrNull(v: Option<Json>): Json
  {
    if v.Some? then v.value else JNull
  }

  function Nulls(vs: seq<Option<Json>>): (r: seq<Json>)
    ensures |r| == |vs|
  {
    seq(|vs|, i requires 0 <= i < |vs| => OrNull(vs[i]))
  }

  /** `[r.value for r in readings if r.type == t]`, in order. */
  function ValuesOfType(readings: seq<seq<Attr>>, t: string): seq<Option<Json>>
  {
    if readings == [] then []
    else
      var rest := ValuesOfType(readings[1..], t);
      if AttrOf(readings[0], "type") == Some(JString(t)) then [AttrOf(readings[0], "value")] + rest else rest
  }

  /** The first group, when `data["groups"][0]` is a dict. */
  function FirstGroup(d: map<string, Json>): Option<map<string, Json>>
  {
    if "groups" in d && d["groups"].JArray? && |d["groups"].items| > 0 && d["groups"].items[0].JObject?
    then Some(d["groups"].items[0].fields)
    else None
  }

  function NewReadingMeaning(d: map<string, Json>): (r: Option<ReadingMeaning>)
    ensures r.Some? ==> FirstGroup(d).Some?
    ensures r.Some? && "nanori" !in d ==> r.value.nanori == Some(JArray([]))
  {
    match FirstGroup(d)
    case None => None
    case Some(group) =>
      if "readings" !in group || "meanings" !in group then None
      else
        match MapDicts(group["readings"], Reading)
        case None => None
        case Some(readings) =>
          match MapDicts(group["meanings"], Meaning)
          case None => None
          case Some(meanings) =>
            Some(ReadingMeaning(readings, meanings, PyValue(GetOr(d, "nanori", JArray([]))),
                                ValuesOfType(readings, "ja_on"), ValuesOfType(readings, "ja_kun")))
  }

  /** `Kanjidic2Character`. */
  datatype Character = Character(literal: Json, codepoints: seq<seq<Attr>>, radicals: seq<seq<Attr>>, misc: Misc,
                                 dictionaryReferences: seq<seq<Attr>>, queryCodes: seq<seq<Attr>>,
                                 readingMeaning: Option<ReadingMeaning>)
  {
    function ToDict(): map<string, Json>
    {
      var d := map["literal" := literal, "codepoints" := ToDicts(codepoints, AllAttrs),
                   "radicals" := ToDicts(radicals, AllAttrs), "misc" := JObject(misc.ToDict()),
                   "dictionary_references" := ToDicts(dictionaryReferences, DropNone),
                   "query_codes" := ToDicts(queryCodes, DropNone)];
      if readingMeaning.Some? then d["reading_meaning" := JObject(readingMeaning.value.ToDict())] else d
    }
  }

  function NewCharacter(d: map<string, Json>): (r: Option<Character>)
    ensures r.Some? ==> "literal" in d && r.value.literal == d["literal"]
    ensures r.Some? ==> (r.value.readingMeaning.Some? <==> "readingMeaning" in d && Truthy(d["readingMeaning"]))
  {
    if "literal" !in d || "codepoints" !in d || "radicals" !in d || "misc" !in d
       || "dictionaryReferences" !in d || "queryCodes" !in d || !d["misc"].JObject? then None
    else
      match MapDicts(d["codepoints"], Codepoint)
      case None => None
      case Some(codepoints) =>
        match MapDicts(d["radicals"], Radical)
        case None => None
        case Some(radicals) =>
          match NewMisc(d["misc"].fields)
          case None => None
          case Some(misc) =>
            match MapDicts(d["dictionaryReferences"], DictionaryReference)
            case None => None
            case Some(refs) =>
              match MapDicts(d["queryCodes"], QueryCode)
              case None => None
              case Some(codes) =>
                match TruthyDict(d, "readingMeaning", NewReadingMeaning)
                case None => None
                case Some(rm) => Some(Character(d["literal"], codepoints, radicals, misc, refs, codes, rm))
  }

  /** A Python dict keyed by literal: pairs in first-insertion order, each
      key once. */
  type Table = seq<(Json, Character)>

  predicate Hashable(v: Json)
  {
    !v.JArray? && !v.JObject?
  }

  /** The position of `k` in the table, if any. */
  function Find(t: Table, k: Json): (r: Option<nat>)
    ensures r.Some? ==> r.value < |t| && t[r.value].0 == k && forall j :: 0 <= j < r.value ==> t[j].0 != k
    ensures r.None? ==> forall j :: 0 <= j < |t| ==> t[j].0 != k
  {
    if t == [] then None
    else if t[0].0 == k then Some(0)
    else
      match Find(t[1..], k)
      case None => None
      case Some(i) => Some(i + 1)
  }

  /** `t[k] = v`: a new key goes at the end, an existing key keeps its place
      and takes the new value. */
  function Insert(t: Table, k: Json, v: Character): (r: Table)
    ensures Find(t, k).None? ==> r == t + [(k, v)]
    ensures Find(t, k).Some? ==> r == t[Find(t, k).value := (k, v)]
  {
    match Find(t, k)
    case None => t + [(k, v)]
    case Some(i) => t[i := (k, v)]
  }

  /** The dict comprehension over `(literal, character)` pairs in order. */
  function FromPairs(ps: seq<(Json, Character)>): Table
  {
    if ps == [] then [] else Insert(FromPairs(ps[..|ps| - 1]), ps[|ps| - 1].0, ps[|ps| - 1].1)
  }

  /** `Kanjidic2(data).characters`: fails when `characters` is missing, an
      element is not a character dict, or a literal is unhashable. */
  function NewKanjidic2(d: map<string, Json>): (r: Option<Table>)
    ensures r.Some? ==> "characters" in d
  {
    if "characters" !in d then None
    else
      match MapDicts(d["characters"], NewCharacter)
      case None => None
      case Some(chars) =>
        if exists i :: 0 <= i < |chars| && !Hashable(chars[i].literal) then None
        else Some(FromPairs(seq(|chars|, i requires 0 <= i < |chars| => (chars[i].literal, chars[i]))))
  }

  /** `get_character(kanji)`: `characters.get(kanji)`. */
  function GetCharacter(t: Table, kanji: Json): (r: Option<Character>)
    ensures r.None? <==> forall j :: 0 <= j < |t| ==> t[j].0 != kanji
    ensures r.Some? ==> exists j :: 0 <= j < |t| && t[j] == (kanji, r.value)
  {
    match Find(t, kanji)
    case None => None
    case Some(i) => Some(t[i].1)
  }

  /** The value of the last pair with key `k`. */
  function LastWith(ps: seq<(Json, Character)>, k: Json): Option<Character>
  {
    if ps == [] then None
    else if ps[|ps| - 1].0 == k then Some(ps[|ps| - 1].1)
    else LastWith(ps[..|ps| - 1], k)
  }

  predicate DistinctKeys(t: Table)
  {
    forall i, j :: 0 <= i < j < |t| ==> t[i].0 != t[j].0
  }

  /** The table holds each literal once, the last character with that
      literal wins, and an absent literal gives None. */
  lemma FromPairsLastWins(ps: seq<(Json, Character)>, k: Json)
    ensures DistinctKeys(FromPairs(ps))
    ensures GetCharacter(FromPairs(ps), k) == LastWith(ps, k)
    ensures GetCharacter(FromPairs(ps), k).None? <==> forall i :: 0 <= i < |ps| ==> ps[i].0 != k
  {
    FromPairsDistinct(ps);
    FromPairsGet(ps, k);
    LastWithNone(ps, k);
  }

  lemma {:induction false} FromPairsDistinct(ps: seq<(Json, Character)>)
    ensures DistinctKeys(FromPairs(ps))
  {
    if ps != [] {
      var init := ps[..|ps| - 1];
      var last := ps[|ps| - 1];
      var t := FromPairs(init);
      FromPairsDistinct(init);
      var r := Insert(t, last.0, last.1);
      assert r == FromPairs(ps);
      match Find(t, last.0)
      case None =>
        assert r == t + [last];
      case Some(p) =>
        assert r == t[p := last];
        assert forall j :: 0 <= j < |t| ==> r[j].0 == t[j].0;
    }
  }

  lemma {:induction false} FromPairsGet(ps: seq<(Json, Character)>, k: Json)
    ensures GetCharacter(FromPairs(ps), k) == LastWith(ps, k)
  {
    if ps != [] {
      var init := ps[..|ps| - 1];
      var last := ps[|ps| - 1];
      var t := FromPairs(init);
      FromPairsGet(init, k);
      var r := Insert(t, last.0, last.1);
      assert r == FromPairs(ps);
      match Find(t, last.0)
      case None =>
        assert r == t + [last];
        FindAppend(t, last, k);
      case Some(p) =>
        assert r == t[p := last];
        FindSameKeys(t, r, k);
    }
  }

  lemma {:induction false} LastWithNone(ps: seq<(Json, Character)>, k: Json)
    ensures LastWith(ps, k).None? <==> forall i :: 0 <= i < |ps| ==> ps[i].0 != k
  {
    if ps != [] {
      var init := ps[..|ps| - 1];
      LastWithNone(init, k);
      assert forall i :: 0 <= i < |init| ==> ps[i] == init[i];
    }
  }

  lemma FindAppend(t: Table, x: (Json, Character), k: Json)
    ensures Find(t + [x], k) == if Find(t, k).Some? then Find(t, k) else if x.0 == k then Some(|t|) else None
  {
    var r := t + [x];
    assert forall j :: 0 <= j < |t| ==> r[j] == t[j];
    assert r[|t|] == x;
  }

  /** Tables with the same keys in the same places find a key at the same place. */
  lemma FindSameKeys(t: Table, r: Table, k: Json)
    requires |t| == |r| && forall j :: 0 <= j < |t| ==> t[j].0 == r[j].0
    ensures Find(t, k) == Find(r, k)
  {
  }

  /** The literals of a table or of a list of pairs. */
  function Literals(t: Table): set<Json>
  {
    set j | 0 <= j < |t| :: t[j].0
  }

  /** The table's keys are exactly the literals of the pairs. */
  lemma {:induction false} FromPairsKeys(ps: seq<(Json, Character)>)
    ensures Literals(FromPairs(ps)) == Literals(ps)
  {
    if ps != [] {
      var init := ps[..|ps| - 1];
      var last := ps[|ps| - 1];
      FromPairsKeys(init);
      var t := FromPairs(init);
      assert ps == init + [last];
      LiteralsAppend(init, last);
      match Find(t, last.0)
      case None =>
        LiteralsAppend(t, last);
      case Some(p) =>
        LiteralsReplace(t, p, last);
    }
  }

  lemma LiteralsAppend(t: Table, x: (Json, Character))
    ensures Literals(t + [x]) == Literals(t) + {x.0}
  {
    var r := t + [x];
    assert r[|t|].0 == x.0;
    forall y | y in Literals(r) ensures y in Literals(t) + {x.0} {
      var j :| 0 <= j < |r| && r[j].0 == y;
      if j < |t| { assert r[j] == t[j]; }
    }
    forall y | y in Literals(t) ensures y in Literals(r) {
      var j :| 0 <= j < |t| && t[j].0 == y;
      assert r[j] == t[j];
    }
  }

  lemma LiteralsReplace(t: Table, p: nat, x: (Json, Character))
    requires p < |t| && t[p].0 == x.0
    ensures Literals(t[p := x]) == Literals(t)
  {
    var r := t[p := x];
    forall y | y in Literals(r) ensures y in Literals(t) {
      var j :| 0 <= j < |r| && r[j].0 == y;
      assert r[j].0 == t[j].0;
    }
    forall y | y in Literals(t) ensures y in Literals(r) {
      var j :| 0 <= j < |t| && t[j].0 == y;
      assert r[j].0 == t[j].0;
    }
  }

  /** A reading's value is listed under type `t` exactly when the reading
      has type `t`, and the on and kun lists together take no more values
      than there are readings. */
  lemma {:induction false} ValuesOfTypeSpec(rs: seq<seq<Attr>>, t: string)
    ensures forall x :: x in ValuesOfType(rs, t) <==>
      exists i :: 0 <= i < |rs| && AttrOf(rs[i], "type") == Some(JString(t)) && AttrOf(rs[i], "value") == x
    ensures t != "ja_on" ==> |ValuesOfType(rs, "ja_on")| + |ValuesOfType(rs, t)| <= |rs|
  {
    if rs != [] {
      ValuesOfTypeSpec(rs[1..], t);
      ValuesOfTypeSpec(rs[1..], "ja_on");
      forall x ensures x in ValuesOfType(rs, t) <==>
        exists i :: 0 <= i < |rs| && AttrOf(rs[i], "type") == Some(JString(t)) && AttrOf(rs[i], "value") == x
      {
        if x in ValuesOfType(rs, t) && !(AttrOf(rs[0], "type") == Some(JString(t)) && AttrOf(rs[0], "value") == x) {
          var i :| 0 <= i < |rs[1..]| && AttrOf(rs[1..][i], "type") == Some(JString(t)) && AttrOf(rs[1..][i], "value") == x;
          assert rs[i + 1] == rs[1..][i];
        }
        if exists i :: 0 <= i < |rs| && AttrOf(rs[i], "type") == Some(JString(t)) && AttrOf(rs[i], "value") == x {
          var i :| 0 <= i < |rs| && AttrOf(rs[i], "type") == Some(JString(t)) && AttrOf(rs[i], "value") == x;
          if i > 0 {
            assert rs[1..][i - 1] == rs[i];
          }
        }
      }
    }
  }

  /** The list is built reading by reading, in order and keeping
      duplicates: no readings give no values, and one more reading adds its
      value at the end exactly when it has type `t`. */
  lemma {:induction false} ValuesOfTypeInOrder(rs: seq<seq<Attr>>, x: seq<Attr>, t: string)
    ensures ValuesOfType([], t) == []
    ensures ValuesOfType(rs + [x], t) ==
      ValuesOfType(rs, t) + (if AttrOf(x, "type") == Some(JString(t)) then [AttrOf(x, "value")] else [])
  {
    ValuesOfTypeAppend(rs, [x], t);
    assert [x][1..] == [];
  }

  lemma {:induction false} ValuesOfTypeAppend(a: seq<seq<Attr>>, b: seq<seq<Attr>>, t: string)
    ensures ValuesOfType(a + b, t) == ValuesOfType(a, t) + ValuesOfType(b, t)
  {
    if a == [] {
      assert a + b == b;
    } else {
      assert (a + b)[0] == a[0] && (a + b)[1..] == a[1..] + b;
      ValuesOfTypeAppend(a[1..], b, t);
    }
  }

  /** `onyomi` and `kunyomi` are the values of the `ja_on` and `ja_kun`
      readings of the first group, in the readings' order (the lists
      `ValuesOfTypeInOrder` describes); other reading types are in
      neither. */
  lemma OnKunPartition(d: map<string, Json>)
    requires NewReadingMeaning(d).Some?
    ensures var rm := NewReadingMeaning(d).value;
      rm.onyomi == ValuesOfType(rm.readings, "ja_on") && rm.kunyomi == ValuesOfType(rm.readings, "ja_kun")
    ensures var rm := NewReadingMeaning(d).value;
      (forall x :: x in rm.onyomi <==> exists i :: 0 <= i < |rm.readings| && AttrOf(rm.readings[i], "type") == Some(JString("ja_on")) && AttrOf(rm.readings[i], "value") == x)
      && (forall x :: x in rm.kunyomi <==> exists i :: 0 <= i < |rm.readings| && AttrOf(rm.readings[i], "type") == Some(JString("ja_kun")) && AttrOf(rm.readings[i], "value") == x)
      && |rm.onyomi| + |rm.kunyomi| <= |rm.readings|
  {
    var rm := NewReadingMeaning(d).value;
    ValuesOfTypeSpec(rm.readings, "ja_on");
    ValuesOfTypeSpec(rm.readings, "ja_kun");
  }

  /** Readings and meanings come from the first group only: two inputs with
      the same first group and nanori give the same block. */
  lemma OnlyFirstGroup(d: map<string, Json>, e: map<string, Json>)
    requires FirstGroup(d) == FirstGroup(e) && GetOr(d, "nanori", JArray([])) == GetOr(e, "nanori", JArray([]))
    ensures NewReadingMeaning(d) == NewReadingMeaning(e)
  {
  }

  /** `Kanjidic2Misc.to_dict` drops None grade, frequency and JLPT level and
      always carries the variants. */
  lemma MiscToDictKeys(m: Misc)
    ensures "variants" in m.ToDict() && m.ToDict()["variants"] == ToDicts(m.variants, AllAttrs)
    ensures "grade" in m.ToDict() <==> m.grade.Some?
    ensures "frequency" in m.ToDict() <==> m.frequency.Some?
    ensures "jlpt_level" in m.ToDict() <==> m.jlptLevel.Some?
    ensures "stroke_counts" in m.ToDict() <==> m.strokeCounts.Some?
    ensures "radical_names" in m.ToDict() <==> m.radicalNames.Some?
  {
    var a := m.ScalarAttrs();
    DropNoneSpec(a);
    assert a[0].0 == "grade" && a[1].0 == "stroke_counts" && a[2].0 == "frequency";
    assert a[3].0 == "radical_names" && a[4].0 == "jlpt_level";
  }

  /** `Kanjidic2Character.to_dict` has `reading_meaning` exactly when the
      input had a truthy `readingMeaning`. */
  lemma CharacterReadingMeaningKey(d: map<string, Json>)
    requires NewCharacter(d).Some?
    ensures "reading_meaning" in NewCharacter(d).value.ToDict() <==> "readingMeaning" in d && Truthy(d["readingMeaning"])
    ensures NewCharacter(d).value.ToDict()["literal"] == d["literal"]
  {
    CharacterToDictKeys(NewCharacter(d).value);
  }

  lemma CharacterToDictKeys(c: Character)
    ensures "reading_meaning" in c.ToDict() <==> c.readingMeaning.Some?
    ensures "literal" in c.ToDict() && c.ToDict()["literal"] == c.literal
  {
    var d := map["literal" := c.literal, "codepoints" := ToDicts(c.codepoints, AllAttrs),
                 "radicals" := ToDicts(c.radicals, AllAttrs), "misc" := JObject(c.misc.ToDict()),
                 "dictionary_references" := ToDicts(c.dictionaryReferences, DropNone),
                 "query_codes" := ToDicts(c.queryCodes, DropNone)];
    assert "reading_meaning" !in d;
  }
}
