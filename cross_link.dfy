/** The cross-linking loops of data/main2.py: Chinese character entries
    are bucketed under their character, then every Kanjidic character is
    bucketed under its literal and linked to the Chinese character it is
    equivalent to (through the Japanese-variants mapping, or itself). The
    nested `defaultdict(lambda: defaultdict(list))` tables are maps from a
    key to a map from category to list; reading a missing bucket gives `[]`
    and writing one creates it. */
module CrossLink {
  import opened Wrappers
  import opened Json
  import opened CharDictTypes
  import opened KanjidicTypes

  type Buckets = map<string, seq<Json>>
  type Table2 = map<Json, Buckets>

  /** `t[k][cat]`, `[]` when either level is missing. */
  function Bucket(t: Table2, k: Json, cat: string): seq<Json>
  {
    if k in t && cat in t[k] then t[k][cat] else []
  }

  /** `t[k][cat].extend(xs)`: both levels are created when missing, even
      when `xs` is empty. */
  function Extend(t: Table2, k: Json, cat: string, xs: seq<Json>): (r: Table2)
    ensures r.Keys == t.Keys + {k}
    ensures r[k].Keys == (if k in t then t[k].Keys else {}) + {cat}
    ensures forall k' :: k' in t && k' != k ==> r[k'] == t[k']
  {
    var inner := if k in t then t[k] else map[];
    t[k := inner[cat := Bucket(t, k, cat) + xs]]
  }

  /** Extending one bucket leaves every other bucket as it was. */
  lemma ExtendBucket(t: Table2, k: Json, cat: string, xs: seq<Json>, k': Json, cat': string)
    ensures Bucket(Extend(t, k, cat, xs), k', cat') ==
      if k' == k && cat' == cat then Bucket(t, k, cat) + xs else Bucket(t, k', cat')
  {
  }

  // ----- The Chinese character loop (lines 65-68) -----

  function IdOf(e: CharEntry): Json
  {
    if e.Id().Some? then e.Id().value else JNull
  }

  /** What one iteration reads off an entry: the key it is filed under,
      its `to_dict()` and its `_id`. */
  datatype Filed = Filed(key: Json, dict: Json, id: Json)

  function Filing(e: CharEntry): Filed
  {
    Filed(CharKey(e), JObject(e.ToDict()), IdOf(e))
  }

  function Filings(es: seq<CharEntry>): (r: seq<Filed>)
    ensures |r| == |es| && forall i :: 0 <= i < |es| ==> r[i] == Filing(es[i])
  {
    seq(|es|, i requires 0 <= i < |es| => Filing(es[i]))
  }

  /** One iteration; `None` is the TypeError of an unhashable `char`. */
  function ChineseStep(s: (Table2, Table2), f: Filed): Option<(Table2, Table2)>
  {
    if !Hashable(f.key) then None
    else Some((Extend(s.0, f.key, "c_c", [f.dict]), Extend(s.1, f.key, "c", [f.id])))
  }

  lemma ChineseStepOk(s: (Table2, Table2), f: Filed)
    ensures ChineseStep(s, f).Some? <==> Hashable(f.key)
  {
  }

  /** `(data, word_index)` after the loop, both starting empty. */
  function ChineseFold(fs: seq<Filed>): Option<(Table2, Table2)>
  {
    if fs == [] then Some((map[], map[]))
    else
      match ChineseFold(fs[..|fs| - 1])
      case None => None
      case Some(s) => ChineseStep(s, fs[|fs| - 1])
  }

  method IndexChineseChars(es: seq<CharEntry>) returns (r: Option<(Table2, Table2)>)
    ensures r == ChineseFold(Filings(es))
  {
    ghost var fs := Filings(es);
    var data: Table2 := map[];
    var wordIndex: Table2 := map[];
    var i := 0;
    while i < |es|
      invariant 0 <= i <= |es|
      invariant ChineseFold(fs[..i]) == Some((data, wordIndex))
    {
      assert fs[..i + 1][..i] == fs[..i];
      var f := Filing(es[i]);
      if !Hashable(f.key) {
        ChineseStops(fs, i);
        return None;
      }
      data := Extend(data, f.key, "c_c", [f.dict]);
      wordIndex := Extend(wordIndex, f.key, "c", [f.id]);
      i := i + 1;
    }
    assert fs[..i] == fs;
    return Some((data, wordIndex));
  }

  lemma {:induction false} ChineseStops(fs: seq<Filed>, i: nat)
    requires i < |fs| && !Hashable(fs[i].key)
    ensures ChineseFold(fs).None?
  {
    if i < |fs| - 1 {
      ChineseStops(fs[..|fs| - 1], i);
    }
  }

  /** The dicts filed under `k`, in order. */
  function DictsUnder(fs: seq<Filed>, k: Json): seq<Json>
  {
    if fs == [] then []
    else DictsUnder(fs[..|fs| - 1], k) + if fs[|fs| - 1].key == k then [fs[|fs| - 1].dict] else []
  }

  /** The ids filed under `k`, in order. */
  function IdsUnder(fs: seq<Filed>, k: Json): seq<Json>
  {
    if fs == [] then []
    else IdsUnder(fs[..|fs| - 1], k) + if fs[|fs| - 1].key == k then [fs[|fs| - 1].id] else []
  }

  /** The loop succeeds iff every `char` is hashable. */
  lemma {:induction false} ChineseFoldOk(fs: seq<Filed>)
    ensures ChineseFold(fs).Some? <==> forall i :: 0 <= i < |fs| ==> Hashable(fs[i].key)
  {
    if fs != [] {
      ChineseFoldOk(fs[..|fs| - 1]);
      ChineseFoldLast(fs);
      HashableSplit(fs);
    }
  }

  lemma HashableSplit(fs: seq<Filed>)
    requires fs != []
    ensures var init := fs[..|fs| - 1];
      (forall i :: 0 <= i < |fs| ==> Hashable(fs[i].key)) <==>
        (forall i :: 0 <= i < |init| ==> Hashable(init[i].key)) && Hashable(fs[|fs| - 1].key)
  {
    var init := fs[..|fs| - 1];
    assert forall i :: 0 <= i < |init| ==> init[i] == fs[i];
  }

  /** The last entry runs only when the rest succeeded, and fails exactly
      when its `char` is unhashable. */
  lemma ChineseFoldLast(fs: seq<Filed>)
    requires fs != []
    ensures ChineseFold(fs).Some? <==> ChineseFold(fs[..|fs| - 1]).Some? && Hashable(fs[|fs| - 1].key)
  {
    if ChineseFold(fs[..|fs| - 1]).Some? {
      ChineseStepOk(ChineseFold(fs[..|fs| - 1]).value, fs[|fs| - 1]);
    }
  }

  /** Every entry's dict is filed once under `data[char]["c_c"]` and its id
      once under `word_index[char]["c"]`, in input order. */
  lemma {:induction false} ChineseBuckets(fs: seq<Filed>, k: Json)
    requires ChineseFold(fs).Some?
    ensures Bucket(ChineseFold(fs).value.1, k, "c") == IdsUnder(fs, k)
    ensures Bucket(ChineseFold(fs).value.0, k, "c_c") == DictsUnder(fs, k)
  {
    if fs != [] {
      var f := fs[|fs| - 1];
      ChineseBuckets(fs[..|fs| - 1], k);
      var (data, index) := ChineseFold(fs[..|fs| - 1]).value;
      ExtendBucket(index, f.key, "c", [f.id], k, "c");
      ExtendBucket(data, f.key, "c_c", [f.dict], k, "c_c");
    }
  }

  /** The keys filed under. */
  function KeySet(fs: seq<Filed>): set<Json>
  {
    if fs == [] then {} else KeySet(fs[..|fs| - 1]) + {fs[|fs| - 1].key}
  }

  lemma {:induction false} KeySetSpec(fs: seq<Filed>)
    ensures forall k :: k in KeySet(fs) <==> exists i :: 0 <= i < |fs| && fs[i].key == k
  {
    if fs != [] {
      var init := fs[..|fs| - 1];
      KeySetSpec(init);
      forall k | k in KeySet(fs)
        ensures exists i :: 0 <= i < |fs| && fs[i].key == k
      {
        if k != fs[|fs| - 1].key {
          assert k in KeySet(init);
          var i :| 0 <= i < |init| && init[i].key == k;
          assert fs[i].key == k;
        }
      }
      forall k | exists i :: 0 <= i < |fs| && fs[i].key == k
        ensures k in KeySet(fs)
      {
        var i :| 0 <= i < |fs| && fs[i].key == k;
        if i < |init| {
          assert init[i].key == k;
        }
      }
    }
  }

  /** The keys of `word_index` are exactly the entries' characters. */
  lemma {:induction false} ChineseKeys(fs: seq<Filed>)
    requires ChineseFold(fs).Some?
    ensures ChineseFold(fs).value.1.Keys == KeySet(fs)
    ensures forall k :: k in ChineseFold(fs).value.1 <==> exists i :: 0 <= i < |fs| && fs[i].key == k
  {
    KeySetSpec(fs);
    if fs != [] {
      ChineseKeys(fs[..|fs| - 1]);
    }
  }

  /** `data` has the same keys as `word_index`; each key holds only its
      one category in each. */
  lemma {:induction false} ChineseCategories(fs: seq<Filed>)
    requires ChineseFold(fs).Some?
    ensures var (data, index) := ChineseFold(fs).value;
      && data.Keys == index.Keys
      && (forall k :: k in index ==> index[k].Keys == {"c"} && data[k].Keys == {"c_c"})
  {
    if fs != [] {
      ChineseCategories(fs[..|fs| - 1]);
      var (data, index) := ChineseFold(fs[..|fs| - 1]).value;
      var f := fs[|fs| - 1];
      CategoriesStep(data, index, f.key, f.dict, f.id);
    }
  }

  predicate OneCategoryEach(s: (Table2, Table2))
  {
    && s.0.Keys == s.1.Keys
    && forall k :: k in s.1 ==> s.1[k].Keys == {"c"} && s.0[k].Keys == {"c_c"}
  }

  lemma CategoriesStep(data: Table2, index: Table2, k: Json, dict: Json, id: Json)
    requires OneCategoryEach((data, index))
    ensures OneCategoryEach((Extend(data, k, "c_c", [dict]), Extend(index, k, "c", [id])))
  {
    forall k' | k' in Extend(index, k, "c", [id])
      ensures Extend(index, k, "c", [id])[k'].Keys == {"c"} && Extend(data, k, "c_c", [dict])[k'].Keys == {"c_c"}
    {
      CategoryAt(data, index, k, dict, id, k');
    }
  }

  lemma CategoryAt(data: Table2, index: Table2, k: Json, dict: Json, id: Json, k': Json)
    requires OneCategoryEach((data, index)) && k' in Extend(index, k, "c", [id])
    ensures Extend(index, k, "c", [id])[k'].Keys == {"c"} && Extend(data, k, "c_c", [dict])[k'].Keys == {"c_c"}
  {
    if k' != k {
      assert k' in index && k' in data;
    }
  }

  // ----- The Kanjidic linking loop (lines 77-106) -----

  /** The position of the first variants-map item that has the kanji as a
      key (`kanji in item`; only a string can be a key of a JSON object). */
  function FirstContaining(variants: seq<map<string, Json>>, kanji: Json): (r: Option<nat>)
    ensures r.Some? ==> r.value < |variants| && kanji.JString? && kanji.s in variants[r.value]
    ensures r.Some? ==> forall j :: 0 <= j < r.value ==> !(kanji.JString? && kanji.s in variants[j])
    ensures r.None? ==> forall j :: 0 <= j < |variants| ==> !(kanji.JString? && kanji.s in variants[j])
  {
    if variants == [] then None
    else if kanji.JString? && kanji.s in variants[0] then Some(0)
    else
      match FirstContaining(variants[1..], kanji)
      case None => None
      case Some(i) => Some(i + 1)
  }

  /** `zh_char`: the `"t"` of the first item mentioning the kanji, else the
      kanji itself; `None` when that item's value has no `"t"` (a KeyError
      or TypeError). */
  function ZhChar(variants: seq<map<string, Json>>, kanji: Json): (r: Option<Json>)
    ensures FirstContaining(variants, kanji).None? ==> r == Some(kanji)
    ensures FirstContaining(variants, kanji).Some? ==>
      var v := variants[FirstContaining(variants, kanji).value][kanji.s];
      r == if v.JObject? && "t" in v.fields then Some(v.fields["t"]) else None
  {
    match FirstContaining(variants, kanji)
    case None => Some(kanji)
    case Some(i) =>
      var v := variants[i][kanji.s];
      if v.JObject? && "t" in v.fields then Some(v.fields["t"]) else None
  }

  /** A Kanjidic item: its key, and its value when that is a character
      (`None` stands for a value of any other type). */
  type Item = (Json, Option<Character>)

  /** What one iteration reads off an item: the kanji, and the
      character's `to_dict()` when the value is a character. */
  type Row = (Json, Option<Json>)

  function RowOf(item: Item): Row
  {
    (item.0, if item.1.Some? then Some(JObject(item.1.value.ToDict())) else None)
  }

  function Rows(items: seq<Item>): (r: seq<Row>)
    ensures |r| == |items| && forall i :: 0 <= i < |items| ==> r[i] == RowOf(items[i])
  {
    seq(|items|, i requires 0 <= i < |items| => RowOf(items[i]))
  }

  /** One iteration over `(data, not_found_kanjis)`; `word_index` is only
      read. `None` is an exception: a bad variants item or an unhashable
      `zh_char`. */
  function KanjiStep(index: Table2, variants: seq<map<string, Json>>, s: (Table2, seq<Json>), item: Row)
    : Option<(Table2, seq<Json>)>
  {
    var (kanji, entry) := item;
    if entry.None? then Some(s)
    else
      match ZhChar(variants, kanji)
      case None => None
      case Some(zh) =>
        if !Hashable(zh) then None
        else
          var dict := entry.value;
          var data := Extend(s.0, kanji, "j_c", [dict]);
          if zh in index then
            Some((Extend(Extend(data, kanji, "v_c_c", Bucket(index, zh, "c")), zh, "v_j_c", [dict]), s.1))
          else Some((data, s.1 + [kanji]))
  }

  function KanjiFold(index: Table2, variants: seq<map<string, Json>>, s0: (Table2, seq<Json>), items: seq<Row>)
    : Option<(Table2, seq<Json>)>
  {
    if items == [] then Some(s0)
    else
      match KanjiFold(index, variants, s0, items[..|items| - 1])
      case None => None
      case Some(s) => KanjiStep(index, variants, s, items[|items| - 1])
  }

  method LinkKanjidic(index: Table2, variants: seq<map<string, Json>>, data0: Table2, items: seq<Item>)
    returns (r: Option<(Table2, seq<Json>)>)
    ensures r == KanjiFold(index, variants, (data0, []), Rows(items))
  {
    ghost var rows := Rows(items);
    var data := data0;
    var notFound: seq<Json> := [];
    var i := 0;
    while i < |items|
      invariant 0 <= i <= |items|
      invariant KanjiFold(index, variants, (data0, []), rows[..i]) == Some((data, notFound))
    {
      KanjiFoldNext(index, variants, (data0, []), rows, i);
      var next := LinkOne(index, variants, data, notFound, items[i]);
      if next.None? {
        KanjiStops(index, variants, (data0, []), rows, i);
        return None;
      }
      data, notFound := next.value.0, next.value.1;
      i := i + 1;
    }
    assert rows[..i] == rows;
    return Some((data, notFound));
  }

  /** The body of the loop for one item. */
  method LinkOne(index: Table2, variants: seq<map<string, Json>>, data0: Table2, notFound0: seq<Json>, item: Item)
    returns (r: Option<(Table2, seq<Json>)>)
    ensures r == KanjiStep(index, variants, (data0, notFound0), RowOf(item))
  {
    var (kanji, entry) := RowOf(item);
    if entry.None? {
      return Some((data0, notFound0));
    }
    var zh := ZhChar(variants, kanji);
    if zh.None? || !Hashable(zh.value) {
      return None;
    }
    var dict := entry.value;
    var data := Extend(data0, kanji, "j_c", [dict]);
    var notFound := notFound0;
    if zh.value in index {
      data := Extend(data, kanji, "v_c_c", Bucket(index, zh.value, "c"));
      data := Extend(data, zh.value, "v_j_c", [dict]);
    } else {
      notFound := notFound + [kanji];
    }
    return Some((data, notFound));
  }

  /** The fold over one more row is one more step. */
  lemma KanjiFoldNext(index: Table2, variants: seq<map<string, Json>>, s0: (Table2, seq<Json>), items: seq<Row>, i: nat)
    requires i < |items| && KanjiFold(index, variants, s0, items[..i]).Some?
    ensures KanjiFold(index, variants, s0, items[..i + 1]) ==
      KanjiStep(index, variants, KanjiFold(index, variants, s0, items[..i]).value, items[i])
  {
    assert items[..i + 1][..i] == items[..i];
  }

  lemma {:induction false} KanjiStops(index: Table2, variants: seq<map<string, Json>>, s0: (Table2, seq<Json>),
                                      items: seq<Row>, i: nat)
    requires i < |items|
    requires KanjiFold(index, variants, s0, items[..i]).Some?
    requires KanjiStep(index, variants, KanjiFold(index, variants, s0, items[..i]).value, items[i]).None?
    ensures KanjiFold(index, variants, s0, items).None?
    decreases |items|
  {
    if i < |items| - 1 {
      assert items[..|items| - 1][..i] == items[..i];
      KanjiStops(index, variants, s0, items[..|items| - 1], i);
    } else {
      assert items[..|items| - 1] == items[..i];
    }
  }

  /** Each processed kanji takes exactly one of two paths. Linked: the
      not-found list is unchanged, `data[kanji]["v_c_c"]` gains all of
      `word_index[zh_char]["c"]` and `data[zh_char]["v_j_c"]` the kanji's
      dict. Not found: only the kanji is added to the not-found list and
      only `data[kanji]["j_c"]` changes. Either way `data[kanji]["j_c"]`
      gains the dict exactly once. A value that is not a character changes
      nothing. */
  lemma KanjiStepOutcome(index: Table2, variants: seq<map<string, Json>>, s: (Table2, seq<Json>), item: Row)
    requires KanjiStep(index, variants, s, item).Some?
    ensures item.1.None? ==> KanjiStep(index, variants, s, item) == Some(s)
    ensures item.1.Some? ==>
      var (data', notFound') := KanjiStep(index, variants, s, item).value;
      var kanji := item.0;
      var zh := ZhChar(variants, kanji).value;
      var dict := item.1.value;
      && (zh in index <==> notFound' == s.1)
      && (zh !in index <==> notFound' == s.1 + [kanji])
      && (forall k, cat :: (k, cat) != (kanji, "j_c") && (k, cat) != (kanji, "v_c_c") && (k, cat) != (zh, "v_j_c") ==>
            Bucket(data', k, cat) == Bucket(s.0, k, cat))
      && (kanji, "j_c") != (zh, "v_j_c")
      && Bucket(data', kanji, "j_c") == Bucket(s.0, kanji, "j_c") + [dict]
      && (zh in index ==>
            Bucket(data', kanji, "v_c_c") == Bucket(s.0, kanji, "v_c_c") + Bucket(index, zh, "c")
            && Bucket(data', zh, "v_j_c") == Bucket(s.0, zh, "v_j_c") + [dict])
      && (zh !in index ==>
            Bucket(data', kanji, "v_c_c") == Bucket(s.0, kanji, "v_c_c")
            && Bucket(data', zh, "v_j_c") == Bucket(s.0, zh, "v_j_c"))
  {
    if item.1.Some? {
      var kanji := item.0;
      var zh := ZhChar(variants, kanji).value;
      var dict := item.1.value;
      var d1 := Extend(s.0, kanji, "j_c", [dict]);
      forall k, cat
        ensures Bucket(d1, k, cat) == if (k, cat) == (kanji, "j_c") then Bucket(s.0, kanji, "j_c") + [dict] else Bucket(s.0, k, cat)
      {
        ExtendBucket(s.0, kanji, "j_c", [dict], k, cat);
      }
      if zh in index {
        var d2 := Extend(d1, kanji, "v_c_c", Bucket(index, zh, "c"));
        forall k, cat
          ensures Bucket(d2, k, cat) == if (k, cat) == (kanji, "v_c_c") then Bucket(d1, kanji, "v_c_c") + Bucket(index, zh, "c") else Bucket(d1, k, cat)
        {
          ExtendBucket(d1, kanji, "v_c_c", Bucket(index, zh, "c"), k, cat);
        }
        forall k, cat
          ensures Bucket(Extend(d2, zh, "v_j_c", [dict]), k, cat) ==
            if (k, cat) == (zh, "v_j_c") then Bucket(d2, zh, "v_j_c") + [dict] else Bucket(d2, k, cat)
        {
          ExtendBucket(d2, zh, "v_j_c", [dict], k, cat);
        }
      }
    }
  }

  /** The kanjis processed, in order. */
  function Processed(items: seq<Row>): seq<Json>
  {
    if items == [] then []
    else Processed(items[..|items| - 1]) + if items[|items| - 1].1.Some? then [items[|items| - 1].0] else []
  }

  /** The processed kanjis whose equivalent is not indexed, in order. */
  function Unlinked(index: Table2, variants: seq<map<string, Json>>, items: seq<Row>): seq<Json>
  {
    if items == [] then []
    else
      var (kanji, entry) := items[|items| - 1];
      Unlinked(index, variants, items[..|items| - 1]) +
        if entry.Some? && ZhChar(variants, kanji).Some? && ZhChar(variants, kanji).value !in index then [kanji] else []
  }

  /** The number of processed kanjis that were linked. */
  function LinkedCount(index: Table2, variants: seq<map<string, Json>>, items: seq<Row>): nat
  {
    if items == [] then 0
    else
      var (kanji, entry) := items[|items| - 1];
      LinkedCount(index, variants, items[..|items| - 1]) +
        if entry.Some? && ZhChar(variants, kanji).Some? && ZhChar(variants, kanji).value in index then 1 else 0
  }

  /** The dicts filed under `data[k]["j_c"]` by the loop, in order. */
  function JcUnder(items: seq<Row>, k: Json): seq<Json>
  {
    if items == [] then []
    else
      var (kanji, entry) := items[|items| - 1];
      JcUnder(items[..|items| - 1], k) + if entry.Some? && kanji == k then [entry.value] else []
  }

  /** After the whole loop the not-found list is exactly the processed
      kanjis whose equivalent is not indexed, in order, and together with
      the linked ones they account for every processed kanji once. */
  lemma {:induction false} NotFoundSpec(index: Table2, variants: seq<map<string, Json>>, s0: (Table2, seq<Json>), items: seq<Row>)
    requires KanjiFold(index, variants, s0, items).Some?
    ensures KanjiFold(index, variants, s0, items).value.1 == s0.1 + Unlinked(index, variants, items)
    ensures |Unlinked(index, variants, items)| + LinkedCount(index, variants, items) == |Processed(items)|
  {
    if items != [] {
      var init := items[..|items| - 1];
      NotFoundSpec(index, variants, s0, init);
      KanjiStepOutcome(index, variants, KanjiFold(index, variants, s0, init).value, items[|items| - 1]);
    }
  }

  /** One step adds to `data[k]["j_c"]` only the dict of a character
      filed under `k`. */
  lemma StepJc(index: Table2, variants: seq<map<string, Json>>, s: (Table2, seq<Json>), item: Row, k: Json)
    requires KanjiStep(index, variants, s, item).Some?
    ensures Bucket(KanjiStep(index, variants, s, item).value.0, k, "j_c") ==
      Bucket(s.0, k, "j_c") + if item.1.Some? && item.0 == k then [item.1.value] else []
  {
    if item.1.Some? {
      var (kanji, dict) := (item.0, item.1.value);
      var zh := ZhChar(variants, kanji).value;
      var d1 := Extend(s.0, kanji, "j_c", [dict]);
      ExtendBucket(s.0, kanji, "j_c", [dict], k, "j_c");
      if zh in index {
        var d2 := Extend(d1, kanji, "v_c_c", Bucket(index, zh, "c"));
        ExtendBucket(d1, kanji, "v_c_c", Bucket(index, zh, "c"), k, "j_c");
        ExtendBucket(d2, zh, "v_j_c", [dict], k, "j_c");
      }
    }
  }

  /** `data[k]["j_c"]` gains exactly the dicts of the characters filed
      under `k`, in order. */
  lemma {:induction false} JcSpec(index: Table2, variants: seq<map<string, Json>>, s0: (Table2, seq<Json>), items: seq<Row>, k: Json)
    requires KanjiFold(index, variants, s0, items).Some?
    ensures Bucket(KanjiFold(index, variants, s0, items).value.0, k, "j_c") == Bucket(s0.0, k, "j_c") + JcUnder(items, k)
  {
    if items != [] {
      var init := items[..|items| - 1];
      JcSpec(index, variants, s0, init, k);
      StepJc(index, variants, KanjiFold(index, variants, s0, init).value, items[|items| - 1], k);
    }
  }

  /** A character filed under a kanji that no other item shares gains
      exactly one `"j_c"` dict, and a kanji no item is filed under gains
      none; so over a Kanjidic table, whose literals are distinct, every
      character lands in `"j_c"` once. */
  lemma {:induction false} JcOnce(items: seq<Row>, i: nat)
    requires i < |items| && items[i].1.Some?
    requires forall a, b :: 0 <= a < b < |items| ==> items[a].0 != items[b].0
    ensures JcUnder(items, items[i].0) == [items[i].1.value]
  {
    var init := items[..|items| - 1];
    if i == |items| - 1 {
      JcNone(init, items[i].0);
    } else {
      JcOnce(init, i);
    }
  }

  lemma {:induction false} JcNone(items: seq<Row>, k: Json)
    requires forall i :: 0 <= i < |items| ==> items[i].0 != k
    ensures JcUnder(items, k) == []
  {
    if items != [] {
      JcNone(items[..|items| - 1], k);
    }
  }

  /** The items of a Kanjidic table: every value is a character. */
  function TableItems(t: Table): (r: seq<Item>)
    ensures |r| == |t|
    ensures forall i :: 0 <= i < |t| ==> r[i] == (t[i].0, Some(t[i].1))
  {
    seq(|t|, i requires 0 <= i < |t| => (t[i].0, Some(t[i].1)))
  }
}
