/** The stand-alone splitters that write one file per JMdict headword without
    normalising anything: the Python and JavaScript `jmdict2files` scripts
    (every headword) and the older `test.py` (only the first headword). */
module JmdictFiles {
  import opened Wrappers
  import opened JmdictRaw
  import opened Buckets

  /** The two append loops collecting a word's kanji and kana texts. */
  method CollectHeadwords(e: RawEntry) returns (keys: seq<string>)
    ensures keys == HeadwordKeys(e)
  {
    keys := [];
    var kanji := e.kanji.GetOr([]);
    var j := 0;
    while j < |kanji|
      invariant 0 <= j <= |kanji|
      invariant keys == KanjiTexts(e)[..j]
    {
      keys := keys + [kanji[j].text];
      j := j + 1;
    }
    var kana := e.kana.GetOr([]);
    j := 0;
    while j < |kana|
      invariant 0 <= j <= |kana|
      invariant keys == KanjiTexts(e) + KanaTexts(e)[..j]
    {
      keys := keys + [kana[j].text];
      j := j + 1;
    }
  }

  /** `jmdict2files.py`: every word is filed under each of its headwords. */
  method SplitByHeadwordPy(words: seq<RawEntry>) returns (data: map<string, seq<RawEntry>>)
    ensures data == Bucketed(words, HeadwordKeys)
  {
    data := map[];
    var i := 0;
    while i < |words|
      invariant 0 <= i <= |words|
      invariant data == Bucketed(words[..i], HeadwordKeys)
    {
      BucketedStep(words, i, HeadwordKeys);
      var keys := CollectHeadwords(words[i]);
      if keys != [] {
        data := FileUnder(data, keys, words[i]);
      }
      i := i + 1;
    }
    assert words[..i] == words;
  }

  /** `jmdict2files.mjs`: the same buckets in a `Map`, counting the words
      processed (those without headwords included) and the unique keys. */
  method SplitByHeadwordJs(words: seq<RawEntry>)
    returns (data: map<string, seq<RawEntry>>, processed: nat, uniqueKeys: nat)
    ensures data == Bucketed(words, HeadwordKeys)
    ensures processed == |words|
    ensures uniqueKeys == |data.Keys|
  {
    data := map[];
    processed := 0;
    while processed < |words|
      invariant 0 <= processed <= |words|
      invariant data == Bucketed(words[..processed], HeadwordKeys)
    {
      BucketedStep(words, processed, HeadwordKeys);
      var entry := words[processed];
      data := FileUnder(data, HeadwordKeys(entry), entry);
      processed := processed + 1;
    }
    assert words[..processed] == words;
    uniqueKeys := |data.Keys|;
  }

  /** The key `test.py` files a word under: the first kanji text when the
      kanji list is non-empty, else the first kana text when the kana list
      is non-empty, else "". Both lists are read with `[]`, so `None` is the
      KeyError of a word lacking a list that is consulted. */
  function FirstHeadword(e: RawEntry): (r: Option<string>)
    ensures r.None? <==> e.kanji.None? || (e.kanji.value == [] && e.kana.None?)
    ensures r.Some? && r.value != "" ==> r.value in HeadwordKeys(e)
    ensures r.Some? && e.kanji.value != [] ==> r.value == e.kanji.value[0].text
    ensures r.Some? && e.kanji.value == [] && e.kana.value != [] ==> r.value == e.kana.value[0].text
    ensures r == Some("") <== e.kanji.Some? && e.kanji.value == [] && e.kana.Some? && e.kana.value == []
  {
    if e.kanji.None? then None
    else if e.kanji.value != [] then
      assert KanjiTexts(e)[0] == e.kanji.value[0].text;
      Some(e.kanji.value[0].text)
    else if e.kana.None? then None
    else if e.kana.value != [] then
      assert HeadwordKeys(e)[|KanjiTexts(e)|] == e.kana.value[0].text;
      Some(e.kana.value[0].text)
    else Some("")
  }

  /** `if key: data[key].append(entry)`: an empty key files nothing. */
  function FirstKeys(e: RawEntry): seq<string>
  {
    var h := FirstHeadword(e);
    if h.Some? && h.value != "" then [h.value] else []
  }

  /** `test.py`: the run raises KeyError (`None`) as soon as a word lacks a
      list it consults; otherwise each word is filed under its first key. */
  method SplitByFirstHeadword(words: seq<RawEntry>) returns (r: Option<map<string, seq<RawEntry>>>)
    ensures r.None? <==> exists i :: 0 <= i < |words| && FirstHeadword(words[i]).None?
    ensures r.Some? ==> r.value == Bucketed(words, FirstKeys)
  {
    var data: map<string, seq<RawEntry>> := map[];
    var i := 0;
    while i < |words|
      invariant 0 <= i <= |words|
      invariant data == Bucketed(words[..i], FirstKeys)
      invariant forall x :: 0 <= x < i ==> FirstHeadword(words[x]).Some?
    {
      BucketedStep(words, i, FirstKeys);
      var next := FileFirst(data, words[i]);
      if next.None? {
        return None;
      }
      data := next.value;
      i := i + 1;
    }
    assert words[..i] == words;
    return Some(data);
  }

  /** The loop body for one word: KeyError (`None`) when a list it consults
      is missing, otherwise the word is appended to the bucket of its first
      headword, unless that is empty. */
  method FileFirst(data: map<string, seq<RawEntry>>, entry: RawEntry) returns (r: Option<map<string, seq<RawEntry>>>)
    ensures r.None? <==> FirstHeadword(entry).None?
    ensures r.Some? ==> r.value == AppendAll(data, FirstKeys(entry), entry)
  {
    var key := "";
    if entry.kanji.None? {
      return None;
    }
    if entry.kanji.value != [] {
      key := entry.kanji.value[0].text;
    } else {
      if entry.kana.None? {
        return None;
      }
      if entry.kana.value != [] {
        key := entry.kana.value[0].text;
      }
    }
    if key != "" {
      AppendOne(data, [], key, entry);
      assert [] + [key] == [key];
      return Some(data[key := Lookup(data, key) + [entry]]);
    }
    return Some(data);
  }

  /** A word is in the bucket of `k` exactly when its first key is `k`, so
      `test.py` files every word in at most one file. */
  lemma FirstHeadwordBucketExact(words: seq<RawEntry>, k: string, x: RawEntry)
    ensures x in Lookup(Bucketed(words, FirstKeys), k) <==>
      x in words && k != "" && FirstHeadword(x) == Some(k)
  {
    BucketedSpec(words, FirstKeys);
    OccurrencesMember(words, FirstKeys, k, x);
  }
}
