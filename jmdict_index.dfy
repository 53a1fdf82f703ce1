/** The loop that both dictionary builders (the Python one and its JavaScript
    port) run over the JMdict words: file every word under each of its
    headwords, record its position in the word index, and keep its compact
    form by position. */
module JmdictIndex {
  import opened Wrappers
  import opened Json
  import opened JmdictRaw
  import opened EntryClean
  import opened Buckets

  /** What the loop builds: `data` (headword to raw words), the `"j"` lists of
      `word_index` (headword to word positions) and `jmdict_entries`
      (position to compact form). */
  datatype Index = Index(data: map<string, seq<RawEntry>>,
                         wordIndex: map<string, seq<int>>,
                         entries: map<int, map<string, Json>>)

  /** The headwords of the word at a position. */
  function KeysAt(words: seq<RawEntry>): int -> seq<string>
  {
    i => if 0 <= i < |words| then HeadwordKeys(words[i]) else []
  }

  /** Whether normalising some word that has a headword fails. */
  predicate Fails(words: seq<RawEntry>, clean: RawEntry -> Option<map<string, Json>>)
  {
    exists i :: 0 <= i < |words| && HeadwordKeys(words[i]) != [] && clean(words[i]).None?
  }

  /** The compact form of every word that has a headword, by position. */
  function Stored(words: seq<RawEntry>, clean: RawEntry -> Option<map<string, Json>>): map<int, map<string, Json>>
  {
    map i | 0 <= i < |words| && HeadwordKeys(words[i]) != [] && clean(words[i]).Some? :: clean(words[i]).value
  }

  /** The index built from `words` when no normalisation fails. */
  function Indexed(words: seq<RawEntry>, clean: RawEntry -> Option<map<string, Json>>): Index
  {
    Index(Bucketed(words, HeadwordKeys), Bucketed(Indices(|words|), KeysAt(words)), Stored(words, clean))
  }

  /** The two inner loops over a word's kanji and kana spellings: collect
      its headwords and append its position to each headword's index list. */
  method RecordHeadwords(e: RawEntry, wordIndex: map<string, seq<int>>, pos: int)
    returns (keys: seq<string>, wordIndex': map<string, seq<int>>)
    ensures keys == HeadwordKeys(e)
    ensures wordIndex' == AppendAll(wordIndex, keys, pos)
  {
    keys, wordIndex' := RecordKanji(e, wordIndex, pos);
    keys, wordIndex' := RecordKana(e, keys, wordIndex', pos);
    AppendAllConcat(wordIndex, KanjiTexts(e), KanaTexts(e), pos);
  }

  /** `for kanji in entry.get("kanji", [])`: one key and one position per spelling. */
  method RecordKanji(e: RawEntry, wordIndex: map<string, seq<int>>, pos: int)
    returns (keys: seq<string>, wordIndex': map<string, seq<int>>)
    ensures keys == KanjiTexts(e)
    ensures wordIndex' == AppendAll(wordIndex, keys, pos)
  {
    keys := [];
    wordIndex' := wordIndex;
    var kanji := e.kanji.GetOr([]);
    var j := 0;
    while j < |kanji|
      invariant 0 <= j <= |kanji|
      invariant keys == KanjiTexts(e)[..j]
      invariant wordIndex' == AppendAll(wordIndex, keys, pos)
    {
      var text := kanji[j].text;
      AppendOne(wordIndex, keys, text, pos);
      keys := keys + [text];
      wordIndex' := wordIndex'[text := Lookup(wordIndex', text) + [pos]];
      assert KanjiTexts(e)[..j + 1] == KanjiTexts(e)[..j] + [text];
      j := j + 1;
    }
    assert KanjiTexts(e)[..j] == KanjiTexts(e);
  }

  /** `for kana in entry.get("kana", [])`, continuing the keys collected so far. */
  method RecordKana(e: RawEntry, keys0: seq<string>, wordIndex: map<string, seq<int>>, pos: int)
    returns (keys: seq<string>, wordIndex': map<string, seq<int>>)
    ensures keys == keys0 + KanaTexts(e)
    ensures wordIndex' == AppendAll(wordIndex, KanaTexts(e), pos)
  {
    keys := keys0;
    wordIndex' := wordIndex;
    var kana := e.kana.GetOr([]);
    var j := 0;
    while j < |kana|
      invariant 0 <= j <= |kana|
      invariant keys == keys0 + KanaTexts(e)[..j]
      invariant wordIndex' == AppendAll(wordIndex, KanaTexts(e)[..j], pos)
    {
      var text := kana[j].text;
      assert KanaTexts(e)[..j + 1] == KanaTexts(e)[..j] + [text];
      AppendOne(wordIndex, KanaTexts(e)[..j], text, pos);
      keys := keys + [text];
      wordIndex' := wordIndex'[text := Lookup(wordIndex', text) + [pos]];
      j := j + 1;
    }
    assert KanaTexts(e)[..j] == KanaTexts(e);
  }

  /* One more word extends each specification by that word alone. */

  lemma WordIndexStep(words: seq<RawEntry>, i: nat)
    requires i < |words|
    ensures Bucketed(Indices(i + 1), KeysAt(words)) == AppendAll(Bucketed(Indices(i), KeysAt(words)), HeadwordKeys(words[i]), i)
  {
    assert Indices(i + 1)[..i] == Indices(i);
  }

  lemma StoredStep(words: seq<RawEntry>, i: nat, clean: RawEntry -> Option<map<string, Json>>)
    requires i < |words|
    ensures Stored(words[..i + 1], clean) ==
      if HeadwordKeys(words[i]) != [] && clean(words[i]).Some?
      then Stored(words[..i], clean)[i := clean(words[i]).value] else Stored(words[..i], clean)
  {
    var w := words[..i + 1];
    assert forall x | 0 <= x < i :: w[x] == words[..i][x];
  }

  lemma FailsStep(words: seq<RawEntry>, i: nat, clean: RawEntry -> Option<map<string, Json>>)
    requires i < |words|
    ensures Fails(words[..i + 1], clean) <==>
      Fails(words[..i], clean) || (HeadwordKeys(words[i]) != [] && clean(words[i]).None?)
  {
    var w := words[..i + 1];
    assert forall x | 0 <= x < i :: w[x] == words[..i][x];
    if Fails(w, clean) {
      var x :| 0 <= x < |w| && HeadwordKeys(w[x]) != [] && clean(w[x]).None?;
      if x < i {
        assert words[..i][x] == w[x];
      }
    }
  }

  /** The shared loop, given the normaliser. A word without headwords is
      skipped after contributing nothing; a normaliser failure aborts the
      whole run (`None`), after the buckets of that word were filled. */
  method IndexWords(words: seq<RawEntry>, clean: RawEntry -> Option<map<string, Json>>) returns (r: Option<Index>)
    ensures r.None? <==> Fails(words, clean)
    ensures r.Some? ==> r.value == Indexed(words, clean)
  {
    var data: map<string, seq<RawEntry>> := map[];
    var wordIndex: map<string, seq<int>> := map[];
    var entries: map<int, map<string, Json>> := map[];
    var i := 0;
    while i < |words|
      invariant 0 <= i <= |words|
      invariant data == Bucketed(words[..i], HeadwordKeys)
      invariant wordIndex == Bucketed(Indices(i), KeysAt(words))
      invariant entries == Stored(words[..i], clean)
      invariant !Fails(words[..i], clean)
    {
      var e := words[i];
      BucketedStep(words, i, HeadwordKeys);
      WordIndexStep(words, i);
      StoredStep(words, i, clean);
      FailsStep(words, i, clean);
      var keys;
      keys, wordIndex := RecordHeadwords(e, wordIndex, i);
      if keys != [] {
        data := FileUnder(data, keys, e);
        var c := clean(e);
        if c.None? {
          FailsAnywhere(words, i, clean);
          return None;
        }
        entries := entries[i := c.value];
      }
      i := i + 1;
    }
    assert words[..i] == words;
    return Some(Index(data, wordIndex, entries));
  }

  lemma FailsAnywhere(words: seq<RawEntry>, i: nat, clean: RawEntry -> Option<map<string, Json>>)
    requires i < |words| && HeadwordKeys(words[i]) != [] && clean(words[i]).None?
    ensures Fails(words, clean)
  {
  }

  /** The Python builder's normaliser. */
  function PyCleaner(toRoma: string -> string): RawEntry -> Option<map<string, Json>>
  {
    e => CleanEntryRomanised(e, toRoma)
  }

  /** The JavaScript builder's normaliser, which cannot fail. */
  function JsCleaner(e: RawEntry): Option<map<string, Json>>
  {
    Some(CleanEntryJs(e))
  }

  /** A word the Python builder cannot normalise: it has a headword, but no
      `kanji`, `kana` or `sense` key. */
  predicate LacksAList(e: RawEntry)
  {
    HeadwordKeys(e) != [] && (e.kanji.None? || e.kana.None? || e.sense.None?)
  }

  /** The Python builder: the run raises KeyError exactly when some word with
      a headword lacks one of the three lists. */
  method IndexJmdictPy(words: seq<RawEntry>, toRoma: string -> string) returns (r: Option<Index>)
    ensures r.None? <==> exists i :: 0 <= i < |words| && LacksAList(words[i])
    ensures r.Some? ==> r.value == Indexed(words, PyCleaner(toRoma))
  {
    r := IndexWords(words, PyCleaner(toRoma));
    if r.None? {
      var i :| 0 <= i < |words| && HeadwordKeys(words[i]) != [] && PyCleaner(toRoma)(words[i]).None?;
      assert LacksAList(words[i]);
    }
  }

  /** The JavaScript builder never aborts. */
  method IndexJmdictJs(words: seq<RawEntry>) returns (idx: Index)
    ensures idx == Indexed(words, JsCleaner)
  {
    var r := IndexWords(words, JsCleaner);
    idx := r.value;
  }

  /** A headword's bucket holds exactly the words having it as a headword, and
      buckets exist for exactly the headwords of the input. */
  lemma DataBucketsExact(words: seq<RawEntry>, clean: RawEntry -> Option<map<string, Json>>, k: string, x: RawEntry)
    ensures x in Lookup(Indexed(words, clean).data, k) <==>
      exists i :: 0 <= i < |words| && words[i] == x && k in HeadwordKeys(words[i])
    ensures k in Indexed(words, clean).data <==> exists i :: 0 <= i < |words| && k in HeadwordKeys(words[i])
  {
    BucketedSpec(words, HeadwordKeys);
    OccurrencesMember(words, HeadwordKeys, k, x);
    if k in AllKeys(words, HeadwordKeys) {
      var i, j :| 0 <= i < |words| && 0 <= j < |HeadwordKeys(words[i])| && k == HeadwordKeys(words[i])[j];
    }
    if exists i :: 0 <= i < |words| && k in HeadwordKeys(words[i]) {
      var i :| 0 <= i < |words| && k in HeadwordKeys(words[i]);
      var j :| 0 <= j < |HeadwordKeys(words[i])| && k == HeadwordKeys(words[i])[j];
      assert k in AllKeys(words, HeadwordKeys);
    }
  }

  /** `word_index[k]["j"]` lists, in increasing order, exactly the positions of
      the words that have `k` as a headword. */
  lemma WordIndexExact(words: seq<RawEntry>, clean: RawEntry -> Option<map<string, Json>>, k: string)
    ensures forall p :: p in Lookup(Indexed(words, clean).wordIndex, k) <==> 0 <= p < |words| && k in HeadwordKeys(words[p])
    ensures var ps := Lookup(Indexed(words, clean).wordIndex, k);
      forall a, b :: 0 <= a < b < |ps| ==> ps[a] <= ps[b]
  {
    var idx := Indices(|words|);
    BucketedSpec(idx, KeysAt(words));
    IndexOccurrencesAscending(|words|, KeysAt(words), k);
    forall p ensures p in Lookup(Indexed(words, clean).wordIndex, k) <==> 0 <= p < |words| && k in HeadwordKeys(words[p]) {
      OccurrencesMember(idx, KeysAt(words), k, p);
      if 0 <= p < |words| && k in HeadwordKeys(words[p]) {
        assert idx[p] == p;
      }
    }
  }

  /** Every position the word index points at has a stored compact entry
      (when the run does not abort). */
  lemma IndexedWordsAreStored(words: seq<RawEntry>, clean: RawEntry -> Option<map<string, Json>>, k: string)
    requires !Fails(words, clean)
    ensures forall p :: p in Lookup(Indexed(words, clean).wordIndex, k) ==> p in Indexed(words, clean).entries
  {
    WordIndexExact(words, clean, k);
    forall p | p in Lookup(Indexed(words, clean).wordIndex, k) ensures p in Indexed(words, clean).entries {
      assert HeadwordKeys(words[p]) != [];
    }
  }

  /** Each entry the JavaScript builder stores reads back as its word, up to
      what the compact form forgets. */
  lemma JsEntriesReadBack(words: seq<RawEntry>, p: int)
    requires p in Indexed(words, JsCleaner).entries
    ensures 0 <= p < |words|
    ensures ExpandEntryJs(Indexed(words, JsCleaner).entries[p]) == CanonEntry(words[p], k => RomajiOfText(k, t => t))
  {
    CleanEntryJsRoundTrip(words[p]);
  }
}
