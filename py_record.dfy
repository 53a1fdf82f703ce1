/** The pattern every Python record class of the pipeline follows: the
    constructor copies keys of a JSON dict into attributes, with `data["k"]`
    (KeyError when absent) or `data.get("k")` (None when absent), and
    `to_dict` returns `self.__dict__` either whole or with the None-valued
    attributes dropped. An object's `__dict__` is a sequence of attributes in
    assignment order; a JSON null read from the dict is Python's None. */
module PyRecord {
  import opened Wrappers
  import opened Json

  /** An attribute: its name and its value, `None` for Python's None. */
  type Attr = (string, Option<Json>)

  /** The Python value of a JSON value: null is None. */
  function PyValue(v: Json): (r: Option<Json>)
    ensures r.None? <==> v == JNull
  {
    if v == JNull then None else Some(v)
  }

  /** `data.get(k)`: None when the key is absent or its value is null. */
  function GetOpt(d: map<string, Json>, k: string): (r: Option<Json>)
    ensures r.Some? <==> k in d && d[k] != JNull
    ensures r.Some? ==> r.value == d[k]
  {
    if k in d then PyValue(d[k]) else None
  }

  /** `data.get(k) if data.get(k) else None`: falsy values become None. */
  function IfTruthy(d: map<string, Json>, k: string): (r: Option<Json>)
    ensures r.Some? <==> k in d && Truthy(d[k])
    ensures r.Some? ==> r.value == d[k]
  {
    if k in d && Truthy(d[k]) then Some(d[k]) else None
  }

  /** `data.get(k, default)`: the default only when the key is absent (a
      null value is returned as null). */
  function GetOr(d: map<string, Json>, k: string, default: Json): Json
  {
    if k in d then d[k] else default
  }

  /** How a constructor reads one attribute. */
  datatype Field = Req(attr: string, key: string) | Opt(attr: string, key: string)

  /** Builds the attributes of a record; `None` is the KeyError of a missing
      required key. Both forms store None for a null value. */
  function Construct(fs: seq<Field>, d: map<string, Json>): (r: Option<seq<Attr>>)
    ensures r.Some? <==> forall i :: 0 <= i < |fs| && fs[i].Req? ==> fs[i].key in d
    ensures r.Some? ==> |r.value| == |fs|
    ensures r.Some? ==> forall i :: 0 <= i < |fs| ==> r.value[i] == (fs[i].attr, GetOpt(d, fs[i].key))
  {
    if forall i :: 0 <= i < |fs| && fs[i].Req? ==> fs[i].key in d
    then Some(seq(|fs|, i requires 0 <= i < |fs| => (fs[i].attr, GetOpt(d, fs[i].key))))
    else None
  }

  /** The value of the attribute named `name` (the first one so named). */
  function AttrOf(attrs: seq<Attr>, name: string): Option<Json>
  {
    if attrs == [] then None
    else if attrs[0].0 == name then attrs[0].1
    else AttrOf(attrs[1..], name)
  }

  predicate DistinctNames(attrs: seq<Attr>)
  {
    forall i, j :: 0 <= i < j < |attrs| ==> attrs[i].0 != attrs[j].0
  }

  /** `{k: v for k, v in self.__dict__.items() if v is not None}`. */
  function DropNone(attrs: seq<Attr>): (r: map<string, Json>)
    ensures forall k :: k in r ==> exists i :: 0 <= i < |attrs| && attrs[i].0 == k && attrs[i].1.Some?
  {
    if attrs == [] then map[]
    else
      var last := attrs[|attrs| - 1];
      var r := DropNone(attrs[..|attrs| - 1]);
      if last.1.Some? then r[last.0 := last.1.value] else r
  }

  /** `self.__dict__` itself, None written as null. */
  function AllAttrs(attrs: seq<Attr>): (r: map<string, Json>)
    ensures forall k :: k in r ==> exists i :: 0 <= i < |attrs| && attrs[i].0 == k
  {
    if attrs == [] then map[]
    else
      var last := attrs[|attrs| - 1];
      AllAttrs(attrs[..|attrs| - 1])[last.0 := if last.1.Some? then last.1.value else JNull]
  }

  /** Each attribute with a value is kept under its own name, each None is
      dropped, and nothing else is added. */
  lemma {:induction false} DropNoneSpec(attrs: seq<Attr>)
    requires DistinctNames(attrs)
    ensures forall i :: 0 <= i < |attrs| ==> (attrs[i].0 in DropNone(attrs) <==> attrs[i].1.Some?)
    ensures forall i :: 0 <= i < |attrs| && attrs[i].1.Some? ==> DropNone(attrs)[attrs[i].0] == attrs[i].1.value
  {
    if attrs != [] {
      var init := attrs[..|attrs| - 1];
      DropNoneSpec(init);
      forall i | 0 <= i < |init| ensures attrs[i] == init[i] && attrs[i].0 != attrs[|attrs| - 1].0 {
      }
    }
  }

  /** Every attribute is kept, None as null. */
  lemma {:induction false} AllAttrsSpec(attrs: seq<Attr>)
    requires DistinctNames(attrs)
    ensures forall i :: 0 <= i < |attrs| ==> attrs[i].0 in AllAttrs(attrs)
    ensures forall i :: 0 <= i < |attrs| ==>
      AllAttrs(attrs)[attrs[i].0] == if attrs[i].1.Some? then attrs[i].1.value else JNull
  {
    if attrs != [] {
      var init := attrs[..|attrs| - 1];
      AllAttrsSpec(init);
      forall i | 0 <= i < |init| ensures attrs[i] == init[i] && attrs[i].0 != attrs[|attrs| - 1].0 {
      }
    }
  }

  /** The record classes whose attributes are named after their keys. */
  predicate NamedAfterKeys(fs: seq<Field>)
  {
    (forall i :: 0 <= i < |fs| ==> fs[i].attr == fs[i].key)
    && forall i, j :: 0 <= i < j < |fs| ==> fs[i].key != fs[j].key
  }

  /** Re-reading a `to_dict` result: a record whose `to_dict` is its whole
      `__dict__` reads back unchanged; one whose `to_dict` drops None reads
      back unchanged exactly when no required attribute is None (otherwise
      the dropped key raises KeyError). */
  lemma ReadBack(fs: seq<Field>, d: map<string, Json>)
    requires NamedAfterKeys(fs)
    requires Construct(fs, d).Some?
    ensures Construct(fs, AllAttrs(Construct(fs, d).value)) == Construct(fs, d)
    ensures Construct(fs, DropNone(Construct(fs, d).value)) == Construct(fs, d) <==>
      forall i :: 0 <= i < |fs| && fs[i].Req? ==> GetOpt(d, fs[i].key).Some?
  {
    ReadBackAll(fs, d);
    ReadBackDropNone(fs, d);
  }

  /** The attributes a record was built with have distinct names. */
  lemma ConstructedDistinct(fs: seq<Field>, d: map<string, Json>)
    requires NamedAfterKeys(fs)
    requires Construct(fs, d).Some?
    ensures DistinctNames(Construct(fs, d).value)
  {
    var a := Construct(fs, d).value;
    forall i, j | 0 <= i < j < |a| ensures a[i].0 != a[j].0 {
      assert a[i].0 == fs[i].key && a[j].0 == fs[j].key;
    }
  }

  lemma ReadBackAll(fs: seq<Field>, d: map<string, Json>)
    requires NamedAfterKeys(fs)
    requires Construct(fs, d).Some?
    ensures Construct(fs, AllAttrs(Construct(fs, d).value)) == Construct(fs, d)
  {
    var a := Construct(fs, d).value;
    ConstructedDistinct(fs, d);
    AllAttrsSpec(a);
    var all := AllAttrs(a);
    forall i | 0 <= i < |fs| ensures fs[i].key in all && GetOpt(all, fs[i].key) == GetOpt(d, fs[i].key) {
      assert a[i] == (fs[i].key, GetOpt(d, fs[i].key));
    }
    assert Construct(fs, all).value == a;
  }

  lemma ReadBackDropNone(fs: seq<Field>, d: map<string, Json>)
    requires NamedAfterKeys(fs)
    requires Construct(fs, d).Some?
    ensures Construct(fs, DropNone(Construct(fs, d).value)) == Construct(fs, d) <==>
      forall i :: 0 <= i < |fs| && fs[i].Req? ==> GetOpt(d, fs[i].key).Some?
  {
    var a := Construct(fs, d).value;
    ConstructedDistinct(fs, d);
    DropNoneSpec(a);
    var dropped := DropNone(a);
    if forall i :: 0 <= i < |fs| && fs[i].Req? ==> GetOpt(d, fs[i].key).Some? {
      forall i | 0 <= i < |fs| ensures GetOpt(dropped, fs[i].key) == GetOpt(d, fs[i].key) {
        assert a[i] == (fs[i].key, GetOpt(d, fs[i].key));
      }
      assert Construct(fs, dropped).value == a;
    } else {
      var i :| 0 <= i < |fs| && fs[i].Req? && GetOpt(d, fs[i].key).None?;
      assert a[i] == (fs[i].key, None);
      assert fs[i].key !in dropped;
    }
  }

  /** `[C(x) for x in v]` for a constructor that reads `x` as a dict: a list
      of dicts gives one record each, in order; iterating "" or {} gives
      nothing; anything else raises (`None`), as does a failing element. */
  function MapDicts<T>(v: Json, ctor: map<string, Json> -> Option<T>): (r: Option<seq<T>>)
    ensures v.JArray? ==> (r.Some? <==> forall i :: 0 <= i < |v.items| ==> v.items[i].JObject? && ctor(v.items[i].fields).Some?)
    ensures v.JArray? && r.Some? ==>
      (|r.value| == |v.items| && forall i :: 0 <= i < |v.items| ==> Some(r.value[i]) == ctor(v.items[i].fields))
    ensures !v.JArray? ==> (r.Some? <==> v == JString("") || v == JObject(map[])) && (r.Some? ==> r.value == [])
  {
    match v
    case JArray(xs) => MapDictList(xs, ctor)
    case JString(s) => if s == "" then Some([]) else None
    case JObject(m) => if m == map[] then Some([]) else None
    case _ => None
  }

  function MapDictList<T>(xs: seq<Json>, ctor: map<string, Json> -> Option<T>): (r: Option<seq<T>>)
    ensures r.Some? <==> forall i :: 0 <= i < |xs| ==> xs[i].JObject? && ctor(xs[i].fields).Some?
    ensures r.Some? ==> |r.value| == |xs| && forall i :: 0 <= i < |xs| ==> Some(r.value[i]) == ctor(xs[i].fields)
  {
    if xs == [] then Some([])
    else if !xs[0].JObject? then None
    else
      match ctor(xs[0].fields)
      case None => None
      case Some(x) =>
        match MapDictList(xs[1..], ctor)
        case None => None
        case Some(rest) => Some([x] + rest)
  }

  /** `[x.to_dict() for x in xs]` as JSON. */
  function ToDicts<T>(xs: seq<T>, toDict: T -> map<string, Json>): (r: Json)
    ensures r.JArray? && |r.items| == |xs| && forall i :: 0 <= i < |xs| ==> r.items[i] == JObject(toDict(xs[i]))
  {
    JArray(seq(|xs|, i requires 0 <= i < |xs| => JObject(toDict(xs[i]))))
  }

  /** Re-reading a list of records from their dicts, when each one reads
      back as `back` of itself. */
  lemma MapDictsBack<T>(xs: seq<T>, toDict: T -> map<string, Json>,
                        ctor: map<string, Json> -> Option<T>, back: T -> T)
    requires forall x :: x in xs ==> ctor(toDict(x)) == Some(back(x))
    ensures MapDicts(ToDicts(xs, toDict), ctor) == Some(seq(|xs|, i requires 0 <= i < |xs| => back(xs[i])))
  {
    var v := ToDicts(xs, toDict);
    forall i | 0 <= i < |xs| ensures v.items[i].JObject? && ctor(v.items[i].fields) == Some(back(xs[i])) {
      assert xs[i] in xs;
    }
    var r := MapDicts(v, ctor);
    var want := seq(|xs|, i requires 0 <= i < |xs| => back(xs[i]));
    assert r.Some?;
    forall i | 0 <= i < |xs| ensures r.value[i] == want[i] {
      assert Some(r.value[i]) == ctor(v.items[i].fields);
    }
    assert r.value == want;
  }

  /** Re-reading a list of records that each read back unchanged. */
  lemma MapDictsStable<T>(xs: seq<T>, toDict: T -> map<string, Json>, ctor: map<string, Json> -> Option<T>)
    requires forall x :: x in xs ==> ctor(toDict(x)) == Some(x)
    ensures MapDicts(ToDicts(xs, toDict), ctor) == Some(xs)
  {
    var v := ToDicts(xs, toDict);
    forall i | 0 <= i < |xs| ensures v.items[i].JObject? && ctor(v.items[i].fields) == Some(xs[i]) {
      assert xs[i] in xs;
    }
    var r := MapDicts(v, ctor);
    assert r.Some?;
    forall i | 0 <= i < |xs| ensures r.value[i] == xs[i] {
      assert Some(r.value[i]) == ctor(v.items[i].fields);
    }
    assert r.value == xs;
  }

  /** `[C(x) for x in data.get(key)] if data.get(key) else None`; the
      outer `None` is the exception of a truthy value that is not a list of
      dicts, or of an element the constructor rejects. A list read this way
      is never empty. */
  function TruthyList<T>(d: map<string, Json>, key: string, ctor: map<string, Json> -> Option<T>): (r: Option<Option<seq<T>>>)
    ensures r == Some(None) <==> key !in d || !Truthy(d[key])
    ensures r.Some? && r.value.Some? ==>
      (d[key].JArray? && |r.value.value| == |d[key].items| > 0
      && forall i :: 0 <= i < |d[key].items| ==> d[key].items[i].JObject? && ctor(d[key].items[i].fields) == Some(r.value.value[i]))
  {
    if key in d && Truthy(d[key]) then
      match MapDicts(d[key], ctor)
      case None => None
      case Some(xs) => Some(Some(xs))
    else Some(None)
  }

  /** `C(data[key]) if data.get(key) else None`; the outer `None` is the
      exception of a truthy value that is not a dict the constructor
      accepts. */
  function TruthyDict<T>(d: map<string, Json>, key: string, ctor: map<string, Json> -> Option<T>): (r: Option<Option<T>>)
    ensures r == Some(None) <==> key !in d || !Truthy(d[key])
    ensures r.Some? && r.value.Some? ==> d[key].JObject? && ctor(d[key].fields) == r.value
  {
    if key in d && Truthy(d[key]) then
      if d[key].JObject? then
        match ctor(d[key].fields)
        case None => None
        case Some(x) => Some(Some(x))
      else None
    else Some(None)
  }

  /** With distinct names, an attribute is found under its own name. */
  lemma {:induction false} AttrOfAt(attrs: seq<Attr>, i: nat)
    requires DistinctNames(attrs) && i < |attrs|
    ensures AttrOf(attrs, attrs[i].0) == attrs[i].1
  {
    if i > 0 {
      AttrOfAt(attrs[1..], i - 1);
    }
  }

  predicate DistinctAttrs(fs: seq<Field>)
  {
    forall i, j :: 0 <= i < j < |fs| ==> fs[i].attr != fs[j].attr
  }

  /** Two parts without repeats and without a name in common make a whole
      without repeats. */
  lemma DistinctAttrsSplit(fs: seq<Field>, n: nat)
    requires n <= |fs| && DistinctAttrs(fs[..n]) && DistinctAttrs(fs[n..])
    requires forall i, j :: 0 <= i < n <= j < |fs| ==> fs[i].attr != fs[j].attr
    ensures DistinctAttrs(fs)
  {
    forall i, j | 0 <= i < j < |fs|
      ensures fs[i].attr != fs[j].attr
    {
      if j < n {
        assert fs[..n][i] == fs[i] && fs[..n][j] == fs[j];
      } else if n <= i {
        assert fs[n..][i - n] == fs[i] && fs[n..][j - n] == fs[j];
      }
    }
  }

  /** The None-dropping `to_dict` of a constructed record: an attribute is
      present exactly when its key held a non-null value, with that value,
      and nothing else is present. */
  lemma ConstructedDropNone(fs: seq<Field>, d: map<string, Json>)
    requires Construct(fs, d).Some? && DistinctAttrs(fs)
    ensures forall i :: 0 <= i < |fs| ==> (fs[i].attr in DropNone(Construct(fs, d).value) <==> GetOpt(d, fs[i].key).Some?)
    ensures forall i :: 0 <= i < |fs| && GetOpt(d, fs[i].key).Some? ==> DropNone(Construct(fs, d).value)[fs[i].attr] == d[fs[i].key]
    ensures forall k :: k in DropNone(Construct(fs, d).value) ==> exists i :: 0 <= i < |fs| && fs[i].attr == k
  {
    var a := Construct(fs, d).value;
    assert DistinctNames(a) by {
      forall i, j | 0 <= i < j < |a| ensures a[i].0 != a[j].0 {
        assert a[i].0 == fs[i].attr && a[j].0 == fs[j].attr;
      }
    }
    DropNoneSpec(a);
    ConstructedNames(fs, d);
  }

  /** Only declared attributes can be present, distinct or not. */
  lemma ConstructedNames(fs: seq<Field>, d: map<string, Json>)
    requires Construct(fs, d).Some?
    ensures forall k :: k in DropNone(Construct(fs, d).value) ==> exists i :: 0 <= i < |fs| && fs[i].attr == k
  {
    var a := Construct(fs, d).value;
    forall k | k in DropNone(a) ensures exists i :: 0 <= i < |fs| && fs[i].attr == k {
      var i :| 0 <= i < |a| && a[i].0 == k && a[i].1.Some?;
      assert fs[i].attr == k;
    }
  }
}
