/** The runtime checker generated into data/zh/char_dict/Char.ts and
    data/zh/word_dict/Word.ts (the two files carry the same `transform`,
    differing only in their type maps). A value produced by `JSON.parse`
    (plus `undefined`, which a missing property reads as) is checked
    against a type descriptor; the check either returns the value rebuilt
    or throws, modelled as `None`. */
module JsonValidate {
  import opened Wrappers

  /** A JavaScript value as `JSON.parse` builds it, plus `undefined`. An
      object's own properties are listed in order, each name once. */
  datatype JsValue =
    | Undefined
    | Null
    | Bool(b: bool)
    | Num(n: real)
    | Str(s: string)
    | Arr(items: seq<JsValue>)
    | Obj(entries: seq<(string, JsValue)>)

  /** The `typeof` of a value. */
  function TypeOf(v: JsValue): string
  {
    match v
    case Undefined => "undefined"
    case Bool(_) => "boolean"
    case Num(_) => "number"
    case Str(_) => "string"
    case _ => "object"
  }

  /** A primitive used as a descriptor: `""`, `0`, `3.14`, `true`, `false`,
      `undefined`, and the string `"any"`. */
  datatype Proto = PStr(s: string) | PNum(n: real) | PBool(b: bool) | PUndefined

  function ProtoType(p: Proto): string
  {
    match p
    case PStr(_) => "string"
    case PNum(_) => "number"
    case PBool(_) => "boolean"
    case PUndefined => "undefined"
  }

  /** A type descriptor: a primitive prototype, `null`, an array of enum
      cases, `a(...)`, `u(...)`, or `r(name)`. */
  datatype Typ =
    | Proto(p: Proto)
    | NullT
    | Enum(cases: seq<string>)
    | ArrayOf(item: Typ)
    | Union(members: seq<Typ>)
    | Ref(name: string)

  const AnyT: Typ := Proto(PStr("any"))
  const FalseT: Typ := Proto(PBool(false))
  const StringT: Typ := Proto(PStr(""))
  const NumberT: Typ := Proto(PNum(0.0))
  const FloatT: Typ := Proto(PNum(3.14))
  const BooleanT: Typ := Proto(PBool(true))
  const UndefinedT: Typ := Proto(PUndefined)

  /** `u(undefined, t)`: the descriptor of an optional property. */
  function Opt(t: Typ): Typ
  {
    Union([UndefinedT, t])
  }

  /** One declared property: its JSON name, its JavaScript name and its
      descriptor. */
  datatype Prop = Prop(json: string, js: string, typ: Typ)

  /** What a type map binds a name to: `o(props, additional)` or an enum. */
  datatype Decl = ObjectDecl(props: seq<Prop>, additional: Typ) | EnumDecl(cases: seq<string>)

  type TypeMap = map<string, Decl>

  /** `cast` reads properties by JSON name and writes them by JavaScript
      name; `uncast` the other way round. */
  datatype Direction = Cast | Uncast

  function ReadName(d: Direction, p: Prop): string
  {
    if d == Cast then p.json else p.js
  }

  function WriteName(d: Direction, p: Prop): string
  {
    if d == Cast then p.js else p.json
  }

  function KeysOf(es: seq<(string, JsValue)>): (r: seq<string>)
    ensures |r| == |es| && forall i :: 0 <= i < |es| ==> r[i] == es[i].0
  {
    if es == [] then [] else [es[0].0] + KeysOf(es[1..])
  }

  /** The position of own property `k`, if the object has it. */
  function IndexOf(es: seq<(string, JsValue)>, k: string): (r: Option<nat>)
    ensures r.None? <==> k !in KeysOf(es)
    ensures r.Some? ==> r.value < |es| && es[r.value].0 == k
  {
    if es == [] then None
    else if es[0].0 == k then Some(0)
    else match IndexOf(es[1..], k)
      case None => None
      case Some(j) => Some(j + 1)
  }

  function PropNames(d: Direction, props: seq<Prop>): (r: seq<string>)
    ensures |r| == |props| && forall i :: 0 <= i < |props| ==> r[i] == ReadName(d, props[i])
  {
    if props == [] then [] else [ReadName(d, props[0])] + PropNames(d, props[1..])
  }

  /** The value a property reads as: its own value, or `undefined`. */
  function PropValue(es: seq<(string, JsValue)>, k: string): (r: JsValue)
    ensures r.Undefined? || exists j :: 0 <= j < |es| && r == es[j].1
  {
    match IndexOf(es, k)
    case None => Undefined
    case Some(j) => es[j].1
  }

  /** `transformPrimitive`, together with the `"any"` and `false` tests
      that come before it: `"any"` passes every value, `false` none, and
      any other prototype the values of its own `typeof`. */
  function TransformPrimitive(p: Proto, val: JsValue): Option<JsValue>
  {
    if p == PStr("any") then Some(val)
    else if p == PBool(false) then None
    else if ProtoType(p) == TypeOf(val) then Some(val)
    else None
  }

  /** `transformEnum`: the value must be one of the cases. */
  function TransformEnum(cases: seq<string>, val: JsValue): Option<JsValue>
  {
    if val.Str? && val.s in cases then Some(val) else None
  }

  /** `undefined` sits below every other value, so that checking a missing
      property, read as `undefined`, counts as a step down. */
  function Level(v: JsValue): nat
  {
    if v.Undefined? then 0 else 1
  }

  /** `transform`. A reference is looked up first (a name the map lacks
      reads as `undefined`, which is then checked as a primitive); an enum
      is checked by membership; a union takes the first member that does
      not throw; an array descriptor needs an array and checks every
      element; an object declaration is checked by `TransformObject`. */
  function Transform(tm: TypeMap, d: Direction, val: JsValue, typ: Typ): Option<JsValue>
    decreases Level(val), val, typ, 1, 0
  {
    match typ
    case Proto(p) => TransformPrimitive(p, val)
    case NullT => if val == Null then Some(val) else None
    case Enum(cases) => TransformEnum(cases, val)
    case Ref(name) =>
      if name !in tm then TransformPrimitive(PUndefined, val)
      else if tm[name].EnumDecl? then TransformEnum(tm[name].cases, val)
      else if !val.Obj? then None
      else (
        match Declared(tm, d, name, val.entries, |tm[name].props|)
        case None => None
        case Some(front) =>
          match Undeclared(tm, d, name, val.entries, |val.entries|)
          case None => None
          case Some(back) => Some(Obj(front + back)))
    case Union(ms) => UnionFrom(tm, d, val, ms, 0)
    case ArrayOf(t) =>
      if !val.Arr? then None
      else (
        match ItemsFrom(tm, d, val.items, t, 0)
        case None => None
        case Some(ys) => Some(Arr(ys)))
  }

  /** `transformUnion` from member `i` on: the first member that does not
      throw decides; past the last member it throws. */
  function UnionFrom(tm: TypeMap, d: Direction, val: JsValue, ms: seq<Typ>, i: nat): Option<JsValue>
    requires i <= |ms|
    decreases Level(val), val, Union(ms), 0, |ms| - i
  {
    if i == |ms| then None
    else
      match Transform(tm, d, val, ms[i])
      case Some(w) => Some(w)
      case None => UnionFrom(tm, d, val, ms, i + 1)
  }

  /** `transformArray`'s `val.map` from element `i` on. */
  function ItemsFrom(tm: TypeMap, d: Direction, xs: seq<JsValue>, t: Typ, i: nat): Option<seq<JsValue>>
    requires i <= |xs|
    decreases 1, Arr(xs), ArrayOf(t), 0, |xs| - i
  {
    if i == |xs| then Some([])
    else
      match Transform(tm, d, xs[i], t)
      case None => None
      case Some(y) =>
        match ItemsFrom(tm, d, xs, t, i + 1)
        case None => None
        case Some(ys) => Some([y] + ys)
  }

  /** The first loop of `transformObject` over the first `n` declared
      properties: each is read from the object (as `undefined` when it is
      not an own property), checked, and stored under its new name. */
  function Declared(tm: TypeMap, d: Direction, name: string, es: seq<(string, JsValue)>, n: nat): Option<seq<(string, JsValue)>>
    requires name in tm && tm[name].ObjectDecl? && n <= |tm[name].props|
    decreases 1, Obj(es), Ref(name), 0, n
  {
    if n == 0 then Some([])
    else
      var p := tm[name].props[n - 1];
      match Declared(tm, d, name, es, n - 1)
      case None => None
      case Some(rs) =>
        var w := Transform(tm, d, PropValue(es, ReadName(d, p)), p.typ);
        if w.None? then None else Some(rs + [(WriteName(d, p), w.value)])
  }

  /** The second loop of `transformObject` over the first `n` own
      properties: one the declaration lacks is checked against
      `additional` and stored under its own name. */
  function Undeclared(tm: TypeMap, d: Direction, name: string, es: seq<(string, JsValue)>, n: nat): Option<seq<(string, JsValue)>>
    requires name in tm && tm[name].ObjectDecl? && n <= |es|
    decreases 1, Obj(es), Ref(name), 0, n
  {
    if n == 0 then Some([])
    else
      match Undeclared(tm, d, name, es, n - 1)
      case None => None
      case Some(rs) =>
        if es[n - 1].0 in PropNames(d, tm[name].props) then Some(rs)
        else
          var w := Transform(tm, d, es[n - 1].1, tm[name].additional);
          if w.None? then None else Some(rs + [(es[n - 1].0, w.value)])
  }

  // ----- The loops as the source writes them -----

  /** `transformUnion`: tries the members in order and returns the first
      result that does not throw; throws when every member does. */
  method TransformUnion(tm: TypeMap, d: Direction, typs: seq<Typ>, val: JsValue) returns (r: Option<JsValue>)
    ensures r == Transform(tm, d, val, Union(typs))
  {
    var l := |typs|;
    for i := 0 to l
      invariant UnionFrom(tm, d, val, typs, 0) == UnionFrom(tm, d, val, typs, i)
    {
      var typ := typs[i];
      var attempt := Transform(tm, d, val, typ);
      if attempt.Some? {
        return attempt;
      }
    }
    return None;
  }

  /** `transformObject` for the declaration bound to `name`: rejects
      anything but a non-null, non-array object; then fills the result
      with every declared property in declared order, then with every own
      property the declaration lacks. */
  method TransformObject(tm: TypeMap, d: Direction, name: string, val: JsValue) returns (r: Option<JsValue>)
    requires name in tm && tm[name].ObjectDecl?
    ensures r == Transform(tm, d, val, Ref(name))
  {
    if !val.Obj? {
      return None;
    }
    var front := DeclaredLoop(tm, d, name, val.entries);
    if front.None? {
      return None;
    }
    var back := UndeclaredLoop(tm, d, name, val.entries);
    if back.None? {
      return None;
    }
    return Some(Obj(front.value + back.value));
  }

  /** The first `forEach` of `transformObject`, over the declared
      properties; the first one that throws ends it. */
  method DeclaredLoop(tm: TypeMap, d: Direction, name: string, es: seq<(string, JsValue)>) returns (r: Option<seq<(string, JsValue)>>)
    requires name in tm && tm[name].ObjectDecl?
    ensures r == Declared(tm, d, name, es, |tm[name].props|)
  {
    var props := tm[name].props;
    var result: seq<(string, JsValue)> := [];
    for i := 0 to |props|
      invariant Declared(tm, d, name, es, i) == Some(result)
    {
      var prop := props[i];
      var v := PropValue(es, ReadName(d, prop));
      var t := Transform(tm, d, v, prop.typ);
      if t.None? {
        DeclaredNone(tm, d, name, es, i + 1);
        return None;
      }
      result := result + [(WriteName(d, prop), t.value)];
    }
    return Some(result);
  }

  /** The second `forEach` of `transformObject`, over the object's own
      properties, checking each undeclared one against `additional`. */
  method UndeclaredLoop(tm: TypeMap, d: Direction, name: string, es: seq<(string, JsValue)>) returns (r: Option<seq<(string, JsValue)>>)
    requires name in tm && tm[name].ObjectDecl?
    ensures r == Undeclared(tm, d, name, es, |es|)
  {
    var props := tm[name].props;
    var additional := tm[name].additional;
    var result: seq<(string, JsValue)> := [];
    for k := 0 to |es|
      invariant Undeclared(tm, d, name, es, k) == Some(result)
    {
      var key := es[k].0;
      if key !in PropNames(d, props) {
        var t := Transform(tm, d, es[k].1, additional);
        if t.None? {
          UndeclaredNone(tm, d, name, es, k + 1);
          return None;
        }
        result := result + [(key, t.value)];
      }
    }
    return Some(result);
  }

  /** Once one declared property fails, the whole first loop fails. */
  lemma {:induction false} DeclaredNone(tm: TypeMap, d: Direction, name: string, es: seq<(string, JsValue)>, n: nat)
    requires name in tm && tm[name].ObjectDecl? && n <= |tm[name].props|
    requires Declared(tm, d, name, es, n).None?
    ensures Declared(tm, d, name, es, |tm[name].props|).None?
    decreases |tm[name].props| - n
  {
    if n < |tm[name].props| {
      DeclaredNone(tm, d, name, es, n + 1);
    }
  }

  /** Once one undeclared property fails, the whole second loop fails. */
  lemma {:induction false} UndeclaredNone(tm: TypeMap, d: Direction, name: string, es: seq<(string, JsValue)>, n: nat)
    requires name in tm && tm[name].ObjectDecl? && n <= |es|
    requires Undeclared(tm, d, name, es, n).None?
    ensures Undeclared(tm, d, name, es, |es|).None?
    decreases |es| - n
  {
    if n < |es| {
      UndeclaredNone(tm, d, name, es, n + 1);
    }
  }

  // ----- What the checker promises -----

  /** `"any"` passes every value through; `null` accepts only `null`;
      `false` rejects every value; `""` accepts exactly strings, `0` and
      `3.14` exactly numbers, `true` exactly booleans, `undefined` only
      `undefined`; whatever a primitive accepts comes back unchanged. */
  lemma Primitives(tm: TypeMap, d: Direction, v: JsValue)
    ensures Transform(tm, d, v, AnyT) == Some(v)
    ensures Transform(tm, d, v, NullT).Some? <==> v == Null
    ensures Transform(tm, d, v, FalseT) == None
    ensures Transform(tm, d, v, StringT).Some? <==> v.Str?
    ensures Transform(tm, d, v, NumberT).Some? <==> v.Num?
    ensures Transform(tm, d, v, FloatT).Some? <==> v.Num?
    ensures Transform(tm, d, v, BooleanT).Some? <==> v.Bool?
    ensures Transform(tm, d, v, UndefinedT).Some? <==> v.Undefined?
    ensures forall p :: Transform(tm, d, v, Proto(p)).Some? ==> Transform(tm, d, v, Proto(p)) == Some(v)
  {
    PrimitivesFixed(tm, d, v);
    PrimitivesByType(tm, d, v);
    PrimitivesOther(tm, d, v);
  }

  lemma PrimitivesFixed(tm: TypeMap, d: Direction, v: JsValue)
    ensures Transform(tm, d, v, AnyT) == Some(v)
    ensures Transform(tm, d, v, NullT).Some? <==> v == Null
    ensures Transform(tm, d, v, FalseT) == None
    ensures forall p :: Transform(tm, d, v, Proto(p)).Some? ==> Transform(tm, d, v, Proto(p)) == Some(v)
  {
  }

  lemma PrimitivesByType(tm: TypeMap, d: Direction, v: JsValue)
    ensures Transform(tm, d, v, StringT).Some? <==> v.Str?
    ensures Transform(tm, d, v, NumberT).Some? <==> v.Num?
    ensures Transform(tm, d, v, FloatT).Some? <==> v.Num?
  {
    assert PStr("") != PStr("any") by {
      assert |""| != |"any"|;
    }
  }

  lemma PrimitivesOther(tm: TypeMap, d: Direction, v: JsValue)
    ensures Transform(tm, d, v, BooleanT).Some? <==> v.Bool?
    ensures Transform(tm, d, v, UndefinedT).Some? <==> v.Undefined?
  {
  }

  /** An enum, inline or bound to a name, accepts a value exactly when it
      is one of the listed strings, and returns it unchanged. */
  lemma EnumMembership(tm: TypeMap, d: Direction, v: JsValue, name: string)
    requires name in tm && tm[name].EnumDecl?
    ensures Transform(tm, d, v, Ref(name)).Some? <==> v.Str? && v.s in tm[name].cases
    ensures Transform(tm, d, v, Ref(name)).Some? ==> Transform(tm, d, v, Ref(name)) == Some(v)
  {
  }

  /** From member `i` on, a union throws exactly when every remaining
      member throws, and otherwise returns the first one that does not. */
  lemma UnionSpec(tm: TypeMap, d: Direction, v: JsValue, ms: seq<Typ>, i: nat)
    requires i <= |ms|
    ensures UnionFrom(tm, d, v, ms, i).None? <==> forall j :: i <= j < |ms| ==> Transform(tm, d, v, ms[j]).None?
    ensures forall j ::
      (i <= j < |ms| && Transform(tm, d, v, ms[j]).Some? && forall k :: i <= k < j ==> Transform(tm, d, v, ms[k]).None?) ==>
        UnionFrom(tm, d, v, ms, i) == Transform(tm, d, v, ms[j])
  {
    var f := t => Transform(tm, d, v, t);
    UnionFirst(tm, d, v, ms, i, f);
    FirstFromSpec(f, ms, i);
  }

  lemma {:induction false} UnionFirst(tm: TypeMap, d: Direction, v: JsValue, ms: seq<Typ>, i: nat, f: Typ -> Option<JsValue>)
    requires i <= |ms|
    requires forall t :: f(t) == Transform(tm, d, v, t)
    ensures UnionFrom(tm, d, v, ms, i) == FirstFrom(f, ms, i)
    decreases |ms| - i
  {
    if i < |ms| {
      UnionFirst(tm, d, v, ms, i + 1, f);
    }
  }

  /** What `f` gives for the first element from `i` on for which it gives
      something. */
  function FirstFrom<T, U>(f: T -> Option<U>, xs: seq<T>, i: nat): Option<U>
    requires i <= |xs|
    decreases |xs| - i
  {
    if i == |xs| then None
    else if f(xs[i]).Some? then f(xs[i])
    else FirstFrom(f, xs, i + 1)
  }

  lemma {:induction false} FirstFromSpec<T, U>(f: T -> Option<U>, xs: seq<T>, i: nat)
    requires i <= |xs|
    ensures FirstFrom(f, xs, i).None? <==> forall j :: i <= j < |xs| ==> f(xs[j]).None?
    ensures forall j ::
      (i <= j < |xs| && f(xs[j]).Some? && forall k :: i <= k < j ==> f(xs[k]).None?) ==>
        FirstFrom(f, xs, i) == f(xs[j])
    decreases |xs| - i
  {
    if i < |xs| {
      FirstFromSpec(f, xs, i + 1);
    }
  }

  /** A union returns what its first accepting member returns, and throws
      exactly when every member throws. */
  lemma UnionFirstMatch(tm: TypeMap, d: Direction, v: JsValue, ms: seq<Typ>)
    ensures Transform(tm, d, v, Union(ms)).None? <==> forall i :: 0 <= i < |ms| ==> Transform(tm, d, v, ms[i]).None?
    ensures forall i ::
      (0 <= i < |ms| && Transform(tm, d, v, ms[i]).Some? && forall j :: 0 <= j < i ==> Transform(tm, d, v, ms[j]).None?) ==>
        Transform(tm, d, v, Union(ms)) == Transform(tm, d, v, ms[i])
  {
    UnionSpec(tm, d, v, ms, 0);
  }

  /** An optional property `u(undefined, t)` accepts `undefined` as it is
      and any other value exactly as `t` does. */
  lemma OptionalProperty(tm: TypeMap, d: Direction, v: JsValue, t: Typ)
    ensures v == Undefined ==> Transform(tm, d, v, Opt(t)) == Some(Undefined)
    ensures v != Undefined ==> Transform(tm, d, v, Opt(t)) == Transform(tm, d, v, t)
  {
    if v != Undefined {
      assert Transform(tm, d, v, UndefinedT) == None;
      assert UnionFrom(tm, d, v, [UndefinedT, t], 0) == UnionFrom(tm, d, v, [UndefinedT, t], 1);
      assert UnionFrom(tm, d, v, [UndefinedT, t], 2) == None;
    } else {
      assert Transform(tm, d, v, UndefinedT) == Some(Undefined);
    }
  }

  lemma ItemsAccepts(tm: TypeMap, d: Direction, xs: seq<JsValue>, t: Typ, i: nat)
    requires i <= |xs|
    ensures ItemsFrom(tm, d, xs, t, i).Some? <==> forall j :: i <= j < |xs| ==> Transform(tm, d, xs[j], t).Some?
  {
    var accepts := x => Transform(tm, d, x, t).Some?;
    ItemsAll(tm, d, xs, t, i, accepts);
    AllFromSpec(accepts, xs, i);
  }

  lemma {:induction false} ItemsAll(tm: TypeMap, d: Direction, xs: seq<JsValue>, t: Typ, i: nat, accepts: JsValue -> bool)
    requires i <= |xs|
    requires forall x :: accepts(x) == Transform(tm, d, x, t).Some?
    ensures ItemsFrom(tm, d, xs, t, i).Some? == AllFrom(accepts, xs, i)
    decreases |xs| - i
  {
    if i < |xs| {
      ItemsAll(tm, d, xs, t, i + 1, accepts);
      ItemsStep(tm, d, xs, t, i);
    }
  }

  lemma ItemsResult(tm: TypeMap, d: Direction, xs: seq<JsValue>, t: Typ, i: nat)
    requires i <= |xs| && ItemsFrom(tm, d, xs, t, i).Some?
    ensures var ys := ItemsFrom(tm, d, xs, t, i).value;
      |ys| == |xs| - i && forall j :: i <= j < |xs| ==> Transform(tm, d, xs[j], t) == Some(ys[j - i])
  {
    var f := x => Transform(tm, d, x, t);
    ItemsPointwise(tm, d, xs, t, i, f);
    PointwiseSpec(f, xs, ItemsFrom(tm, d, xs, t, i).value, i);
  }

  lemma {:induction false} ItemsPointwise(tm: TypeMap, d: Direction, xs: seq<JsValue>, t: Typ, i: nat,
                                          f: JsValue -> Option<JsValue>)
    requires i <= |xs| && ItemsFrom(tm, d, xs, t, i).Some?
    requires forall x :: f(x) == Transform(tm, d, x, t)
    ensures Pointwise(f, xs, ItemsFrom(tm, d, xs, t, i).value, i)
    decreases |xs| - i
  {
    if i < |xs| {
      ItemsStep(tm, d, xs, t, i);
      ItemsPointwise(tm, d, xs, t, i + 1, f);
      var ys := ItemsFrom(tm, d, xs, t, i).value;
      assert ys[1..] == ItemsFrom(tm, d, xs, t, i + 1).value;
    }
  }

  /** `ok` holds of every element from `i` on. */
  predicate AllFrom<T>(ok: T -> bool, xs: seq<T>, i: nat)
    requires i <= |xs|
    decreases |xs| - i
  {
    i == |xs| || (ok(xs[i]) && AllFrom(ok, xs, i + 1))
  }

  lemma {:induction false} AllFromSpec<T>(ok: T -> bool, xs: seq<T>, i: nat)
    requires i <= |xs|
    ensures AllFrom(ok, xs, i) <==> forall j :: i <= j < |xs| ==> ok(xs[j])
    decreases |xs| - i
  {
    if i < |xs| {
      AllFromSpec(ok, xs, i + 1);
    }
  }

  /** `ys` holds, in order, what `f` gives for each element of `xs` from `i` on. */
  predicate Pointwise<T, U(==)>(f: T -> Option<U>, xs: seq<T>, ys: seq<U>, i: nat)
    requires i <= |xs|
    decreases |xs| - i
  {
    if i == |xs| then ys == []
    else ys != [] && f(xs[i]) == Some(ys[0]) && Pointwise(f, xs, ys[1..], i + 1)
  }

  lemma {:induction false} PointwiseSpec<T, U>(f: T -> Option<U>, xs: seq<T>, ys: seq<U>, i: nat)
    requires i <= |xs| && Pointwise(f, xs, ys, i)
    ensures |ys| == |xs| - i && forall j :: i <= j < |xs| ==> f(xs[j]) == Some(ys[j - i])
    decreases |xs| - i
  {
    if i < |xs| {
      PointwiseSpec(f, xs, ys[1..], i + 1);
      forall j | i < j < |xs| ensures f(xs[j]) == Some(ys[j - i]) {
        assert ys[1..][j - (i + 1)] == ys[j - i];
      }
    }
  }

  /** One element more: it must be accepted, and its result goes first. */
  lemma ItemsStep(tm: TypeMap, d: Direction, xs: seq<JsValue>, t: Typ, i: nat)
    requires i < |xs|
    ensures ItemsFrom(tm, d, xs, t, i).Some? <==>
      Transform(tm, d, xs[i], t).Some? && ItemsFrom(tm, d, xs, t, i + 1).Some?
    ensures ItemsFrom(tm, d, xs, t, i).Some? ==>
      ItemsFrom(tm, d, xs, t, i).value == [Transform(tm, d, xs[i], t).value] + ItemsFrom(tm, d, xs, t, i + 1).value
  {
  }

  /** An array descriptor rejects every non-array and accepts an array
      exactly when each element is accepted, keeping length and order. */
  lemma ArrayElementwise(tm: TypeMap, d: Direction, v: JsValue, t: Typ)
    ensures Transform(tm, d, v, ArrayOf(t)).Some? <==>
      v.Arr? && forall i :: 0 <= i < |v.items| ==> Transform(tm, d, v.items[i], t).Some?
    ensures Transform(tm, d, v, ArrayOf(t)).Some? ==>
      var w := Transform(tm, d, v, ArrayOf(t)).value;
      w.Arr? && |w.items| == |v.items| &&
      forall i :: 0 <= i < |v.items| ==> w.items[i] == Transform(tm, d, v.items[i], t).value
  {
    if v.Arr? {
      ArrayAccepts(tm, d, v.items, t);
      if ItemsFrom(tm, d, v.items, t, 0).Some? {
        ArrayResult(tm, d, v.items, t);
      }
    }
  }

  lemma ArrayAccepts(tm: TypeMap, d: Direction, xs: seq<JsValue>, t: Typ)
    ensures Transform(tm, d, Arr(xs), ArrayOf(t)).Some? <==> ItemsFrom(tm, d, xs, t, 0).Some?
    ensures ItemsFrom(tm, d, xs, t, 0).Some? <==> forall i :: 0 <= i < |xs| ==> Transform(tm, d, xs[i], t).Some?
  {
    ArrayStep(tm, d, xs, t);
    ItemsAccepts(tm, d, xs, t, 0);
  }

  lemma ArrayStep(tm: TypeMap, d: Direction, xs: seq<JsValue>, t: Typ)
    ensures Transform(tm, d, Arr(xs), ArrayOf(t)) ==
      if ItemsFrom(tm, d, xs, t, 0).Some? then Some(Arr(ItemsFrom(tm, d, xs, t, 0).value)) else None
  {
  }

  lemma ArrayResult(tm: TypeMap, d: Direction, xs: seq<JsValue>, t: Typ)
    requires ItemsFrom(tm, d, xs, t, 0).Some?
    ensures Transform(tm, d, Arr(xs), ArrayOf(t)) == Some(Arr(ItemsFrom(tm, d, xs, t, 0).value))
    ensures var ys := ItemsFrom(tm, d, xs, t, 0).value;
      |ys| == |xs| && forall i :: 0 <= i < |xs| ==> Transform(tm, d, xs[i], t) == Some(ys[i])
  {
    ArrayStep(tm, d, xs, t);
    ItemsResult(tm, d, xs, t, 0);
    var ys := ItemsFrom(tm, d, xs, t, 0).value;
    forall i | 0 <= i < |xs| ensures Transform(tm, d, xs[i], t) == Some(ys[i]) {
      assert ys[i - 0] == ys[i];
    }
  }


  lemma {:induction false} DeclaredAccepts(tm: TypeMap, d: Direction, name: string, es: seq<(string, JsValue)>, n: nat)
    requires name in tm && tm[name].ObjectDecl? && n <= |tm[name].props|
    ensures var props := tm[name].props;
      Declared(tm, d, name, es, n).Some? <==>
        forall i :: 0 <= i < n ==> Transform(tm, d, PropValue(es, ReadName(d, props[i])), props[i].typ).Some?
  {
    if n > 0 {
      DeclaredAccepts(tm, d, name, es, n - 1);
      DeclaredStep(tm, d, name, es, n);
    }
  }

  /** One declared property more: it must be accepted, and its result is
      stored last under its new name. */
  lemma DeclaredStep(tm: TypeMap, d: Direction, name: string, es: seq<(string, JsValue)>, n: nat)
    requires name in tm && tm[name].ObjectDecl? && 0 < n <= |tm[name].props|
    ensures var p := tm[name].props[n - 1];
      Declared(tm, d, name, es, n).Some? <==>
        Declared(tm, d, name, es, n - 1).Some? && Transform(tm, d, PropValue(es, ReadName(d, p)), p.typ).Some?
    ensures var p := tm[name].props[n - 1];
      Declared(tm, d, name, es, n).Some? ==>
        Declared(tm, d, name, es, n).value ==
          Declared(tm, d, name, es, n - 1).value + [(WriteName(d, p), Transform(tm, d, PropValue(es, ReadName(d, p)), p.typ).value)]
  {
  }

  lemma {:induction false} DeclaredResult(tm: TypeMap, d: Direction, name: string, es: seq<(string, JsValue)>, n: nat)
    requires name in tm && tm[name].ObjectDecl? && n <= |tm[name].props|
    requires Declared(tm, d, name, es, n).Some?
    ensures var props := tm[name].props;
      var rs := Declared(tm, d, name, es, n).value;
      |rs| == n && forall i :: 0 <= i < n ==>
        rs[i].0 == WriteName(d, props[i]) && Transform(tm, d, PropValue(es, ReadName(d, props[i])), props[i].typ) == Some(rs[i].1)
  {
    if n > 0 {
      DeclaredStep(tm, d, name, es, n);
      DeclaredResult(tm, d, name, es, n - 1);
    }
  }

  lemma UndeclaredSpec(tm: TypeMap, d: Direction, name: string, es: seq<(string, JsValue)>, n: nat)
    requires name in tm && tm[name].ObjectDecl? && n <= |es|
    ensures Undeclared(tm, d, name, es, n).Some? <==>
      forall i :: 0 <= i < n && es[i].0 !in PropNames(d, tm[name].props) ==>
        Transform(tm, d, es[i].1, tm[name].additional).Some?
  {
    UndeclaredAdmits(tm, d, name, es, n);
  }

  /** An own property the second loop lets through: declared, or accepted
      by `additional`. */
  predicate Admitted(tm: TypeMap, d: Direction, name: string, e: (string, JsValue))
    requires name in tm && tm[name].ObjectDecl?
  {
    e.0 in PropNames(d, tm[name].props) || Transform(tm, d, e.1, tm[name].additional).Some?
  }

  lemma UndeclaredAdmits(tm: TypeMap, d: Direction, name: string, es: seq<(string, JsValue)>, n: nat)
    requires name in tm && tm[name].ObjectDecl? && n <= |es|
    ensures Undeclared(tm, d, name, es, n).Some? <==> forall i :: 0 <= i < n ==> Admitted(tm, d, name, es[i])
  {
    var admits := e => name in tm && tm[name].ObjectDecl? && Admitted(tm, d, name, e);
    UndeclaredAll(tm, d, name, es, n, admits);
    AllOfSpec(admits, es, n);
  }

  /** `ok` holds of each of the first `n` elements. */
  predicate AllOf<T>(ok: T -> bool, xs: seq<T>, n: nat)
    requires n <= |xs|
  {
    n == 0 || (AllOf(ok, xs, n - 1) && ok(xs[n - 1]))
  }

  lemma {:induction false} AllOfSpec<T>(ok: T -> bool, xs: seq<T>, n: nat)
    requires n <= |xs|
    ensures AllOf(ok, xs, n) <==> forall i :: 0 <= i < n ==> ok(xs[i])
  {
    if n > 0 {
      AllOfSpec(ok, xs, n - 1);
    }
  }

  lemma {:induction false} UndeclaredAll(tm: TypeMap, d: Direction, name: string, es: seq<(string, JsValue)>, n: nat,
                                         admits: ((string, JsValue)) -> bool)
    requires name in tm && tm[name].ObjectDecl? && n <= |es|
    requires forall e :: admits(e) == Admitted(tm, d, name, e)
    ensures Undeclared(tm, d, name, es, n).Some? == AllOf(admits, es, n)
  {
    if n > 0 {
      UndeclaredAll(tm, d, name, es, n - 1, admits);
      UndeclaredOkStep(tm, d, name, es, n);
    }
  }

  /** The first `n` own properties pass exactly when the first `n - 1` do
      and the last is declared or accepted by `additional`. */
  lemma UndeclaredOkStep(tm: TypeMap, d: Direction, name: string, es: seq<(string, JsValue)>, n: nat)
    requires name in tm && tm[name].ObjectDecl? && 0 < n <= |es|
    ensures Undeclared(tm, d, name, es, n).Some? <==>
      Undeclared(tm, d, name, es, n - 1).Some? && Admitted(tm, d, name, es[n - 1])
  {
  }

  /** A declared object accepts exactly the non-null, non-array objects
      whose declared properties (absent ones read as `undefined`) and whose
      undeclared ones (against `additional`) are all accepted; the result
      holds the declared properties first, in declared order, under their
      new names. */
  lemma ObjectCase(tm: TypeMap, d: Direction, v: JsValue, name: string)
    requires name in tm && tm[name].ObjectDecl?
    ensures var props := tm[name].props;
      Transform(tm, d, v, Ref(name)).Some? <==>
        && v.Obj?
        && (forall i :: 0 <= i < |props| ==>
              Transform(tm, d, PropValue(v.entries, ReadName(d, props[i])), props[i].typ).Some?)
        && (forall i :: 0 <= i < |v.entries| && v.entries[i].0 !in PropNames(d, props) ==>
              Transform(tm, d, v.entries[i].1, tm[name].additional).Some?)
    ensures var props := tm[name].props;
      Transform(tm, d, v, Ref(name)).Some? ==>
        var w := Transform(tm, d, v, Ref(name)).value;
        && w.Obj? && |w.entries| >= |props|
        && forall i :: 0 <= i < |props| ==>
             w.entries[i] == (WriteName(d, props[i]),
               Transform(tm, d, PropValue(v.entries, ReadName(d, props[i])), props[i].typ).value)
  {
    if v.Obj? {
      DeclaredAccepts(tm, d, name, v.entries, |tm[name].props|);
      if Declared(tm, d, name, v.entries, |tm[name].props|).Some? {
        DeclaredResult(tm, d, name, v.entries, |tm[name].props|);
      }
      UndeclaredSpec(tm, d, name, v.entries, |v.entries|);
    }
  }

  /** With `additional` set to `false`, as in every declaration of both
      type maps, an accepted object has no undeclared property. */
  lemma ClosedObject(tm: TypeMap, d: Direction, v: JsValue, name: string)
    requires name in tm && tm[name].ObjectDecl? && tm[name].additional == FalseT
    requires Transform(tm, d, v, Ref(name)).Some?
    ensures v.Obj? && forall k :: k in KeysOf(v.entries) ==> k in PropNames(d, tm[name].props)
  {
    ObjectCase(tm, d, v, name);
    forall k | k in KeysOf(v.entries)
      ensures k in PropNames(d, tm[name].props)
    {
      var i :| 0 <= i < |v.entries| && KeysOf(v.entries)[i] == k;
      assert Transform(tm, d, v.entries[i].1, FalseT) == None;
    }
  }

  /** In an accepted object, each declared property is accepted by its
      own descriptor. */
  lemma PropAccepted(tm: TypeMap, d: Direction, v: JsValue, name: string, i: nat)
    requires name in tm && tm[name].ObjectDecl? && i < |tm[name].props|
    requires Transform(tm, d, v, Ref(name)).Some?
    ensures v.Obj?
    ensures Transform(tm, d, PropValue(v.entries, ReadName(d, tm[name].props[i])), tm[name].props[i].typ).Some?
  {
    ObjectCase(tm, d, v, name);
  }

  /** A declared property whose descriptor rejects `undefined` must be
      present in every accepted object. */
  lemma RequiredPresent(tm: TypeMap, d: Direction, v: JsValue, name: string, i: nat)
    requires name in tm && tm[name].ObjectDecl? && i < |tm[name].props|
    requires Transform(tm, d, Undefined, tm[name].props[i].typ).None?
    requires Transform(tm, d, v, Ref(name)).Some?
    ensures v.Obj? && ReadName(d, tm[name].props[i]) in KeysOf(v.entries)
  {
    ObjectCase(tm, d, v, name);
  }

  // ----- `cast` and `uncast` -----

  /** Every property of the declaration has the same JSON and JavaScript
      name. */
  predicate KeepsNames(decl: Decl)
  {
    decl.ObjectDecl? ==> forall i :: 0 <= i < |decl.props| ==> decl.props[i].json == decl.props[i].js
  }

  predicate SameNames(tm: TypeMap)
  {
    forall n :: n in tm ==> KeepsNames(tm[n])
  }

  lemma PropNamesAgree(tm: TypeMap, name: string)
    requires SameNames(tm) && name in tm && tm[name].ObjectDecl?
    ensures PropNames(Cast, tm[name].props) == PropNames(Uncast, tm[name].props)
  {
  }

  /** Where every property keeps its name, `uncast` checks and rebuilds a
      value exactly as `cast` does. */
  lemma {:induction false} CastIsUncast(tm: TypeMap, val: JsValue, typ: Typ)
    requires SameNames(tm)
    ensures Transform(tm, Cast, val, typ) == Transform(tm, Uncast, val, typ)
    decreases Level(val), val, typ, 1, 0
  {
    match typ
    case Ref(name) =>
      if name in tm && tm[name].ObjectDecl? && val.Obj? {
        DeclaredAgree(tm, name, val.entries, |tm[name].props|);
        UndeclaredAgree(tm, name, val.entries, |val.entries|);
      }
    case Union(ms) => UnionAgree(tm, val, ms, 0);
    case ArrayOf(t) =>
      if val.Arr? {
        ItemsAgree(tm, val.items, t, 0);
      }
    case _ =>
  }

  lemma {:induction false} UnionAgree(tm: TypeMap, val: JsValue, ms: seq<Typ>, i: nat)
    requires SameNames(tm) && i <= |ms|
    ensures UnionFrom(tm, Cast, val, ms, i) == UnionFrom(tm, Uncast, val, ms, i)
    decreases Level(val), val, Union(ms), 0, |ms| - i
  {
    if i < |ms| {
      CastIsUncast(tm, val, ms[i]);
      UnionAgree(tm, val, ms, i + 1);
    }
  }

  lemma {:induction false} ItemsAgree(tm: TypeMap, xs: seq<JsValue>, t: Typ, i: nat)
    requires SameNames(tm) && i <= |xs|
    ensures ItemsFrom(tm, Cast, xs, t, i) == ItemsFrom(tm, Uncast, xs, t, i)
    decreases 1, Arr(xs), ArrayOf(t), 0, |xs| - i
  {
    if i < |xs| {
      CastIsUncast(tm, xs[i], t);
      ItemsAgree(tm, xs, t, i + 1);
    }
  }

  lemma {:induction false} DeclaredAgree(tm: TypeMap, name: string, es: seq<(string, JsValue)>, n: nat)
    requires SameNames(tm) && name in tm && tm[name].ObjectDecl? && n <= |tm[name].props|
    ensures Declared(tm, Cast, name, es, n) == Declared(tm, Uncast, name, es, n)
    decreases 1, Obj(es), Ref(name), 0, n
  {
    if n > 0 {
      DeclaredAgree(tm, name, es, n - 1);
      var p := tm[name].props[n - 1];
      assert ReadName(Cast, p) == ReadName(Uncast, p) && WriteName(Cast, p) == WriteName(Uncast, p);
      CastIsUncast(tm, PropValue(es, ReadName(Cast, p)), p.typ);
    }
  }

  lemma {:induction false} UndeclaredAgree(tm: TypeMap, name: string, es: seq<(string, JsValue)>, n: nat)
    requires SameNames(tm) && name in tm && tm[name].ObjectDecl? && n <= |es|
    ensures Undeclared(tm, Cast, name, es, n) == Undeclared(tm, Uncast, name, es, n)
    decreases 1, Obj(es), Ref(name), 0, n
  {
    if n > 0 {
      UndeclaredAgree(tm, name, es, n - 1);
      PropNamesAgree(tm, name);
      if Undeclared(tm, Cast, name, es, n - 1).None? {
        UndeclaredAfterNone(tm, name, es, n);
      } else if es[n - 1].0 in PropNames(Cast, tm[name].props) {
        UndeclaredAfterSkip(tm, name, es, n);
      } else {
        CastIsUncast(tm, es[n - 1].1, tm[name].additional);
        UndeclaredAfterAdd(tm, name, es, n);
      }
    }
  }

  lemma UndeclaredAfterNone(tm: TypeMap, name: string, es: seq<(string, JsValue)>, n: nat)
    requires name in tm && tm[name].ObjectDecl? && 0 < n <= |es|
    requires Undeclared(tm, Cast, name, es, n - 1).None? && Undeclared(tm, Uncast, name, es, n - 1).None?
    ensures Undeclared(tm, Cast, name, es, n) == Undeclared(tm, Uncast, name, es, n)
  {
  }

  lemma UndeclaredAfterSkip(tm: TypeMap, name: string, es: seq<(string, JsValue)>, n: nat)
    requires name in tm && tm[name].ObjectDecl? && 0 < n <= |es|
    requires Undeclared(tm, Cast, name, es, n - 1) == Undeclared(tm, Uncast, name, es, n - 1)
    requires PropNames(Cast, tm[name].props) == PropNames(Uncast, tm[name].props)
    requires es[n - 1].0 in PropNames(Cast, tm[name].props)
    ensures Undeclared(tm, Cast, name, es, n) == Undeclared(tm, Uncast, name, es, n)
  {
  }

  lemma UndeclaredAfterAdd(tm: TypeMap, name: string, es: seq<(string, JsValue)>, n: nat)
    requires name in tm && tm[name].ObjectDecl? && 0 < n <= |es|
    requires Undeclared(tm, Cast, name, es, n - 1) == Undeclared(tm, Uncast, name, es, n - 1)
    requires PropNames(Cast, tm[name].props) == PropNames(Uncast, tm[name].props)
    requires es[n - 1].0 !in PropNames(Cast, tm[name].props)
    requires Transform(tm, Cast, es[n - 1].1, tm[name].additional) == Transform(tm, Uncast, es[n - 1].1, tm[name].additional)
    ensures Undeclared(tm, Cast, name, es, n) == Undeclared(tm, Uncast, name, es, n)
  {
  }
}
