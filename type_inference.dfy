/** The structure inference of data/file_utils.py: each JSON line is
    turned into a type structure (a type-name string, a one-element list,
    or a dict of structures), the structures of all lines are merged into
    one, and the merged structure's `Union[...]` names are simplified.
    Where the script iterates a `set`, whose order Python leaves open, the
    model fixes one: the first structure's keys before the second's, and a
    name's first occurrence. */
module TypeInference {
  import opened Wrappers
  import opened PyText

  /** A value as `json.loads` builds it; a dict's keys are distinct. */
  datatype PyValue =
    | PStr(s: string)
    | PInt(i: int)
    | PFloat(r: real)
    | PBool(b: bool)
    | PNone
    | PList(items: seq<PyValue>)
    | PDict(entries: seq<(string, PyValue)>)

  /** A type structure: a name such as `"str"` or `"Optional[int]"`, a
      one-element list, or a dict in insertion order. */
  datatype Shape =
    | Leaf(name: string)
    | ListOf(elem: Shape)
    | DictOf(entries: seq<(string, Shape)>)

  function KeysOf<T>(es: seq<(string, T)>): (r: seq<string>)
    ensures |r| == |es| && forall i :: 0 <= i < |es| ==> r[i] == es[i].0
  {
    if es == [] then [] else [es[0].0] + KeysOf(es[1..])
  }

  predicate DistinctKeys<T>(es: seq<(string, T)>)
  {
    forall i, j :: 0 <= i < j < |es| ==> es[i].0 != es[j].0
  }

  /** `infer_type_structure`. A bool passes the `int` test first and so
      is `"int"`. */
  function Infer(v: PyValue): (r: Shape)
    ensures v.PDict? ==> r.DictOf? && KeysOf(r.entries) == KeysOf(v.entries)
  {
    match v
    case PStr(_) => Leaf("str")
    case PInt(_) => Leaf("int")
    case PFloat(_) => Leaf("float")
    case PBool(_) => Leaf("int")
    case PNone => Leaf("None")
    case PList(xs) => if xs == [] then Leaf("List[Any]") else ListOf(Infer(xs[0]))
    case PDict(es) => DictOf(seq(|es|, i requires 0 <= i < |es| => (es[i].0, Infer(es[i].1))))
  }

  /** Every name in the structure is one of `ns`. */
  predicate NamesIn(s: Shape, ns: set<string>)
  {
    match s
    case Leaf(n) => n in ns
    case ListOf(e) => NamesIn(e, ns)
    case DictOf(es) => forall i :: 0 <= i < |es| ==> NamesIn(es[i].1, ns)
  }

  /** Inference only ever names the five basic types: never `"bool"`, and
      `"None"` exactly for None. */
  lemma {:induction false} InferNames(v: PyValue)
    ensures NamesIn(Infer(v), {"str", "int", "float", "None", "List[Any]"})
    ensures Infer(v) == Leaf("None") <==> v == PNone
  {
    match v
    case PList(xs) =>
      if xs != [] {
        InferNames(xs[0]);
      }
    case PDict(es) =>
      forall i | 0 <= i < |es|
        ensures NamesIn(Infer(v).entries[i].1, {"str", "int", "float", "None", "List[Any]"})
      {
        InferNames(es[i].1);
      }
    case _ =>
  }

  /** A dict's inferred structure keeps its keys distinct. */
  lemma InferDistinct(v: PyValue)
    requires v.PDict? && DistinctKeys(v.entries)
    ensures DistinctKeys(Infer(v).entries)
  {
    assert forall i :: 0 <= i < |v.entries| ==> Infer(v).entries[i].0 == KeysOf(Infer(v).entries)[i];
  }

  // ----- Rendering a structure inside an f-string -----

  /** `repr` of a name: double quotes when it holds `'` and no `"`,
      otherwise single quotes with `'` escaped; a backslash is always
      doubled. */
  function ReprName(n: string): string
  {
    if '\'' in n && '"' !in n then "\"" + Escape(n, '"') + "\""
    else "'" + Escape(n, '\'') + "'"
  }

  function Escape(n: string, q: char): string
  {
    if n == [] then ""
    else (if n[0] == '\\' || n[0] == q then ['\\', n[0]] else [n[0]]) + Escape(n[1..], q)
  }

  /** `repr` of a structure. */
  function Repr(s: Shape): string
  {
    match s
    case Leaf(n) => ReprName(n)
    case ListOf(e) => "[" + Repr(e) + "]"
    case DictOf(es) => "{" + Join(seq(|es|, i requires 0 <= i < |es| => ReprName(es[i].0) + ": " + Repr(es[i].1)), ", ") + "}"
  }

  /** `f"{s}"`: a name as it is, a list or dict as its `repr`. */
  function Str(s: Shape): string
  {
    if s.Leaf? then s.name else Repr(s)
  }

  // ----- merge_structures -----

  /** `merge_structures(s, "None")`, which never recurses. */
  function OptionalOf(s: Shape): Shape
  {
    Leaf("Optional[" + Str(s) + "]")
  }

  function Lookup(es: seq<(string, Shape)>, k: string): Shape
    requires k in KeysOf(es)
  {
    if es[0].0 == k then es[0].1 else Lookup(es[1..], k)
  }

  /** The entries of `e2` whose key `e1` lacks, each made optional. */
  function OnlyIn(e2: seq<(string, Shape)>, e1: seq<(string, Shape)>): (r: seq<(string, Shape)>)
    ensures forall i :: 0 <= i < |r| ==> r[i].0 in KeysOf(e2) && r[i].0 !in KeysOf(e1)
  {
    if e2 == [] then []
    else
      var rest := OnlyIn(e2[1..], e1);
      if e2[0].0 in KeysOf(e1) then rest else [(e2[0].0, OptionalOf(e2[0].1))] + rest
  }

  /** `merge_structures`. Two dicts merge key by key over the union of
      their keys, a key on one side only merged with `"None"`; two lists
      merge their first elements; `"None"` on either side makes the other
      optional (checked before equality); equal names stay; anything else is
      a `Union`. */
  function Merge(s1: Shape, s2: Shape): Shape
  {
    if s1.DictOf? && s2.DictOf? then
      var e1 := s1.entries;
      var e2 := s2.entries;
      DictOf(seq(|e1|, i requires 0 <= i < |e1| =>
               (e1[i].0, if e1[i].0 in KeysOf(e2) then Merge(e1[i].1, Lookup(e2, e1[i].0)) else OptionalOf(e1[i].1)))
             + OnlyIn(e2, e1))
    else if s1.ListOf? && s2.ListOf? then ListOf(Merge(s1.elem, s2.elem))
    else if s1 == Leaf("None") || s2 == Leaf("None") then Leaf("Optional[" + Str(if s2 == Leaf("None") then s1 else s2) + "]")
    else if s1 == s2 then s1
    else Leaf("Union[" + Str(s1) + ", " + Str(s2) + "]")
  }

  /** Merging with `"None"` on either side gives `Optional[...]` of the
      other side, whatever it is; in particular two `"None"` give
      `"Optional[None]"`. */
  lemma MergeWithNone(s: Shape)
    ensures Merge(s, Leaf("None")) == OptionalOf(s)
    ensures Merge(Leaf("None"), s) == OptionalOf(s)
    ensures Merge(Leaf("None"), Leaf("None")) == Leaf("Optional[None]")
  {
    assert !Leaf("None").DictOf? && !Leaf("None").ListOf?;
    assert "Optional[" + "None" + "]" == "Optional[None]";
  }

  /** Two names merge the same either way round unless they form a
      `Union`, whose members are listed in argument order. */
  lemma MergeLeavesSymmetric(a: string, b: string)
    requires a == "None" || b == "None" || a == b
    ensures Merge(Leaf(a), Leaf(b)) == Merge(Leaf(b), Leaf(a))
  {
  }

  lemma KeysAppend<T>(x: seq<(string, T)>, y: seq<(string, T)>)
    ensures KeysOf(x + y) == KeysOf(x) + KeysOf(y)
  {
    assert forall i :: 0 <= i < |x| ==> (x + y)[i] == x[i];
    assert forall j :: 0 <= j < |y| ==> (x + y)[|x| + j] == y[j];
  }

  /** The keys `OnlyIn` keeps are exactly those of `e2` that `e1` lacks. */
  lemma {:induction false} OnlyInKeys(e2: seq<(string, Shape)>, e1: seq<(string, Shape)>)
    ensures forall k :: k in KeysOf(OnlyIn(e2, e1)) <==> k in KeysOf(e2) && k !in KeysOf(e1)
  {
    if e2 != [] {
      OnlyInKeys(e2[1..], e1);
      var rest := OnlyIn(e2[1..], e1);
      assert KeysOf(e2) == [e2[0].0] + KeysOf(e2[1..]);
      if e2[0].0 !in KeysOf(e1) {
        KeysAppend([(e2[0].0, OptionalOf(e2[0].1))], rest);
      }
    }
  }

  predicate Distinct(xs: seq<string>)
  {
    forall i, j :: 0 <= i < j < |xs| ==> xs[i] != xs[j]
  }

  lemma KeysDistinct<T>(es: seq<(string, T)>)
    ensures DistinctKeys(es) <==> Distinct(KeysOf(es))
  {
  }

  /** Two distinct sequences with no name in common join to a distinct one. */
  lemma DistinctConcat(a: seq<string>, b: seq<string>)
    requires Distinct(a) && Distinct(b) && forall x :: x in b ==> x !in a
    ensures Distinct(a + b)
  {
    forall i, j | 0 <= i < j < |a + b|
      ensures (a + b)[i] != (a + b)[j]
    {
      if j >= |a| {
        assert (a + b)[j] == b[j - |a|] && b[j - |a|] in b;
        if i >= |a| {
          assert (a + b)[i] == b[i - |a|];
        }
      }
    }
  }

  /** The first key of distinct keys is not among the rest. */
  lemma HeadNotInTail<T>(es: seq<(string, T)>)
    requires es != [] && DistinctKeys(es)
    ensures es[0].0 !in KeysOf(es[1..])
  {
    forall m | 0 <= m < |es| - 1
      ensures KeysOf(es[1..])[m] != es[0].0
    {
      assert KeysOf(es[1..])[m] == es[m + 1].0;
    }
  }

  /** `OnlyIn` keeps distinct keys distinct. */
  lemma {:induction false} OnlyInDistinct(e2: seq<(string, Shape)>, e1: seq<(string, Shape)>)
    requires DistinctKeys(e2)
    ensures DistinctKeys(OnlyIn(e2, e1))
  {
    if e2 != [] {
      var tail := e2[1..];
      assert DistinctKeys(tail);
      OnlyInDistinct(tail, e1);
      OnlyInKeys(tail, e1);
      HeadNotInTail(e2);
      var rest := OnlyIn(tail, e1);
      if e2[0].0 !in KeysOf(e1) {
        var h := [(e2[0].0, OptionalOf(e2[0].1))];
        KeysAppend(h, rest);
        KeysDistinct(rest);
        DistinctConcat(KeysOf(h), KeysOf(rest));
        KeysDistinct(h + rest);
      }
    }
  }

  /** Each entry `OnlyIn` keeps holds its key's structure made optional. */
  lemma {:induction false} OnlyInValues(e2: seq<(string, Shape)>, e1: seq<(string, Shape)>)
    requires DistinctKeys(e2)
    ensures forall j :: 0 <= j < |OnlyIn(e2, e1)| ==>
      OnlyIn(e2, e1)[j].0 in KeysOf(e2) && OnlyIn(e2, e1)[j].1 == OptionalOf(Lookup(e2, OnlyIn(e2, e1)[j].0))
  {
    if e2 != [] {
      var tail := e2[1..];
      assert DistinctKeys(tail);
      OnlyInValues(tail, e1);
      HeadNotInTail(e2);
      var rest := OnlyIn(tail, e1);
      forall j | 0 <= j < |rest|
        ensures Lookup(e2, rest[j].0) == Lookup(tail, rest[j].0)
      {
      }
    }
  }

  /** The keys of a dict merge: the first dict's, then the second's that
      the first lacks. */
  lemma MergeKeySeq(e1: seq<(string, Shape)>, e2: seq<(string, Shape)>)
    ensures Merge(DictOf(e1), DictOf(e2)).DictOf?
    ensures KeysOf(Merge(DictOf(e1), DictOf(e2)).entries) == KeysOf(e1) + KeysOf(OnlyIn(e2, e1))
  {
    var r := Merge(DictOf(e1), DictOf(e2)).entries;
    var front := r[..|e1|];
    assert r == front + OnlyIn(e2, e1);
    KeysAppend(front, OnlyIn(e2, e1));
    assert KeysOf(front) == KeysOf(e1);
  }

  /** Two dicts merge to a dict over the union of their keys, each key
      once. */
  lemma MergeDictKeys(e1: seq<(string, Shape)>, e2: seq<(string, Shape)>)
    requires DistinctKeys(e1) && DistinctKeys(e2)
    ensures var r := Merge(DictOf(e1), DictOf(e2));
      && r.DictOf?
      && (forall k :: k in KeysOf(r.entries) <==> k in KeysOf(e1) || k in KeysOf(e2))
      && DistinctKeys(r.entries)
  {
    MergeKeySeq(e1, e2);
    var r := Merge(DictOf(e1), DictOf(e2)).entries;
    var back := OnlyIn(e2, e1);
    OnlyInKeys(e2, e1);
    OnlyInDistinct(e2, e1);
    KeysDistinct(e1);
    KeysDistinct(back);
    DistinctConcat(KeysOf(e1), KeysOf(back));
    KeysDistinct(r);
  }

  /** In the merge of two dicts, a key on one side only holds that side's
      structure made optional. */
  lemma MergeDictOneSided(e1: seq<(string, Shape)>, e2: seq<(string, Shape)>)
    requires DistinctKeys(e1) && DistinctKeys(e2)
    ensures var r := Merge(DictOf(e1), DictOf(e2)).entries;
      && (forall i :: 0 <= i < |r| && r[i].0 in KeysOf(e1) && r[i].0 !in KeysOf(e2) ==>
            r[i].1 == OptionalOf(Lookup(e1, r[i].0)))
      && (forall i :: 0 <= i < |r| && r[i].0 in KeysOf(e2) && r[i].0 !in KeysOf(e1) ==>
            r[i].1 == OptionalOf(Lookup(e2, r[i].0)))
  {
    var r := Merge(DictOf(e1), DictOf(e2)).entries;
    var back := OnlyIn(e2, e1);
    OnlyInValues(e2, e1);
    assert r == r[..|e1|] + back;
    forall i | 0 <= i < |r|
      ensures r[i].0 in KeysOf(e1) && r[i].0 !in KeysOf(e2) ==> r[i].1 == OptionalOf(Lookup(e1, r[i].0))
      ensures r[i].0 in KeysOf(e2) && r[i].0 !in KeysOf(e1) ==> r[i].1 == OptionalOf(Lookup(e2, r[i].0))
    {
      if i < |e1| {
        assert r[i].0 == e1[i].0 && KeysOf(e1)[i] == e1[i].0;
        LookupAt(e1, i);
      } else {
        assert r[i] == back[i - |e1|];
      }
    }
  }

  /** The value found under the key at position `i` of distinct keys is
      the one stored there. */
  lemma {:induction false} LookupAt(es: seq<(string, Shape)>, i: nat)
    requires i < |es| && DistinctKeys(es)
    ensures es[i].0 in KeysOf(es) && Lookup(es, es[i].0) == es[i].1
  {
    assert KeysOf(es)[i] == es[i].0;
    if i > 0 {
      assert DistinctKeys(es[1..]);
      assert es[1..][i - 1] == es[i];
      LookupAt(es[1..], i - 1);
    }
  }

  /** A structure whose dicts have distinct keys and that names no
      `"None"` is its own merge: merging a line's structure with itself
      changes nothing. */
  predicate Plain(s: Shape)
  {
    match s
    case Leaf(n) => n != "None"
    case ListOf(e) => Plain(e)
    case DictOf(es) => DistinctKeys(es) && forall i :: 0 <= i < |es| ==> Plain(es[i].1)
  }

  lemma {:induction false} MergeSelf(s: Shape)
    requires Plain(s)
    ensures Merge(s, s) == s
  {
    match s
    case Leaf(_) =>
    case ListOf(e) => MergeSelf(e);
    case DictOf(es) =>
      var r := Merge(s, s).entries;
      assert OnlyIn(es, es) == [] by {
        OnlyInEmpty(es);
      }
      forall i | 0 <= i < |es|
        ensures r[i] == es[i]
      {
        LookupAt(es, i);
        MergeSelf(es[i].1);
      }
      assert r == es;
  }

  lemma {:induction false} OnlyInEmpty(es: seq<(string, Shape)>)
    ensures OnlyIn(es, es) == []
  {
    OnlyInSub(es, es);
  }

  lemma {:induction false} OnlyInSub(e2: seq<(string, Shape)>, e1: seq<(string, Shape)>)
    requires forall k :: k in KeysOf(e2) ==> k in KeysOf(e1)
    ensures OnlyIn(e2, e1) == []
  {
    if e2 != [] {
      assert KeysOf(e2)[0] == e2[0].0;
      forall k | k in KeysOf(e2[1..])
        ensures k in KeysOf(e1)
      {
        var m :| 0 <= m < |e2[1..]| && KeysOf(e2[1..])[m] == k;
        assert KeysOf(e2)[m + 1] == k;
      }
      OnlyInSub(e2[1..], e1);
    }
  }

  // ----- analyze_jsonl_structure -----

  /** The fold over the lines, from `{}`; `None` is a line `json.loads`
      rejects, which is skipped. */
  function AnalyzeFold(lines: seq<Option<PyValue>>): Shape
  {
    if lines == [] then DictOf([])
    else
      var s := AnalyzeFold(lines[..|lines| - 1]);
      match lines[|lines| - 1]
      case None => s
      case Some(v) => Merge(s, Infer(v))
  }

  method AnalyzeStructure(lines: seq<Option<PyValue>>) returns (structure: Shape)
    ensures structure == AnalyzeFold(lines)
  {
    structure := DictOf([]);
    var i := 0;
    while i < |lines|
      invariant 0 <= i <= |lines|
      invariant structure == AnalyzeFold(lines[..i])
    {
      assert lines[..i + 1][..i] == lines[..i];
      if lines[i].Some? {
        var entryStructure := Infer(lines[i].value);
        structure := Merge(structure, entryStructure);
      }
      i := i + 1;
    }
    assert lines[..i] == lines;
  }

  /** The valid lines, in order. */
  function Valid(lines: seq<Option<PyValue>>): seq<PyValue>
  {
    if lines == [] then []
    else Valid(lines[..|lines| - 1]) + if lines[|lines| - 1].Some? then [lines[|lines| - 1].value] else []
  }

  /** The structure of the valid lines alone, merged left to right. */
  function MergeAll(vs: seq<PyValue>): Shape
  {
    if vs == [] then DictOf([]) else Merge(MergeAll(vs[..|vs| - 1]), Infer(vs[|vs| - 1]))
  }

  /** Undecodable lines change nothing: the result is that of the valid
      lines alone. */
  lemma {:induction false} SkipsInvalid(lines: seq<Option<PyValue>>)
    ensures AnalyzeFold(lines) == MergeAll(Valid(lines))
  {
    if lines != [] {
      SkipsInvalid(lines[..|lines| - 1]);
      var vs := Valid(lines[..|lines| - 1]);
      if lines[|lines| - 1].Some? {
        assert (vs + [lines[|lines| - 1].value])[..|vs|] == vs;
      } else {
        assert vs + [] == vs;
      }
    }
  }

  /** Because the fold starts from `{}`, every key of the first valid dict
      line is optional afterwards. */
  lemma FirstLineOptional(es: seq<(string, PyValue)>)
    ensures var r := MergeAll([PDict(es)]);
      && r.DictOf? && |r.entries| == |es|
      && forall i :: 0 <= i < |es| ==> r.entries[i] == (es[i].0, OptionalOf(Infer(es[i].1)))
  {
    var s := Infer(PDict(es));
    assert MergeAll([PDict(es)]) == Merge(DictOf([]), s) by {
      assert [PDict(es)][..0] == [];
    }
    InferDict(es);
    IntoEmpty(s.entries);
  }

  lemma InferDict(es: seq<(string, PyValue)>)
    ensures var s := Infer(PDict(es));
      s.DictOf? && |s.entries| == |es| && forall i :: 0 <= i < |es| ==> s.entries[i] == (es[i].0, Infer(es[i].1))
  {
  }

  /** Merging into `{}` makes every entry optional. */
  lemma IntoEmpty(es: seq<(string, Shape)>)
    ensures Merge(DictOf([]), DictOf(es)) == DictOf(OnlyIn(es, []))
    ensures |OnlyIn(es, [])| == |es|
    ensures forall i :: 0 <= i < |es| ==> OnlyIn(es, [])[i] == (es[i].0, OptionalOf(es[i].1))
  {
    OnlyInAll(es);
  }

  /** Against no keys at all, every entry is kept and made optional. */
  lemma {:induction false} OnlyInAll(es: seq<(string, Shape)>)
    ensures |OnlyIn(es, [])| == |es|
    ensures forall i :: 0 <= i < |es| ==> OnlyIn(es, [])[i] == (es[i].0, OptionalOf(es[i].1))
  {
    assert KeysOf<Shape>([]) == [];
    if es != [] {
      OnlyInAll(es[1..]);
      var rest := OnlyIn(es[1..], []);
      var r := OnlyIn(es, []);
      assert r == [(es[0].0, OptionalOf(es[0].1))] + rest;
      forall i | 1 <= i < |es|
        ensures r[i] == (es[i].0, OptionalOf(es[i].1))
      {
        assert r[i] == rest[i - 1] && es[1..][i - 1] == es[i];
      }
    }
  }

  // ----- simplify_structure -----

  /** The names in `xs`, each once, at its first occurrence. */
  function Dedup(xs: seq<string>): (r: seq<string>)
    ensures forall x :: x in r <==> x in xs
    ensures forall i, j :: 0 <= i < j < |r| ==> r[i] != r[j]
  {
    if xs == [] then []
    else
      var d := Dedup(xs[..|xs| - 1]);
      assert forall x :: x in xs <==> x in xs[..|xs| - 1] || x == xs[|xs| - 1];
      if xs[|xs| - 1] in d then d else d + [xs[|xs| - 1]]
  }

  function StripAll(xs: seq<string>): (r: seq<string>)
    ensures |r| == |xs| && forall i :: 0 <= i < |xs| ==> r[i] == Strip(xs[i])
  {
    seq(|xs|, i requires 0 <= i < |xs| => Strip(xs[i]))
  }

  function Without(xs: seq<string>, x: string): (r: seq<string>)
    ensures forall y :: y in r <==> y in xs && y != x
  {
    if xs == [] then []
    else
      assert forall y :: y in xs <==> y == xs[0] || y in xs[1..];
      (if xs[0] == x then [] else [xs[0]]) + Without(xs[1..], x)
  }

  /** The simplification of one name: an `Optional[...]` is kept; in a
      `Union[...]` the members (split at every comma and stripped) are
      de-duplicated, and one member is returned alone, `None` and one other
      member become `Optional[other]`, and more members are listed again;
      any other name is kept. */
  function SimplifyName(n: string): string
  {
    if StartsWith(n, "Optional[") && EndsWith(n, "]") then n
    else if StartsWith(n, "Union[") && EndsWith(n, "]") then
      assert n[5] == '[' && n[|n| - 1] == ']';
      FromMembers(Dedup(StripAll(Split(n[6..|n| - 1], ','))))
    else n
  }

  /** The name a `Union` with the distinct members `unique` simplifies to. */
  function FromMembers(unique: seq<string>): string
  {
    if |unique| == 1 then unique[0]
    else if "None" in unique && |Without(unique, "None")| == 1 then "Optional[" + Without(unique, "None")[0] + "]"
    else "Union[" + Join(unique, ", ") + "]"
  }

  /** `simplify_structure`: dicts and lists are simplified member by
      member, keeping their keys; names are simplified. */
  function Simplify(s: Shape): (r: Shape)
    ensures s.DictOf? ==> r.DictOf? && KeysOf(r.entries) == KeysOf(s.entries)
    ensures s.ListOf? <==> r.ListOf?
    ensures s.Leaf? ==> r == Leaf(SimplifyName(s.name))
  {
    match s
    case Leaf(n) => Leaf(SimplifyName(n))
    case ListOf(e) => ListOf(Simplify(e))
    case DictOf(es) => DictOf(seq(|es|, i requires 0 <= i < |es| => (es[i].0, Simplify(es[i].1))))
  }

  /** A name inside `Union[...]` or `Optional[...]` as merging writes it:
      not empty, no comma, no whitespace at either end. */
  predicate Member(a: string)
  {
    a != [] && ',' !in a && Stripped(a)
  }

  /** The members of `Union[a, b]` are `a` and `b`. */
  lemma UnionMembers(a: string, b: string)
    requires Member(a) && Member(b)
    ensures var n := "Union[" + a + ", " + b + "]";
      StartsWith(n, "Union[") && EndsWith(n, "]") && !StartsWith(n, "Optional[")
      && StripAll(Split(n[6..|n| - 1], ',')) == [a, b]
  {
    UnionShape(a, b);
    UnionSplit(a, b);
  }

  lemma UnionShape(a: string, b: string)
    ensures var n := "Union[" + a + ", " + b + "]";
      StartsWith(n, "Union[") && EndsWith(n, "]") && !StartsWith(n, "Optional[")
      && n[6..|n| - 1] == a + [','] + (" " + b)
  {
    var n := "Union[" + a + ", " + b + "]";
    assert n[..6] == "Union[";
    assert n[0] == 'U';
    assert n[6..|n| - 1] == a + [','] + (" " + b);
  }

  lemma UnionSplit(a: string, b: string)
    requires Member(a) && Member(b)
    ensures StripAll(Split(a + [','] + (" " + b), ',')) == [a, b]
  {
    assert ',' !in " " + b by {
      assert forall k :: 0 <= k < |b| ==> (" " + b)[k + 1] == b[k];
    }
    SplitTwo(a, " " + b, ',');
    StripStripped(a);
    StripStripped(b);
    var parts := [a, " " + b];
    assert StripAll(parts) == [Strip(a), Strip(" " + b)];
  }

  /** A union of one name with itself simplifies to that name. */
  lemma SimplifyUnionSame(a: string)
    requires Member(a)
    ensures SimplifyName("Union[" + a + ", " + a + "]") == a
  {
    UnionMembers(a, a);
    assert Dedup([a, a]) == [a] by {
      assert [a, a][..1] == [a];
      assert Dedup([a]) == [a] by { assert [a][..0] == []; }
    }
  }

  /** A name written `Union[...]` simplifies through its members. */
  lemma SimplifyUnion(n: string, ts: seq<string>)
    requires |n| >= 7 && StartsWith(n, "Union[") && EndsWith(n, "]") && !StartsWith(n, "Optional[")
    requires StripAll(Split(n[6..|n| - 1], ',')) == ts
    ensures SimplifyName(n) == FromMembers(Dedup(ts))
  {
  }

  /** A union of `None` and one other name, in either order, simplifies
      to that name made optional. */
  lemma SimplifyUnionNone(a: string)
    requires Member(a) && a != "None"
    ensures SimplifyName("Union[" + "None" + ", " + a + "]") == "Optional[" + a + "]"
  {
    NoneIsMember();
    UnionMembers("None", a);
    SimplifyUnion("Union[" + "None" + ", " + a + "]", ["None", a]);
    TwoDistinct("None", a);
    WithoutNone(a);
  }

  lemma SimplifyNoneLast(a: string)
    requires Member(a) && a != "None"
    ensures SimplifyName("Union[" + a + ", " + "None" + "]") == "Optional[" + a + "]"
  {
    NoneIsMember();
    UnionMembers(a, "None");
    SimplifyUnion("Union[" + a + ", " + "None" + "]", [a, "None"]);
    TwoDistinct(a, "None");
    WithoutNone(a);
  }

  lemma WithoutNone(a: string)
    requires a != "None"
    ensures FromMembers(["None", a]) == "Optional[" + a + "]"
    ensures FromMembers([a, "None"]) == "Optional[" + a + "]"
  {
    assert ["None", a][1..] == [a];
    assert [a][1..] == [];
    assert Without([a], "None") == [a];
    assert Without(["None", a], "None") == [a];
    assert [a, "None"][1..] == ["None"];
    assert ["None"][1..] == [];
    assert Without(["None"], "None") == [];
    assert Without([a, "None"], "None") == [a];
  }

  lemma NoneIsMember()
    ensures Member("None")
  {
    assert "None"[0] == 'N' && "None"[3] == 'e';
  }

  /** Two different names, neither `None`, merge to their `Union`. */
  lemma MergeDistinctLeaves(a: string, b: string)
    requires a != b && a != "None" && b != "None"
    ensures Merge(Leaf(a), Leaf(b)) == Leaf("Union[" + a + ", " + b + "]")
  {
  }

  /** A union of two different names neither of which is `None` is
      already simple. */
  lemma SimplifyUnionDistinct(a: string, b: string)
    requires Member(a) && Member(b) && a != b && a != "None" && b != "None"
    ensures SimplifyName("Union[" + a + ", " + b + "]") == "Union[" + a + ", " + b + "]"
  {
    UnionMembers(a, b);
    SimplifyUnion("Union[" + a + ", " + b + "]", [a, b]);
    TwoDistinct(a, b);
    JoinTwo(a, b);
  }

  lemma JoinTwo(a: string, b: string)
    requires a != "None" && b != "None"
    ensures FromMembers([a, b]) == "Union[" + a + ", " + b + "]"
  {
    assert "None" !in [a, b];
    assert [a, b][1..] == [b];
    assert Join([a, b], ", ") == a + ", " + b;
  }

  /** Whatever order `list(set(types))` lists the two distinct members of
      `Union[a, b]` in, the result joins exactly those two in that order:
      either `Union[a, b]` or `Union[b, a]`. */
  lemma UnionDistinctAnyOrder(a: string, b: string, unique: seq<string>)
    requires a != b && a != "None" && b != "None"
    requires forall x :: x in unique <==> x == a || x == b
    requires forall i, j :: 0 <= i < j < |unique| ==> unique[i] != unique[j]
    ensures |unique| == 2 && FromMembers(unique) == "Union[" + unique[0] + ", " + unique[1] + "]"
    ensures FromMembers(unique) == "Union[" + a + ", " + b + "]" || FromMembers(unique) == "Union[" + b + ", " + a + "]"
  {
    DistinctCount(unique);
    assert (set x | x in unique) == {a, b};
    assert |{a, b}| == 2;
    assert |unique| == 2;
    if unique[0] == a {
      assert unique == [a, b];
      JoinTwo(a, b);
    } else {
      assert unique == [b, a];
      JoinTwo(b, a);
    }
  }

  /** A list without repeats has as many distinct members as elements. */
  lemma {:induction false} DistinctCount(xs: seq<string>)
    requires forall i, j :: 0 <= i < j < |xs| ==> xs[i] != xs[j]
    ensures |set x | x in xs| == |xs|
  {
    if xs != [] {
      DistinctCount(xs[1..]);
      assert (set x | x in xs) == {xs[0]} + (set x | x in xs[1..]);
      assert xs[0] !in xs[1..];
    }
  }

  /** Merging two different names the way the script does and then
      simplifying gives the merged name back. */
  lemma SimplifyMergedStable(a: string, b: string)
    requires Member(a) && Member(b) && a != b && a != "None" && b != "None"
    ensures Simplify(Merge(Leaf(a), Leaf(b))) == Merge(Leaf(a), Leaf(b))
  {
    MergeDistinctLeaves(a, b);
    SimplifyUnionDistinct(a, b);
  }

  lemma TwoDistinct(a: string, b: string)
    requires a != b
    ensures Dedup([a, b]) == [a, b]
  {
    assert [a][..0] == [];
    assert Dedup([a]) == [a];
    assert [a, b][..1] == [a];
    assert b !in Dedup([a]);
  }
}
