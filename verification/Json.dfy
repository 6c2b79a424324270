/** Unstructured manifests: JSON trees with the nested accessors of
    `k8s.io/apimachinery/pkg/apis/meta/v1/unstructured`. */
module Json {
  import opened Wrappers

  datatype Json =
    | Null
    | Bool(b: bool)
    | Num(n: int)
    | Str(s: string)
    | Arr(items: seq<Json>)
    | Obj(fields: map<string, Json>)

  type Path = seq<string>

  const EMPTY := Obj(map[])

  /** `NestedFieldNoCopy`: the value at a path, if every step of it is an object with that field. */
  function Lookup(v: Json, path: Path): Option<Json> {
    if path == [] then Some(v)
    else if v.Obj? && path[0] in v.fields then Lookup(v.fields[path[0]], path[1..])
    else None
  }

  /** `SetNestedField`: creates the missing objects on the way; an existing value that is
      not an object is an error, which leaves the tree alone. */
  function SetNested(v: Json, value: Json, path: Path): Json
    requires path != []
    decreases |path|
  {
    if !v.Obj? then v
    else if |path| == 1 then Obj(v.fields[path[0] := value])
    else if path[0] !in v.fields then Obj(v.fields[path[0] := SetNested(EMPTY, value, path[1..])])
    else if v.fields[path[0]].Obj? then Obj(v.fields[path[0] := SetNested(v.fields[path[0]], value, path[1..])])
    else v
  }

  /** `GetKind` and `GetName`. */
  function KindOf(m: Json): string {
    match Lookup(m, ["kind"])
    case Some(Str(s)) => s
    case _ => ""
  }

  function NameOf(m: Json): string {
    match Lookup(m, ["metadata", "name"])
    case Some(Str(s)) => s
    case _ => ""
  }

  /** Whether `SetNested` at this path succeeds: nothing but objects on the way. */
  predicate Settable(v: Json, path: Path)
    requires path != []
    decreases |path|
  {
    v.Obj? && (|path| > 1 && path[0] in v.fields ==> Settable(v.fields[path[0]], path[1..]))
  }

  /** Neither path leads through the end of the other. */
  predicate Independent(p: Path, q: Path) {
    p != [] && q != [] && (p[0] != q[0] || Independent(p[1..], q[1..]))
  }

  lemma {:induction false} SetLookup(v: Json, value: Json, path: Path)
    requires path != []
    ensures Settable(v, path) ==> Lookup(SetNested(v, value, path), path) == Some(value)
    ensures !Settable(v, path) ==> SetNested(v, value, path) == v && Lookup(v, path).None?
    decreases |path|
  {
    if v.Obj? && |path| == 1 {
      assert path[1..] == [];
    } else if v.Obj? {
      SetLookup(if path[0] in v.fields then v.fields[path[0]] else EMPTY, value, path[1..]);
    }
  }

  lemma {:induction false} LookupSettable(v: Json, path: Path)
    requires path != [] && Lookup(v, path).Some?
    ensures Settable(v, path)
    decreases |path|
  {
    if |path| > 1 {
      LookupSettable(v.fields[path[0]], path[1..]);
    }
  }

  lemma EmptyLookup(path: Path)
    requires path != []
    ensures Lookup(EMPTY, path).None? && Settable(EMPTY, path)
  {
  }

  /** Setting one path does not disturb an independent one. */
  lemma {:induction false} SetIndependent(v: Json, value: Json, p: Path, q: Path)
    requires Independent(p, q)
    ensures Lookup(SetNested(v, value, p), q) == Lookup(v, q)
    ensures Settable(SetNested(v, value, p), q) == Settable(v, q)
    decreases |p|
  {
    if v.Obj? && |p| > 1 && p[0] == q[0] {
      if p[0] in v.fields {
        if v.fields[p[0]].Obj? {
          SetIndependent(v.fields[p[0]], value, p[1..], q[1..]);
        }
      } else {
        SetIndependent(EMPTY, value, p[1..], q[1..]);
        EmptyLookup(q[1..]);
      }
    }
  }

  lemma {:induction false} LookupConcat(v: Json, p: Path, q: Path)
    ensures Lookup(v, p + q) == (var x := Lookup(v, p); if x.Some? then Lookup(x.value, q) else None)
    decreases |p|
  {
    if p == [] {
      assert p + q == q;
    } else {
      assert (p + q)[0] == p[0] && (p + q)[1..] == p[1..] + q;
      if v.Obj? && p[0] in v.fields {
        LookupConcat(v.fields[p[0]], p[1..], q);
      }
    }
  }

  /** Setting below a node is setting inside that node. */
  lemma {:induction false} SetConcat(v: Json, value: Json, p: Path, q: Path)
    requires q != [] && Lookup(v, p).Some? && Lookup(v, p).value.Obj?
    ensures Lookup(SetNested(v, value, p + q), p) == Some(SetNested(Lookup(v, p).value, value, q))
    ensures Settable(v, p + q) == Settable(Lookup(v, p).value, q)
    decreases |p|
  {
    if p == [] {
      assert p + q == q;
    } else {
      assert (p + q)[0] == p[0] && (p + q)[1..] == p[1..] + q;
      SetConcat(v.fields[p[0]], value, p[1..], q);
    }
  }

  // ----- setIfAbsent -----

  /** `setIfAbsent`. */
  function SetIfAbsent(v: Json, value: Json, path: Path): Json
    requires path != []
  {
    if Lookup(v, path).Some? then v else SetNested(v, value, path)
  }

  /** What is found afterwards: the author's value, or the default, unless something on the
      way is not an object. */
  lemma SetIfAbsentLookup(v: Json, value: Json, path: Path)
    requires path != []
    ensures Lookup(SetIfAbsent(v, value, path), path) ==
            if Lookup(v, path).Some? then Lookup(v, path) else if Settable(v, path) then Some(value) else None
  {
    SetLookup(v, value, path);
  }

  lemma SetIfAbsentIndependent(v: Json, value: Json, p: Path, q: Path)
    requires Independent(p, q)
    ensures Lookup(SetIfAbsent(v, value, p), q) == Lookup(v, q)
    ensures Settable(SetIfAbsent(v, value, p), q) == Settable(v, q)
  {
    SetIndependent(v, value, p, q);
  }

  lemma SetObj(v: Json, value: Json, path: Path)
    requires path != []
    ensures SetNested(v, value, path).Obj? == v.Obj?
  {
  }

  // ----- growth -----

  /** `w` keeps everything `v` says: scalars are equal, objects keep their fields, lists keep
      their items in place; both may gain new fields and new items at the end. A null says nothing. */
  predicate Extends(v: Json, w: Json) {
    match v
    case Null => true
    case Obj(f) => w.Obj? && forall k <- f :: k in w.fields && Extends(f[k], w.fields[k])
    case Arr(xs) => w.Arr? && |xs| <= |w.items| && forall i :: 0 <= i < |xs| ==> Extends(xs[i], w.items[i])
    case _ => v == w
  }

  lemma {:induction false} ExtendsReflexive(v: Json)
    ensures Extends(v, v)
  {
    match v
    case Obj(f) => forall k | k in f ensures Extends(f[k], f[k]) { ExtendsReflexive(f[k]); }
    case Arr(xs) => forall i | 0 <= i < |xs| ensures Extends(xs[i], xs[i]) { ExtendsReflexive(xs[i]); }
    case _ =>
  }

  lemma {:induction false} ExtendsTransitive(u: Json, v: Json, w: Json)
    requires Extends(u, v) && Extends(v, w)
    ensures Extends(u, w)
  {
    match u
    case Null =>
    case Obj(f) =>
      forall k | k in f ensures k in w.fields && Extends(f[k], w.fields[k]) {
        ExtendsTransitive(f[k], v.fields[k], w.fields[k]);
      }
    case Arr(xs) =>
      forall i | 0 <= i < |xs| ensures Extends(xs[i], w.items[i]) {
        ExtendsTransitive(xs[i], v.items[i], w.items[i]);
      }
    case _ =>
  }

  /** Replacing what is at a path by an extension of it extends the whole tree. */
  lemma {:induction false} SetExtends(v: Json, value: Json, path: Path)
    requires path != []
    requires Lookup(v, path).Some? ==> Extends(Lookup(v, path).value, value)
    ensures Extends(v, SetNested(v, value, path))
    decreases |path|
  {
    ExtendsReflexive(v);
    if v.Obj? {
      forall k | k in v.fields ensures Extends(v.fields[k], v.fields[k]) { ExtendsReflexive(v.fields[k]); }
      if |path| == 1 {
        assert path[1..] == [];
        if path[0] in v.fields {
          assert Lookup(v, path) == Lookup(v.fields[path[0]], []);
        }
        var w := SetNested(v, value, path);
        forall k | k in v.fields ensures k in w.fields && Extends(v.fields[k], w.fields[k]) {
          if k == path[0] { assert w.fields[k] == value; }
        }
      } else if path[0] in v.fields && v.fields[path[0]].Obj? {
        SetExtends(v.fields[path[0]], value, path[1..]);
      }
    }
  }
}
