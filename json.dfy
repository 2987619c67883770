/**
 * The JSON-like configuration value (`serde_json::Value`) and navigation
 * through its object fields.
 */
module Json {
  import opened Wrappers

  /** Numbers are integers here; floating-point numbers are not modelled. */
  datatype Value =
    | Null
    | Bool(b: bool)
    | Number(n: int)
    | Str(s: string)
    | Array(items: seq<Value>)
    | Object(fields: map<string, Value>)

  /** `{}` */
  const EmptyObject: Value := Object(map[])

  /** The value reached from `v` by following the field names of `path`;
      arrays and scalars have no fields. */
  function Follow(v: Value, path: seq<string>): Option<Value>
    decreases |path|
  {
    if path == [] then Some(v)
    else match v
      case Object(m) => if path[0] in m then Follow(m[path[0]], path[1..]) else None
      case _ => None
  }

  predicate IsPrefix(p: seq<string>, q: seq<string>) {
    |p| <= |q| && q[..|p|] == p
  }

  predicate IsStrictPrefix(p: seq<string>, q: seq<string>) {
    |p| < |q| && q[..|p|] == p
  }

  /** No field name on any object reachable through object fields contains a '.'. */
  predicate FieldsDotFree(v: Value)
    decreases v
  {
    match v
    case Object(m) => forall k :: k in m ==> '.' !in k && FieldsDotFree(m[k])
    case _ => true
  }

  /** Every object reachable through object fields, `v` included, has a field. */
  predicate ObjectsNonEmpty(v: Value)
    decreases v
  {
    match v
    case Object(m) => m != map[] && forall k :: k in m ==> ObjectsNonEmpty(m[k])
    case _ => true
  }

  lemma {:induction false} FollowAppend(v: Value, p: seq<string>, q: seq<string>)
    ensures Follow(v, p + q) == if Follow(v, p).Some? then Follow(Follow(v, p).value, q) else None
    decreases |p|
  {
    if p == [] {
      assert p + q == q;
    } else {
      assert (p + q)[0] == p[0] && (p + q)[1..] == p[1..] + q;
      match v
      case Object(m) =>
        if p[0] in m { FollowAppend(m[p[0]], p[1..], q); }
      case _ =>
    }
  }

  /** Whatever lies strictly above a reachable value is a non-empty object. */
  lemma FollowStrictPrefix(v: Value, p: seq<string>, q: seq<string>)
    requires IsStrictPrefix(p, q) && Follow(v, q).Some?
    ensures Follow(v, p).Some? && Follow(v, p).value.Object?
    ensures q[|p|] in Follow(v, p).value.fields
  {
    var rest := q[|p|..];
    assert q == p + rest;
    FollowAppend(v, p, rest);
  }

  /** Two values that agree, at every path, on absence, on being an object
      and on non-object contents. */
  ghost predicate Agree(a: Value, b: Value) {
    forall p :: AgreeAt(a, b, p)
  }

  ghost predicate AgreeAt(a: Value, b: Value, p: seq<string>) {
    && (Follow(a, p).Some? <==> Follow(b, p).Some?)
    && (Follow(a, p).Some? ==>
          && (Follow(a, p).value.Object? <==> Follow(b, p).value.Object?)
          && (!Follow(a, p).value.Object? ==> Follow(a, p) == Follow(b, p)))
  }

  /** A value is determined by its objects and leaves. */
  lemma {:induction false} AgreeEqual(a: Value, b: Value)
    requires Agree(a, b)
    ensures a == b
    decreases a
  {
    assert AgreeAt(a, b, []);
    assert Follow(a, []) == Some(a) && Follow(b, []) == Some(b);
    if a.Object? {
      var ma, mb := a.fields, b.fields;
      forall k | k in ma
        ensures k in mb && ma[k] == mb[k]
      {
        assert [k][0] == k && [k][1..] == [];
        assert Follow(a, [k]) == Follow(ma[k], []) == Some(ma[k]);
        assert AgreeAt(a, b, [k]);
        assert Follow(b, [k]) == Follow(mb[k], []);
        forall p ensures AgreeAt(ma[k], mb[k], p) {
          assert AgreeAt(a, b, [k] + p);
          assert ([k] + p)[0] == k && ([k] + p)[1..] == p;
        }
        AgreeEqual(ma[k], mb[k]);
      }
      forall k | k in mb ensures k in ma {
        assert [k][0] == k && [k][1..] == [];
        assert Follow(b, [k]) == Follow(mb[k], []) == Some(mb[k]);
        assert AgreeAt(a, b, [k]);
      }
      assert ma == mb;
    }
  }
}
