/**
 * Rebuilding a nested document from a map of dotted keys (src/config/ser.rs).
 *
 * `insert` updates the root through a `&mut Value`; here it is a function
 * returning the updated value. `serialize` visits the map's entries in the
 * unspecified iteration order of a `HashMap`; the method reports the order it
 * took as a ghost result, and `InsertAll` gives the outcome for any order.
 */
module Ser {
  import opened Wrappers
  import opened Json
  import opened Paths
  import opened Errors

  /** `insert`: walk `segments` down from `root`, creating empty objects for
      missing fields, and put `value` where the walk ends. */
  function Insert(segments: seq<string>, root: Value, value: Value): Result<Value, Error>
    decreases |segments|
  {
    if segments != [] then
      match root
      case Object(m) =>
        var updated :- Insert(segments[1..], Child(m, segments[0]), value);
        Success(Object(m[segments[0] := updated]))
      case _ => Failure(NotAMap(root))
    else if root == EmptyObject then Success(value)
    else Failure(CannotOverwrite(root))
  }

  /** The outcome of inserting the entries of `m` into `root` in `order`,
      stopping at the first failure. */
  function InsertAll(root: Value, m: map<string, Value>, order: seq<string>): Result<Value, Error>
    requires forall i :: 0 <= i < |order| ==> order[i] in m
    decreases |order|
  {
    if order == [] then Success(root)
    else
      var next :- Insert(Split(order[0]), root, m[order[0]]);
      InsertAll(next, m, order[1..])
  }

  /** `order` lists every element of `keys` exactly once. */
  ghost predicate Enumerates(order: seq<string>, keys: set<string>) {
    && (forall i, j :: 0 <= i < j < |order| ==> order[i] != order[j])
    && (forall i :: 0 <= i < |order| ==> order[i] in keys)
    && (forall k :: k in keys ==> k in order)
  }

  /** Some enumeration of a finite set of keys. */
  ghost function Enumeration(keys: set<string>): (order: seq<string>)
    ensures Enumerates(order, keys)
    decreases |keys|
  {
    if keys == {} then []
    else
      var k :| k in keys;
      var rest := Enumeration(keys - {k});
      assert forall i :: 0 < i < |[k] + rest| ==> ([k] + rest)[i] == rest[i - 1];
      [k] + rest
  }

  lemma {:induction false} InsertAllAppend(root: Value, m: map<string, Value>, a: seq<string>, b: seq<string>)
    requires forall i :: 0 <= i < |a| ==> a[i] in m
    requires forall i :: 0 <= i < |b| ==> b[i] in m
    ensures forall i :: 0 <= i < |a + b| ==> (a + b)[i] in m
    ensures InsertAll(root, m, a + b) ==
              match InsertAll(root, m, a)
              case Success(next) => InsertAll(next, m, b)
              case Failure(e) => Failure(e)
    decreases |a|
  {
    assert forall i :: 0 <= i < |a + b| ==> (a + b)[i] in m by {
      forall i | 0 <= i < |a + b| ensures (a + b)[i] in m {
        if i >= |a| { assert (a + b)[i] == b[i - |a|]; }
      }
    }
    if a == [] {
      assert a + b == b;
    } else {
      assert (a + b)[0] == a[0] && (a + b)[1..] == a[1..] + b;
      var step := Insert(Split(a[0]), root, m[a[0]]);
      if step.Success? {
        InsertAllAppend(step.value, m, a[1..], b);
      }
    }
  }

  /** An enumeration of the keys done, the key at hand and an enumeration of
      the keys still to do enumerate all the keys. */
  lemma EnumeratesJoin(order: seq<string>, key: string, rest: seq<string>, keys: set<string>, todo: set<string>)
    requires todo <= keys && key in todo
    requires Enumerates(order, keys - todo) && Enumerates(rest, todo - {key})
    ensures Enumerates(order + [key] + rest, keys)
  {
    var all := order + [key] + rest;
    forall i, j | 0 <= i < j < |all| ensures all[i] != all[j] {
      if j < |order| {
        assert all[i] == order[i] && all[j] == order[j];
      } else if j == |order| {
        assert all[i] == order[i] && all[j] == key;
      } else if i < |order| {
        assert all[i] == order[i] && all[j] == rest[j - |order| - 1];
      } else if i == |order| {
        assert all[i] == key && all[j] == rest[j - |order| - 1];
      } else {
        assert all[i] == rest[i - |order| - 1] && all[j] == rest[j - |order| - 1];
      }
    }
    forall i | 0 <= i < |all| ensures all[i] in keys {
      if i < |order| { assert all[i] == order[i]; }
      else if i > |order| { assert all[i] == rest[i - |order| - 1]; }
    }
    forall k | k in keys ensures k in all {
      if k !in order && k != key { assert k in (todo - {key}); }
    }
  }

  /** `serialize`: insert every entry at the segments of its key, starting
      from an empty object, and fail at the first entry that conflicts. */
  method Serialize(m: map<string, Value>) returns (r: Result<Value, Error>, ghost order: seq<string>)
    ensures Enumerates(order, m.Keys)
    ensures r == InsertAll(EmptyObject, m, order)
    ensures m == map[] ==> r == Success(EmptyObject)
  {
    var root := EmptyObject;
    var todo := m.Keys;
    order := [];
    while todo != {}
      invariant todo <= m.Keys
      invariant Enumerates(order, m.Keys - todo)
      invariant InsertAll(EmptyObject, m, order) == Success(root)
      decreases todo
    {
      var key :| key in todo;
      var inserted := Insert(Split(key), root, m[key]);
      InsertAllAppend(EmptyObject, m, order, [key]);
      if inserted.Failure? {
        ghost var rest := Enumeration(todo - {key});
        InsertAllAppend(EmptyObject, m, order + [key], rest);
        EnumeratesJoin(order, key, rest, m.Keys, todo);
        order := order + [key] + rest;
        return inserted, order;
      }
      root := inserted.value;
      order := order + [key];
      todo := todo - {key};
    }
    r := Success(root);
  }

  // ---------------------------------------------------------------------
  // What one insert does

  /** The walk may continue through what it finds (an object) or through a
      missing field, and must end at a missing field or an empty object. */
  ghost predicate InsertAllowed(segments: seq<string>, root: Value) {
    && (forall i :: 0 <= i < |segments| && Follow(root, segments[..i]).Some? ==>
          Follow(root, segments[..i]).value.Object?)
    && (Follow(root, segments).None? || Follow(root, segments) == Some(EmptyObject))
  }

  /** `r` is `root` with `value` placed at `segments`: every strict prefix of
      the path is an object, the value sits at the path, and every path that
      neither extends nor is a prefix of `segments` reads as before. */
  ghost predicate InsertEffect(segments: seq<string>, root: Value, value: Value, r: Value) {
    && Follow(r, segments) == Some(value)
    && (forall i :: 0 <= i < |segments| ==>
          Follow(r, segments[..i]).Some? && Follow(r, segments[..i]).value.Object?)
    && (forall p :: !IsPrefix(p, segments) && !IsPrefix(segments, p) ==> Follow(r, p) == Follow(root, p))
    && (forall p :: IsStrictPrefix(segments, p) ==> Follow(r, p) == Follow(value, p[|segments|..]))
  }

  lemma FollowField(m: map<string, Value>, s: string, q: seq<string>)
    ensures Follow(Object(m), [s] + q) == if s in m then Follow(m[s], q) else None
  {
    assert ([s] + q)[0] == s && ([s] + q)[1..] == q;
  }

  lemma {:induction false} FollowEmptyObject(q: seq<string>)
    ensures Follow(EmptyObject, q) == if q == [] then Some(EmptyObject) else None
  {
  }

  /** The field `insert` descends into: the existing one, or an empty object. */
  function Child(m: map<string, Value>, s: string): Value {
    if s in m then m[s] else EmptyObject
  }

  /** The walk from an object is the walk from the child, one step later. */
  lemma {:induction false} InsertAllowedField(m: map<string, Value>, segments: seq<string>)
    requires segments != []
    ensures InsertAllowed(segments, Object(m)) <==> InsertAllowed(segments[1..], Child(m, segments[0]))
  {
    var root := Object(m);
    var s, rest := segments[0], segments[1..];
    var child := Child(m, s);
    assert segments == [s] + rest;
    FollowField(m, s, rest);
    FollowEmptyObject(rest);
    forall j | 0 <= j < |rest|
      ensures Follow(root, segments[..j + 1]) == if s in m then Follow(child, rest[..j]) else None
    {
      assert segments[..j + 1] == [s] + rest[..j];
      FollowField(m, s, rest[..j]);
    }
    assert segments[..0] == [] && Follow(root, []) == Some(root);
    if s !in m {
      assert Follow(child, rest[..0]) == Some(EmptyObject) by { assert rest[..0] == []; }
      forall j | 0 < j < |rest| ensures Follow(child, rest[..j]).None? {
        FollowEmptyObject(rest[..j]);
      }
    }
    if InsertAllowed(rest, child) {
      forall i | 0 <= i < |segments| && Follow(root, segments[..i]).Some?
        ensures Follow(root, segments[..i]).value.Object?
      {
        if i > 0 { assert Follow(root, segments[..i]) == if s in m then Follow(child, rest[..i - 1]) else None; }
      }
    }
    if InsertAllowed(segments, root) {
      forall j | 0 <= j < |rest| && Follow(child, rest[..j]).Some?
        ensures Follow(child, rest[..j]).value.Object?
      {
        if s in m {
          assert Follow(root, segments[..j + 1]) == Follow(child, rest[..j]);
        } else {
          FollowEmptyObject(rest[..j]);
        }
      }
    }
  }

  /** Replacing the child by one with `value` placed below it places `value`
      below the object. */
  lemma {:induction false} InsertEffectField(m: map<string, Value>, segments: seq<string>, value: Value, c: Value)
    requires segments != []
    requires InsertEffect(segments[1..], Child(m, segments[0]), value, c)
    ensures InsertEffect(segments, Object(m), value, Object(m[segments[0] := c]))
  {
    var root := Object(m);
    var s, rest := segments[0], segments[1..];
    assert segments == [s] + rest;
    var m' := m[s := c];
    var r := Object(m');
    FollowField(m', s, rest);
    forall i | 0 <= i < |segments|
      ensures Follow(r, segments[..i]).Some? && Follow(r, segments[..i]).value.Object?
    {
      if i == 0 {
        assert segments[..0] == [];
      } else {
        assert segments[..i] == [s] + rest[..i - 1];
        FollowField(m', s, rest[..i - 1]);
      }
    }
    forall p | !IsPrefix(p, segments) && !IsPrefix(segments, p)
      ensures Follow(r, p) == Follow(root, p)
    {
      assert p != [];
      var t, q := p[0], p[1..];
      assert p == [t] + q;
      FollowField(m', t, q);
      FollowField(m, t, q);
      if t == s {
        assert !IsPrefix(q, rest) && !IsPrefix(rest, q);
        if s !in m {
          assert q != [];
          FollowEmptyObject(q);
        }
      }
    }
    forall p | IsStrictPrefix(segments, p)
      ensures Follow(r, p) == Follow(value, p[|segments|..])
    {
      var q := p[1..];
      assert p == [s] + q;
      assert IsStrictPrefix(rest, q);
      FollowField(m', s, q);
      assert p[|segments|..] == q[|rest|..];
    }
  }

  /** `insert` succeeds exactly when the walk is allowed, and then it has
      exactly the effect described by `InsertEffect`. */
  lemma {:induction false} InsertSpec(segments: seq<string>, root: Value, value: Value)
    ensures Insert(segments, root, value).Success? <==> InsertAllowed(segments, root)
    ensures Insert(segments, root, value).Success? ==>
              InsertEffect(segments, root, value, Insert(segments, root, value).value)
    decreases |segments|
  {
    if segments == [] {
      assert Follow(root, []) == Some(root);
      if root == EmptyObject {
        forall p | IsStrictPrefix(segments, p) ensures Follow(value, p) == Follow(value, p[|segments|..]) {
          assert p[|segments|..] == p;
        }
      }
    } else if !root.Object? {
      assert segments[..0] == [] && Follow(root, []) == Some(root);
    } else {
      var child := Child(root.fields, segments[0]);
      InsertSpec(segments[1..], child, value);
      InsertAllowedField(root.fields, segments);
      var sub := Insert(segments[1..], child, value);
      if sub.Success? {
        InsertEffectField(root.fields, segments, value, sub.value);
      }
    }
  }

  /** Lines 28-30: the walk meets something other than an object before the
      path ends, and `insert` reports exactly that value as not a map. */
  lemma {:induction false} InsertThroughLeafFails(segments: seq<string>, root: Value, value: Value, i: nat)
    requires i < |segments|
    requires Follow(root, segments[..i]).Some? && !Follow(root, segments[..i]).value.Object?
    ensures Insert(segments, root, value) == Failure(NotAMap(Follow(root, segments[..i]).value))
    decreases i
  {
    if i == 0 {
      assert segments[..0] == [];
    } else {
      var s, rest := segments[0], segments[1..];
      assert segments[..i] == [s] + rest[..i - 1];
      FollowField(root.fields, s, rest[..i - 1]);
      InsertThroughLeafFails(rest, root.fields[s], value, i - 1);
    }
  }

  /** Lines 36-39: the path ends at anything but an empty object (a leaf
      included), and `insert` refuses to overwrite it. */
  lemma {:induction false} InsertOverNonEmptyFails(segments: seq<string>, root: Value, value: Value)
    requires Follow(root, segments).Some? && Follow(root, segments).value != EmptyObject
    ensures Insert(segments, root, value) == Failure(CannotOverwrite(Follow(root, segments).value))
    decreases |segments|
  {
    if segments != [] {
      var s, rest := segments[0], segments[1..];
      assert segments == [s] + rest;
      FollowField(root.fields, s, rest);
      InsertOverNonEmptyFails(rest, root.fields[s], value);
    }
  }

  // ---------------------------------------------------------------------
  // What serialize does with entries whose values are not objects

  /** No value of `m` is an object (as for the result of `deserialize`). */
  ghost predicate LeafValues(m: map<string, Value>) {
    forall k :: k in m ==> !m[k].Object?
  }

  /** The segments of two entries do not clash: neither path is a prefix of
      the other. */
  ghost predicate Compatible(a: string, b: string) {
    !IsPrefix(Split(a), Split(b)) && !IsPrefix(Split(b), Split(a))
  }

  /** No key's segments are a prefix of another key's segments. */
  ghost predicate PrefixFree(keys: set<string>) {
    forall a, b :: a in keys && b in keys && a != b ==> Compatible(a, b)
  }

  /** `r` is the document holding exactly the entries `keys` of `m`: it is an
      object, each entry sits at its segments, every leaf is an entry and
      every object other than the root lies on the way to one. */
  ghost predicate Describes(r: Value, m: map<string, Value>, keys: set<string>) {
    && r.Object?
    && (forall k :: k in keys ==> k in m && Follow(r, Split(k)) == Some(m[k]))
    && (forall p :: Follow(r, p).Some? && !Follow(r, p).value.Object? ==>
          exists k :: k in keys && Split(k) == p)
    && (forall p :: p != [] && Follow(r, p).Some? && Follow(r, p).value.Object? ==>
          exists k :: k in keys && IsStrictPrefix(p, Split(k)))
  }

  lemma DescribesNothing(m: map<string, Value>)
    ensures Describes(EmptyObject, m, {})
  {
    forall p | Follow(EmptyObject, p).Some? ensures p == [] {
      FollowEmptyObject(p);
    }
  }

  /** One document describing `keys` sees everything the other one does. */
  lemma {:induction false} DescribesAgreeAt(r1: Value, r2: Value, m: map<string, Value>, keys: set<string>, p: seq<string>)
    requires Describes(r1, m, keys) && Describes(r2, m, keys)
    requires Follow(r1, p).Some?
    ensures Follow(r2, p).Some?
    ensures Follow(r1, p).value.Object? <==> Follow(r2, p).value.Object?
    ensures !Follow(r1, p).value.Object? ==> Follow(r1, p) == Follow(r2, p)
  {
    if p == [] {
      assert Follow(r1, p) == Some(r1) && Follow(r2, p) == Some(r2);
    } else if Follow(r1, p).value.Object? {
      var k :| k in keys && IsStrictPrefix(p, Split(k));
      FollowStrictPrefix(r2, p, Split(k));
    } else {
      var k :| k in keys && Split(k) == p;
    }
  }

  /** At most one document describes a given set of entries. */
  lemma DescribesUnique(r1: Value, r2: Value, m: map<string, Value>, keys: set<string>)
    requires Describes(r1, m, keys) && Describes(r2, m, keys)
    ensures r1 == r2
  {
    forall p ensures AgreeAt(r1, r2, p) {
      if Follow(r1, p).Some? { DescribesAgreeAt(r1, r2, m, keys, p); }
      if Follow(r2, p).Some? { DescribesAgreeAt(r2, r1, m, keys, p); }
    }
    AgreeEqual(r1, r2);
  }

  /** A new leaf key may be inserted into a document describing `keys`
      exactly when it clashes with none of them. */
  lemma {:induction false} StepAllowed(r: Value, m: map<string, Value>, keys: set<string>, k: string)
    requires Describes(r, m, keys) && LeafValues(m)
    ensures InsertAllowed(Split(k), r) <==> forall b :: b in keys ==> Compatible(k, b)
  {
    if forall b :: b in keys ==> Compatible(k, b) {
      CompatibleAllowed(r, m, keys, k);
    } else {
      var b :| b in keys && !Compatible(k, b);
      ClashForbidden(r, m, keys, k, b);
    }
  }

  lemma CompatibleAllowed(r: Value, m: map<string, Value>, keys: set<string>, k: string)
    requires Describes(r, m, keys)
    requires forall b :: b in keys ==> Compatible(k, b)
    ensures InsertAllowed(Split(k), r)
  {
  }

  lemma {:induction false} ClashForbidden(r: Value, m: map<string, Value>, keys: set<string>, k: string, b: string)
    requires Describes(r, m, keys) && LeafValues(m)
    requires b in keys && !Compatible(k, b)
    ensures !InsertAllowed(Split(k), r)
  {
    var segs, bs := Split(k), Split(b);
    assert Follow(r, bs) == Some(m[b]);
    if IsPrefix(bs, segs) {
      if bs != segs {
        assert segs[..|bs|] == bs;
      }
    } else {
      FollowStrictPrefix(r, segs, bs);
    }
  }

  /** The effect of inserting a compatible leaf entry keeps the document
      describing its entries. */
  lemma {:induction false} StepDescribes(r: Value, m: map<string, Value>, keys: set<string>, k: string, r': Value)
    requires Describes(r, m, keys) && k in m && !m[k].Object?
    requires forall b :: b in keys ==> Compatible(k, b)
    requires InsertEffect(Split(k), r, m[k], r')
    ensures Describes(r', m, keys + {k})
  {
    var segs, v := Split(k), m[k];
    assert segs[..0] == [];
    forall b | b in keys + {k} ensures Follow(r', Split(b)) == Some(m[b]) {
      if b != k { assert Compatible(k, b); }
    }
    forall p | Follow(r', p).Some? && !Follow(r', p).value.Object?
      ensures exists b :: b in keys + {k} && Split(b) == p
    {
      StepLeaf(r, m, keys, k, r', p);
    }
    forall p | p != [] && Follow(r', p).Some? && Follow(r', p).value.Object?
      ensures exists b :: b in keys + {k} && IsStrictPrefix(p, Split(b))
    {
      StepObject(r, m, keys, k, r', p);
    }
  }

  lemma {:induction false} StepLeaf(r: Value, m: map<string, Value>, keys: set<string>, k: string, r': Value, p: seq<string>)
    requires Describes(r, m, keys) && k in m && !m[k].Object?
    requires InsertEffect(Split(k), r, m[k], r')
    requires Follow(r', p).Some? && !Follow(r', p).value.Object?
    ensures exists b :: b in keys + {k} && Split(b) == p
  {
    var segs, v := Split(k), m[k];
    if p == segs {
    } else if !IsPrefix(p, segs) && !IsPrefix(segs, p) {
      assert Follow(r, p) == Follow(r', p);
    } else {
      // above the new entry there are objects, below its leaf nothing
      assert false;
    }
  }

  lemma {:induction false} StepObject(r: Value, m: map<string, Value>, keys: set<string>, k: string, r': Value, p: seq<string>)
    requires Describes(r, m, keys) && k in m && !m[k].Object?
    requires InsertEffect(Split(k), r, m[k], r')
    requires p != [] && Follow(r', p).Some? && Follow(r', p).value.Object?
    ensures exists b :: b in keys + {k} && IsStrictPrefix(p, Split(b))
  {
    var segs, v := Split(k), m[k];
    if IsStrictPrefix(p, segs) {
      assert k in keys + {k};
    } else if p == segs {
    } else if IsPrefix(p, segs) {
    } else if IsPrefix(segs, p) {
      // below a leaf value nothing is reachable
      assert false;
    } else {
      assert Follow(r, p) == Follow(r', p);
    }
  }

  /** Inserting one more leaf entry into a document describing `keys`
      succeeds exactly when the new key clashes with none of them, and then
      the result describes the enlarged set. */
  lemma {:induction false} InsertStep(r: Value, m: map<string, Value>, keys: set<string>, k: string)
    requires Describes(r, m, keys) && LeafValues(m) && k in m
    ensures Insert(Split(k), r, m[k]).Success? <==> forall b :: b in keys ==> Compatible(k, b)
    ensures Insert(Split(k), r, m[k]).Success? ==> Describes(Insert(Split(k), r, m[k]).value, m, keys + {k})
  {
    InsertSpec(Split(k), r, m[k]);
    StepAllowed(r, m, keys, k);
    if Insert(Split(k), r, m[k]).Success? {
      StepDescribes(r, m, keys, k, Insert(Split(k), r, m[k]).value);
    }
  }

  ghost function Elements(order: seq<string>): set<string> {
    set k | k in order
  }

  /** Inserting the distinct leaf entries `order` into a document describing
      `keys` succeeds exactly when all the keys together are prefix-free, and
      then describes them all. */
  lemma {:induction false} InsertAllDescribes(r: Value, m: map<string, Value>, keys: set<string>, order: seq<string>)
    requires LeafValues(m) && Describes(r, m, keys) && PrefixFree(keys)
    requires forall i :: 0 <= i < |order| ==> order[i] in m && order[i] !in keys
    requires forall i, j :: 0 <= i < j < |order| ==> order[i] != order[j]
    ensures InsertAll(r, m, order).Success? <==> PrefixFree(keys + Elements(order))
    ensures InsertAll(r, m, order).Success? ==>
              Describes(InsertAll(r, m, order).value, m, keys + Elements(order))
    decreases |order|
  {
    if order == [] {
      assert keys + Elements(order) == keys;
    } else {
      var k, rest := order[0], order[1..];
      assert Elements(order) == {k} + Elements(rest) by {
        assert order == [k] + rest;
      }
      InsertStep(r, m, keys, k);
      var step := Insert(Split(k), r, m[k]);
      if step.Success? {
        assert forall i :: 0 <= i < |rest| ==> rest[i] == order[i + 1];
        InsertAllDescribes(step.value, m, keys + {k}, rest);
        assert keys + {k} + Elements(rest) == keys + Elements(order);
      } else {
        var b :| b in keys && !Compatible(k, b);
        assert b in keys + Elements(order) && k in keys + Elements(order);
      }
    }
  }

  /** For leaf values, `serialize` succeeds exactly when no key's segments are
      a prefix of another key's, and the document it returns then holds every
      entry at its segments and nothing else, whichever order it took. */
  lemma SerializeSpec(m: map<string, Value>, order: seq<string>)
    requires LeafValues(m) && Enumerates(order, m.Keys)
    ensures InsertAll(EmptyObject, m, order).Success? <==> PrefixFree(m.Keys)
    ensures InsertAll(EmptyObject, m, order).Success? ==>
              Describes(InsertAll(EmptyObject, m, order).value, m, m.Keys)
  {
    DescribesNothing(m);
    InsertAllDescribes(EmptyObject, m, {}, order);
    assert {} + Elements(order) == m.Keys;
  }

  /** Lines 19-26, 33-35 and 53-55: on success every entry is reached by
      following the segments of its key from the result. */
  lemma SerializeReaches(m: map<string, Value>, order: seq<string>, k: string)
    requires LeafValues(m) && Enumerates(order, m.Keys) && k in m
    requires InsertAll(EmptyObject, m, order).Success?
    ensures Follow(InsertAll(EmptyObject, m, order).value, Split(k)) == Some(m[k])
  {
    SerializeSpec(m, order);
  }

  /** For leaf values, neither whether `serialize` succeeds nor what it
      returns depends on the iteration order of the map. */
  lemma SerializeOrderIndependent(m: map<string, Value>, order1: seq<string>, order2: seq<string>)
    requires LeafValues(m) && Enumerates(order1, m.Keys) && Enumerates(order2, m.Keys)
    ensures InsertAll(EmptyObject, m, order1).Success? == InsertAll(EmptyObject, m, order2).Success?
    ensures InsertAll(EmptyObject, m, order1).Success? ==>
              InsertAll(EmptyObject, m, order1) == InsertAll(EmptyObject, m, order2)
  {
    SerializeSpec(m, order1);
    SerializeSpec(m, order2);
    if InsertAll(EmptyObject, m, order1).Success? {
      DescribesUnique(InsertAll(EmptyObject, m, order1).value, InsertAll(EmptyObject, m, order2).value, m, m.Keys);
    }
  }

  /** An entry whose value is an object is merged with the entries below it
      when it comes first, and refused when it comes last: with object values
      the outcome depends on the iteration order. */
  lemma ObjectEntryOrderMatters()
    ensures var m := map["a" := EmptyObject, "a.b" := Number(1)];
            && InsertAll(EmptyObject, m, ["a", "a.b"]) == Success(Object(map["a" := Object(map["b" := Number(1)])]))
            && InsertAll(EmptyObject, m, ["a.b", "a"]) == Failure(CannotOverwrite(Object(map["b" := Number(1)])))
  {
    var m := map["a" := EmptyObject, "a.b" := Number(1)];
    var inner := Object(map["b" := Number(1)]);
    SplitDotFree("a");
    SplitDotFree("b");
    SplitAppend("a", "b");
    assert "a" + "." + "b" == "a.b";
    assert ["a", "b"][1..] == ["b"];
    // "a" first: an empty object is placed at ["a"], and "a.b" descends into it.
    assert Insert(["a"], EmptyObject, EmptyObject) == Success(Object(map["a" := EmptyObject]));
    assert Insert(["b"], EmptyObject, Number(1)) == Success(inner);
    assert Child(map["a" := EmptyObject], "a") == EmptyObject;
    assert map["a" := EmptyObject]["a" := inner] == map["a" := inner];
    assert Insert(["a", "b"], Object(map["a" := EmptyObject]), Number(1)) == Success(Object(map["a" := inner]));
    assert InsertAll(Object(map["a" := inner]), m, ["a", "a.b"][1..][1..]) == Success(Object(map["a" := inner]));
    // "a.b" first: the object at ["a"] is no longer empty when "a" arrives.
    assert Insert(["a", "b"], EmptyObject, Number(1)) == Success(Object(map["a" := inner]));
    assert Insert(["a"], Object(map["a" := inner]), EmptyObject) == Failure(CannotOverwrite(inner));
  }
}
