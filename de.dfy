/**
 * Flattening a nested configuration document into a map from dotted keys to
 * leaf values (crates/rachat-config/src/de.rs).
 *
 * The order in which the fields of an object are visited is left open: it is
 * the iteration order of `serde_json::Map`, which depends on the crate's build
 * features. When two different paths flatten to the same key (a field name
 * containing '.'), the later visit wins, so the model only says which leaves
 * the surviving entry can come from.
 */
module De {
  import opened Wrappers
  import opened Json
  import opened Paths

  /** The (key, leaf) entries flattening `v` under `key` can insert. */
  ghost function Leaves(key: string, v: Value): set<(string, Value)>
    decreases v
  {
    match v
    case Object(m) => set k, e | k in m && e in Leaves(key + "." + k, m[k]) :: e
    case _ => {(key, v)}
  }

  ghost function KeysOf(entries: set<(string, Value)>): set<string> {
    set e | e in entries :: e.0
  }

  /** The entries the fields in `done` of an object contribute. */
  ghost function FieldLeaves(key: string, m: map<string, Value>, done: set<string>): set<(string, Value)>
    requires done <= m.Keys
  {
    set k, e | k in done && e in Leaves(key + "." + k, m[k]) :: e
  }

  /** `r` is `hm` after flattening `v` under `key` into it: the keys of `v`'s
      leaves are added, every other entry of `hm` is kept, and each added key
      holds a leaf of `v` that flattens to it. */
  ghost predicate FlattensInto(hm: map<string, Value>, key: string, v: Value, r: map<string, Value>) {
    var keys := KeysOf(Leaves(key, v));
    && r.Keys == hm.Keys + keys
    && (forall q :: q in r && q !in keys ==> r[q] == hm[q])
    && (forall q :: q in keys ==> (q, r[q]) in Leaves(key, v))
  }

  /** `r` is what `deserialize(d)` can return. */
  ghost predicate IsFlattening(d: Value, r: map<string, Value>) {
    FlattensInto(map[], "", d, r)
  }

  /** `r` is `hm` after the fields in `done` of an object at `key` were
      flattened into it. */
  ghost predicate FlattenedFields(hm: map<string, Value>, key: string, m: map<string, Value>, done: set<string>, r: map<string, Value>)
    requires done <= m.Keys
  {
    var keys := KeysOf(FieldLeaves(key, m, done));
    && r.Keys == hm.Keys + keys
    && (forall q :: q in r && q !in keys ==> r[q] == hm[q])
    && (forall q :: q in keys ==> (q, r[q]) in FieldLeaves(key, m, done))
  }

  /** Flattening one more field keeps `FlattenedFields`. */
  lemma FieldStep(hm: map<string, Value>, key: string, m: map<string, Value>, done: set<string>, k: string,
                  prev: map<string, Value>, r: map<string, Value>)
    requires done <= m.Keys && k in m && k !in done
    requires FlattenedFields(hm, key, m, done, prev)
    requires FlattensInto(prev, key + "." + k, m[k], r)
    ensures FlattenedFields(hm, key, m, done + {k}, r)
  {
    var before := FieldLeaves(key, m, done);
    var added := Leaves(key + "." + k, m[k]);
    assert FieldLeaves(key, m, done + {k}) == before + added;
    assert KeysOf(before + added) == KeysOf(before) + KeysOf(added);
    forall q | q in KeysOf(before + added)
      ensures (q, r[q]) in before + added
    {
      if q !in KeysOf(added) {
        assert r[q] == prev[q];
      }
    }
  }

  /** `flatten`: insert every non-object value reachable from `value` through
      object fields into `hm`, under `key` extended by ".field" per step. */
  method Flatten(hm: map<string, Value>, key: string, value: Value) returns (r: map<string, Value>)
    ensures FlattensInto(hm, key, value, r)
    decreases value
  {
    match value {
      case Object(m) =>
        r := hm;
        var todo := m.Keys;
        while todo != {}
          invariant todo <= m.Keys
          invariant FlattenedFields(hm, key, m, m.Keys - todo, r)
          decreases todo
        {
          var k :| k in todo;
          ghost var prev := r;
          r := Flatten(r, key + "." + k, m[k]);
          FieldStep(hm, key, m, m.Keys - todo, k, prev, r);
          assert m.Keys - (todo - {k}) == (m.Keys - todo) + {k};
          todo := todo - {k};
        }
        assert FieldLeaves(key, m, m.Keys) == Leaves(key, value);
      case _ =>
        r := hm[key := value];
        assert KeysOf(Leaves(key, value)) == {key};
    }
  }

  /** `deserialize`: flatten into an empty map, starting from the empty key. */
  method Deserialize(d: Value) returns (r: map<string, Value>)
    ensures IsFlattening(d, r)
    ensures forall q :: q in r ==> !r[q].Object?
    ensures !d.Object? ==> r == map["" := d]
    ensures d == EmptyObject ==> r == map[]
  {
    r := Flatten(map[], "", d);
    forall q | q in r ensures !r[q].Object? {
      LeavesAreNotObjects("", d, (q, r[q]));
    }
    if !d.Object? {
      assert KeysOf(Leaves("", d)) == {""};
    }
  }

  /** Flattening never stores an object. */
  lemma {:induction false} LeavesAreNotObjects(key: string, v: Value, e: (string, Value))
    requires e in Leaves(key, v)
    ensures !e.1.Object?
    decreases v
  {
    if v.Object? {
      var k :| k in v.fields && e in Leaves(key + "." + k, v.fields[k]);
      LeavesAreNotObjects(key + "." + k, v.fields[k], e);
    }
  }

  /** Every entry is a non-object value at some path of field names, under
      the key extended by that path. */
  lemma {:induction false} LeafPath(key: string, v: Value, e: (string, Value)) returns (path: seq<string>)
    requires e in Leaves(key, v)
    ensures Follow(v, path) == Some(e.1) && !e.1.Object?
    ensures e.0 == key + Dotted(path)
    decreases v
  {
    match v
    case Object(m) =>
      var k :| k in m && e in Leaves(key + "." + k, m[k]);
      var rest := LeafPath(key + "." + k, m[k], e);
      path := [k] + rest;
      assert path[0] == k && path[1..] == rest;
      assert key + Dotted(path) == (key + "." + k) + Dotted(rest);
    case _ =>
      path := [];
      assert key + Dotted([]) == key;
  }

  /** Conversely, every non-object value at a path of field names is an
      entry, under the key extended by that path. */
  lemma {:induction false} PathLeaf(key: string, v: Value, path: seq<string>)
    requires Follow(v, path).Some? && !Follow(v, path).value.Object?
    ensures (key + Dotted(path), Follow(v, path).value) in Leaves(key, v)
    decreases |path|
  {
    if path == [] {
      assert key + Dotted(path) == key;
    } else {
      var k := path[0];
      var child := v.fields[k];
      PathLeaf(key + "." + k, child, path[1..]);
      assert key + Dotted(path) == (key + "." + k) + Dotted(path[1..]);
    }
  }

  /** Every key `deserialize` produces is the path to its leaf with a '.'
      before each field name, so a key from an object document starts with '.'. */
  lemma DeserializedKey(d: Value, r: map<string, Value>, q: string) returns (path: seq<string>)
    requires IsFlattening(d, r) && q in r
    ensures Follow(d, path) == Some(r[q]) && !r[q].Object? && q == Dotted(path)
    ensures d.Object? ==> |q| > 0 && q[0] == '.'
  {
    path := LeafPath("", d, (q, r[q]));
    assert "" + Dotted(path) == Dotted(path);
  }

  /** The paths of field names that lead to non-object values. */
  ghost function LeafPaths(v: Value): set<seq<string>>
    decreases v
  {
    match v
    case Object(m) => set k, p | k in m && p in LeafPaths(m[k]) :: [k] + p
    case _ => {[]}
  }

  lemma {:induction false} LeafPathsFollow(v: Value, p: seq<string>)
    ensures p in LeafPaths(v) <==> Follow(v, p).Some? && !Follow(v, p).value.Object?
    decreases |p|
  {
    if p != [] && v.Object? {
      var m := v.fields;
      if p[0] in m {
        LeafPathsFollow(m[p[0]], p[1..]);
        assert p == [p[0]] + p[1..];
      }
      if p in LeafPaths(v) {
        var k, rest :| k in m && rest in LeafPaths(m[k]) && p == [k] + rest;
        assert p[0] == k && p[1..] == rest;
      }
    }
  }

  /** In a document without '.' in field names every path is dot-free. */
  lemma {:induction false} FollowDotFree(v: Value, p: seq<string>)
    requires FieldsDotFree(v) && Follow(v, p).Some?
    ensures DotFree(p)
    decreases |p|
  {
    if p != [] {
      FollowDotFree(v.fields[p[0]], p[1..]);
      forall i | 0 <= i < |p| ensures '.' !in p[i] {
        if i > 0 { assert p[i] == p[1..][i - 1]; }
      }
    }
  }

  ghost function DottedImage(paths: set<seq<string>>): set<string> {
    set p | p in paths :: Dotted(p)
  }

  lemma {:induction false} DottedImageSize(paths: set<seq<string>>)
    requires forall p, q :: p in paths && q in paths && Dotted(p) == Dotted(q) ==> p == q
    ensures |DottedImage(paths)| == |paths|
    decreases |paths|
  {
    if paths != {} {
      var x :| x in paths;
      var rest := paths - {x};
      DottedImageSize(rest);
      assert DottedImage(paths) == DottedImage(rest) + {Dotted(x)} by {
        forall q | q in DottedImage(paths) ensures q in DottedImage(rest) + {Dotted(x)} {
          var p :| p in paths && q == Dotted(p);
          if p != x { assert p in rest; }
        }
      }
      assert Dotted(x) !in DottedImage(rest);
    }
  }

  /** The keys of a flattening are the flattened leaf paths. */
  lemma FlatteningKeys(d: Value, r: map<string, Value>)
    requires IsFlattening(d, r)
    ensures r.Keys == DottedImage(LeafPaths(d))
  {
    forall q | q in r ensures q in DottedImage(LeafPaths(d)) {
      var path := DeserializedKey(d, r, q);
      LeafPathsFollow(d, path);
      assert path in LeafPaths(d);
      assert Dotted(path) in DottedImage(LeafPaths(d));
    }
    forall p | p in LeafPaths(d) ensures Dotted(p) in r {
      LeafPathsFollow(d, p);
      PathLeaf("", d, p);
      assert "" + Dotted(p) == Dotted(p);
      assert (Dotted(p), Follow(d, p).value) in Leaves("", d);
    }
  }

  /** Without '.' in field names no two leaves collide: `deserialize` yields
      one entry per non-object value reachable through object fields. */
  lemma EntryCount(d: Value, r: map<string, Value>)
    requires IsFlattening(d, r) && FieldsDotFree(d)
    ensures |r| == |LeafPaths(d)|
  {
    var paths := LeafPaths(d);
    forall p, q | p in paths && q in paths && Dotted(p) == Dotted(q) ensures p == q {
      LeafPathsFollow(d, p);
      FollowDotFree(d, p);
      LeafPathsFollow(d, q);
      FollowDotFree(d, q);
      DottedInjective(p, q);
    }
    FlatteningKeys(d, r);
    DottedImageSize(paths);
    assert |r| == |r.Keys|;
  }
}
