/**
 * The two halves of the codec together: what `serialize` makes of the map
 * `deserialize` produced (crates/rachat-config/src/de.rs and
 * src/config/ser.rs).
 *
 * Flattening starts from the empty key, so every key it produces starts with
 * a '.', and splitting such a key yields an empty first segment: the document
 * comes back nested under the field "".
 */
module Codec {
  import opened Wrappers
  import opened Json
  import opened Paths
  import opened De
  import opened Ser

  lemma {:induction false} ObjectsNonEmptyFollow(v: Value, p: seq<string>)
    requires ObjectsNonEmpty(v) && Follow(v, p).Some?
    ensures ObjectsNonEmpty(Follow(v, p).value)
    decreases |p|
  {
    if p != [] {
      ObjectsNonEmptyFollow(v.fields[p[0]], p[1..]);
    }
  }

  /** Below every object without empty objects there is a leaf. */
  lemma {:induction false} LeafBelow(w: Value) returns (q: seq<string>)
    requires ObjectsNonEmpty(w)
    ensures Follow(w, q).Some? && !Follow(w, q).value.Object?
    ensures w.Object? ==> q != []
    decreases w
  {
    if w.Object? {
      var k :| k in w.fields;
      var below := LeafBelow(w.fields[k]);
      q := [k] + below;
      FollowField(w.fields, k, below);
    } else {
      q := [];
    }
  }

  /** The segments of a flattened key: an empty one, then the field names. */
  lemma KeySegments(d: Value, r: map<string, Value>, q: string) returns (path: seq<string>)
    requires IsFlattening(d, r) && FieldsDotFree(d) && q in r
    ensures Follow(d, path) == Some(r[q]) && !r[q].Object?
    ensures q == Dotted(path) && Split(q) == [""] + path
  {
    path := DeserializedKey(d, r, q);
    FollowDotFree(d, path);
    SplitDotted("", path);
    assert "" + Dotted(path) == Dotted(path);
  }

  /** The key a leaf of `d` is stored under. */
  lemma LeafKey(d: Value, r: map<string, Value>, path: seq<string>)
    requires IsFlattening(d, r) && FieldsDotFree(d)
    requires Follow(d, path).Some? && !Follow(d, path).value.Object?
    ensures Dotted(path) in r && Split(Dotted(path)) == [""] + path
  {
    LeafPathsFollow(d, path);
    FlatteningKeys(d, r);
    assert Dotted(path) in DottedImage(LeafPaths(d));
    FollowDotFree(d, path);
    SplitDotted("", path);
    assert "" + Dotted(path) == Dotted(path);
  }

  lemma {:induction false} RootLeaf(d: Value, r: map<string, Value>, p: seq<string>)
    requires IsFlattening(d, r) && FieldsDotFree(d)
    requires Follow(Object(map["" := d]), p).Some? && !Follow(Object(map["" := d]), p).value.Object?
    ensures exists k :: k in r && Split(k) == p
  {
    assert p != [];
    assert p == [p[0]] + p[1..];
    FollowField(map["" := d], p[0], p[1..]);
    LeafKey(d, r, p[1..]);
    assert Split(Dotted(p[1..])) == p;
  }

  lemma {:induction false} RootObject(d: Value, r: map<string, Value>, p: seq<string>)
    requires IsFlattening(d, r) && FieldsDotFree(d) && ObjectsNonEmpty(d)
    requires p != [] && Follow(Object(map["" := d]), p).Some? && Follow(Object(map["" := d]), p).value.Object?
    ensures exists k :: k in r && IsStrictPrefix(p, Split(k))
  {
    var path := p[1..];
    assert p == [p[0]] + path;
    FollowField(map["" := d], p[0], path);
    ObjectsNonEmptyFollow(d, path);
    var below := LeafBelow(Follow(d, path).value);
    FollowAppend(d, path, below);
    LeafKey(d, r, path + below);
    var k := Dotted(path + below);
    assert Split(k) == p + below;
    assert (p + below)[..|p|] == p;
  }

  /** `{"": d}` describes the flattening of `d`. */
  lemma DescribesNested(d: Value, r: map<string, Value>)
    requires IsFlattening(d, r) && FieldsDotFree(d) && ObjectsNonEmpty(d)
    ensures Describes(Object(map["" := d]), r, r.Keys)
  {
    var doc := Object(map["" := d]);
    forall q | q in r ensures Follow(doc, Split(q)) == Some(r[q]) {
      var path := KeySegments(d, r, q);
      FollowField(map["" := d], "", path);
    }
    forall p | Follow(doc, p).Some? && !Follow(doc, p).value.Object?
      ensures exists k :: k in r.Keys && Split(k) == p
    {
      RootLeaf(d, r, p);
    }
    forall p | p != [] && Follow(doc, p).Some? && Follow(doc, p).value.Object?
      ensures exists k :: k in r.Keys && IsStrictPrefix(p, Split(k))
    {
      RootObject(d, r, p);
    }
  }

  /** A leaf path is a prefix only of itself. */
  lemma LeafPrefixEqual(d: Value, p: seq<string>, q: seq<string>)
    requires Follow(d, p).Some? && !Follow(d, p).value.Object?
    requires Follow(d, q).Some? && IsPrefix(p, q)
    ensures p == q
  {
    if |p| < |q| {
      FollowStrictPrefix(d, p, q);
    } else {
      assert q[..|q|] == q;
    }
  }

  /** The keys of a flattening are prefix-free: a leaf has nothing below it. */
  lemma {:induction false} FlatteningPrefixFree(d: Value, r: map<string, Value>)
    requires IsFlattening(d, r) && FieldsDotFree(d)
    ensures PrefixFree(r.Keys)
  {
    forall a, b | a in r && b in r && a != b ensures !IsPrefix(Split(a), Split(b)) {
      var pa := KeySegments(d, r, a);
      var pb := KeySegments(d, r, b);
      if IsPrefix(Split(a), Split(b)) {
        assert pb[..|pa|] == ([""] + pb)[1..|pa| + 1] == ([""] + pa)[1..] == pa;
        LeafPrefixEqual(d, pa, pb);
      }
    }
  }

  /** serialize(deserialize(d)) == {"": d} for every document with no empty
      object and no '.' in a field name, whichever order serialize takes. */
  lemma RoundTrip(d: Value, r: map<string, Value>, order: seq<string>)
    requires IsFlattening(d, r) && FieldsDotFree(d) && ObjectsNonEmpty(d)
    requires Enumerates(order, r.Keys)
    ensures InsertAll(EmptyObject, r, order) == Success(Object(map["" := d]))
  {
    forall q | q in r ensures !r[q].Object? {
      var _ := DeserializedKey(d, r, q);
    }
    DescribesNested(d, r);
    FlatteningPrefixFree(d, r);
    SerializeSpec(r, order);
    DescribesUnique(InsertAll(EmptyObject, r, order).value, Object(map["" := d]), r, r.Keys);
  }
}
