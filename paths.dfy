/**
 * Dotted configuration keys: the key a path of field names flattens to, and
 * `str::split('.')`, which turns a key back into path segments.
 */
module Paths {

  /** The segments contain no '.'. */
  predicate DotFree(path: seq<string>) {
    forall i :: 0 <= i < |path| ==> '.' !in path[i]
  }

  /** The suffix that flattening appends for `path`: each field name preceded
      by a '.'. */
  function Dotted(path: seq<string>): string
    decreases |path|
  {
    if path == [] then "" else "." + path[0] + Dotted(path[1..])
  }

  /** `s.split('.')`: the pieces between the dots, empty pieces included. */
  function Split(s: string): (segments: seq<string>)
    ensures |segments| >= 1
    decreases |s|
  {
    if s == [] then [[]]
    else
      var rest := Split(s[1..]);
      if s[0] == '.' then [[]] + rest else [[s[0]] + rest[0]] + rest[1..]
  }

  /** The segments put back together with '.' between them. */
  function Join(segments: seq<string>): string
    requires |segments| >= 1
    decreases |segments|
  {
    if |segments| == 1 then segments[0] else segments[0] + "." + Join(segments[1..])
  }

  lemma {:induction false} JoinSplit(s: string)
    ensures Join(Split(s)) == s
    decreases |s|
  {
    if s != [] {
      var rest := Split(s[1..]);
      JoinSplit(s[1..]);
      if s[0] == '.' {
        assert Split(s) == [[]] + rest;
        assert ([[]] + rest)[1..] == rest;
      } else {
        var segments := [[s[0]] + rest[0]] + rest[1..];
        assert Split(s) == segments;
        if |rest| == 1 {
          assert Join(segments) == [s[0]] + rest[0];
        } else {
          assert segments[1..] == rest[1..];
          assert Join(rest) == rest[0] + "." + Join(rest[1..]);
          assert Join(segments) == [s[0]] + rest[0] + "." + Join(rest[1..]);
        }
        assert s == [s[0]] + s[1..];
      }
    }
  }

  /** Distinct keys split into distinct segment lists. */
  lemma SplitInjective(a: string, b: string)
    requires Split(a) == Split(b)
    ensures a == b
  {
    JoinSplit(a);
    JoinSplit(b);
  }

  lemma {:induction false} SplitDotFree(s: string)
    requires '.' !in s
    ensures Split(s) == [s]
    decreases |s|
  {
    if s != [] {
      SplitDotFree(s[1..]);
      assert s == [s[0]] + s[1..];
    }
  }

  lemma {:induction false} SplitAppend(a: string, t: string)
    requires '.' !in a
    ensures Split(a + "." + t) == [a] + Split(t)
    decreases |a|
  {
    var s := a + "." + t;
    if a == [] {
      assert s[0] == '.' && s[1..] == t;
    } else {
      assert s[0] == a[0] && s[1..] == a[1..] + "." + t;
      SplitAppend(a[1..], t);
      assert a == [a[0]] + a[1..];
    }
  }

  /** A key built from dot-free names splits back into those names. */
  lemma {:induction false} SplitDotted(s: string, path: seq<string>)
    requires '.' !in s && DotFree(path)
    ensures Split(s + Dotted(path)) == [s] + path
    decreases |path|
  {
    if path == [] {
      assert s + Dotted(path) == s;
      SplitDotFree(s);
    } else {
      var t := path[0] + Dotted(path[1..]);
      assert s + Dotted(path) == s + "." + t;
      SplitAppend(s, t);
      assert DotFree(path[1..]) by {
        forall i | 0 <= i < |path[1..]| ensures '.' !in path[1..][i] {
          assert path[1..][i] == path[i + 1];
        }
      }
      SplitDotted(path[0], path[1..]);
      assert path == [path[0]] + path[1..];
    }
  }

  /** Flattening is injective on dot-free paths. */
  lemma DottedInjective(p: seq<string>, q: seq<string>)
    requires DotFree(p) && DotFree(q) && Dotted(p) == Dotted(q)
    ensures p == q
  {
    SplitDotted("", p);
    SplitDotted("", q);
    assert "" + Dotted(p) == Dotted(p) && "" + Dotted(q) == Dotted(q);
    assert [""] + p == [""] + q;
    assert p == ([""] + p)[1..];
  }
}
