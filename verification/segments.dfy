/**
 * The string operations the coverage click relies on: JavaScript's
 * `String.prototype.split` with a one-character separator and
 * `String.prototype.startsWith`, and the `name.split('_')[1]` lookup that
 * reads a satellite id out of a scene object's name.
 */
module Segments {

  datatype Option<T> = None | Some(value: T)

  /** `s.startsWith(prefix)` */
  predicate StartsWith(s: string, prefix: string) {
    |prefix| <= |s| && s[..|prefix|] == prefix
  }

  /**
   * `s.split(sep)` for a one-character separator: the maximal runs of
   * non-separator characters, including the empty runs before a leading,
   * after a trailing and between two adjacent separators. Splitting the
   * empty string gives one empty segment.
   */
  function Split(s: string, sep: char): (r: seq<string>)
    ensures |r| >= 1
    ensures forall k :: 0 <= k < |r| ==> sep !in r[k]
    ensures |r| == 1 <==> sep !in s
  {
    if s == [] then [[]]
    else
      var rest := Split(s[1..], sep);
      assert sep in s <==> s[0] == sep || sep in s[1..] by {
        assert s == [s[0]] + s[1..];
      }
      if s[0] == sep then [[]] + rest
      else [[s[0]] + rest[0]] + rest[1..]
  }

  /** `parts.join(sep)`: the inverse of Split. */
  function Join(parts: seq<string>, sep: char): (r: string)
    requires |parts| >= 1
  {
    if |parts| == 1 then parts[0]
    else parts[0] + [sep] + Join(parts[1..], sep)
  }

  /** Joining the segments of a split with the same separator gives the string back. */
  lemma {:induction false} JoinSplit(s: string, sep: char)
    ensures Join(Split(s, sep), sep) == s
  {
    if s != [] {
      JoinSplit(s[1..], sep);
      var rest := Split(s[1..], sep);
      if s[0] == sep {
        assert Split(s, sep)[1..] == rest;
      } else {
        var r := Split(s, sep);
        assert r[0] == [s[0]] + rest[0];
        if |rest| == 1 {
          assert Join(r, sep) == r[0];
        } else {
          assert r[1..] == rest[1..];
          assert Join(rest, sep) == rest[0] + [sep] + Join(rest[1..], sep);
        }
      }
    }
  }

  /** A string without the separator is a single segment. */
  lemma {:induction false} SplitWithout(a: string, sep: char)
    requires sep !in a
    ensures Split(a, sep) == [a]
  {
    if a != [] {
      assert sep !in a[1..];
      SplitWithout(a[1..], sep);
      assert [a[0]] + a[1..] == a;
    }
  }

  /** A separator right after a separator-free prefix ends the first segment. */
  lemma {:induction false} SplitAt(a: string, sep: char, t: string)
    requires sep !in a
    ensures Split(a + [sep] + t, sep) == [a] + Split(t, sep)
  {
    if a != [] {
      assert (a + [sep] + t)[1..] == a[1..] + [sep] + t;
      SplitAt(a[1..], sep, t);
      assert [a[0]] + a[1..] == a;
    } else {
      assert a + [sep] + t == [sep] + t;
      assert ([sep] + t)[1..] == t;
    }
  }

  /** Splitting the join of separator-free segments gives the segments back. */
  lemma {:induction false} SplitJoin(parts: seq<string>, sep: char)
    requires |parts| >= 1
    requires forall k :: 0 <= k < |parts| ==> sep !in parts[k]
    ensures Split(Join(parts, sep), sep) == parts
  {
    if |parts| == 1 {
      SplitWithout(parts[0], sep);
    } else {
      SplitJoin(parts[1..], sep);
      SplitAt(parts[0], sep, Join(parts[1..], sep));
      assert [parts[0]] + parts[1..] == parts;
    }
  }

  /**
   * `name.split('_')[1]`: the second `_`-separated segment of a name, or
   * None where JavaScript gives `undefined` because the name has no `_`.
   */
  function SecondSegment(name: string): (r: Option<string>)
    ensures r.None? <==> '_' !in name
    ensures r.Some? ==> '_' !in r.value
  {
    var parts := Split(name, '_');
    if |parts| >= 2 then Some(parts[1]) else None
  }

  /**
   * The second segment is the text between the first `_` and the next one,
   * or up to the end of the name when there is no second `_`.
   */
  lemma SecondSegmentBetween(a: string, v: string, b: string)
    requires '_' !in a && '_' !in v
    requires b == [] || b[0] == '_'
    ensures SecondSegment(a + "_" + v + b) == Some(v)
  {
    assert a + "_" + v + b == a + ['_'] + (v + b);
    SplitAt(a, '_', v + b);
    if b == [] {
      assert v + b == v;
      SplitWithout(v, '_');
    } else {
      assert v + b == v + ['_'] + b[1..];
      SplitAt(v, '_', b[1..]);
    }
  }
}
