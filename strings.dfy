/** The optional value used wherever a reply field may be absent. */
module Wrappers {
  datatype Option<+T> = None | Some(value: T)
}

/**
 * The JavaScript string and array operations the terminal relies on, over
 * `string` = `seq<char>`: `includes`, `split` on a one-character separator,
 * `join`, and `toLowerCase` (restricted to ASCII letters).
 */
module Strings {

  /** `s.includes(p)`: `p` occurs in `s` as a contiguous substring. */
  predicate Contains(s: string, p: string) {
    exists i | 0 <= i <= |s| - |p| :: OccursAt(s, p, i)
  }

  /** `p` occurs in `s` starting at position `i`. */
  predicate OccursAt(s: string, p: string, i: int) {
    0 <= i <= |s| - |p| && s[i..i + |p|] == p
  }

  /**
   * `s.split(d)` for a one-character separator `d`: always at least one
   * piece, no piece holds `d`, and the first piece is the text before the
   * first `d` (so `"".split(d)` is `[""]` and `"a\n".split("\n")` is `["a", ""]`).
   */
  function Split(s: string, d: char): (parts: seq<string>)
    ensures |parts| >= 1
    ensures forall k :: 0 <= k < |parts| ==> d !in parts[k]
    ensures parts[0] <= s
  {
    if s == [] then [[]]
    else
      var rest := Split(s[1..], d);
      if s[0] == d then [[]] + rest
      else [[s[0]] + rest[0]] + rest[1..]
  }

  /** `parts.join(sep)`: the pieces with `sep` between consecutive ones. */
  function Join(parts: seq<string>, sep: string): string {
    if parts == [] then []
    else if |parts| == 1 then parts[0]
    else parts[0] + sep + Join(parts[1..], sep)
  }

  /** `String.prototype.toLowerCase`, on the ASCII letters only. */
  function LowerChar(c: char): (l: char)
    ensures !('A' <= l <= 'Z')
    ensures !('A' <= c <= 'Z') ==> l == c
  {
    if 'A' <= c <= 'Z' then (c as int - 'A' as int + 'a' as int) as char else c
  }

  function ToLower(s: string): (r: string)
    ensures |r| == |s|
    ensures forall i :: 0 <= i < |r| ==> r[i] == LowerChar(s[i])
  {
    seq(|s|, i requires 0 <= i < |s| => LowerChar(s[i]))
  }

  /** The position of the first `c` in `s`. */
  function IndexOf(s: string, c: char): (k: nat)
    requires c in s
    ensures k < |s| && s[k] == c && c !in s[..k]
  {
    if s[0] == c then 0
    else
      var k := IndexOf(s[1..], c);
      assert s[..k + 1] == [s[0]] + s[1..][..k];
      k + 1
  }

  // ---------------------------------------------------------------------
  // Lemmas

  /** Joining the pieces of a split with the separator gives back the string. */
  lemma {:induction false} JoinSplit(s: string, d: char)
    ensures Join(Split(s, d), [d]) == s
  {
    if s != [] {
      var rest := Split(s[1..], d);
      JoinSplit(s[1..], d);
      if s[0] == d {
        assert Split(s, d)[1..] == rest;
      } else if |rest| == 1 {
        assert Split(s, d) == [[s[0]] + rest[0]];
      } else {
        var parts := Split(s, d);
        assert parts[1..] == rest[1..];
        assert Join(rest, [d]) == rest[0] + [d] + Join(rest[1..], [d]);
        assert Join(parts, [d]) == [s[0]] + rest[0] + [d] + Join(rest[1..], [d]);
        assert s == [s[0]] + s[1..];
      }
    }
  }

  /** A first character other than the separator joins the first piece. */
  lemma SplitCons(c: char, u: string, d: char)
    requires c != d
    ensures Split([c] + u, d) == [[c] + Split(u, d)[0]] + Split(u, d)[1..]
  {
    assert ([c] + u)[1..] == u;
  }

  /** Splitting a string that starts with a separator-free piece `p`. */
  lemma {:induction false} SplitAfterPiece(p: string, t: string, d: char)
    requires d !in p
    ensures Split(p + t, d) == [p + Split(t, d)[0]] + Split(t, d)[1..]
  {
    var rest := Split(t, d);
    if p != [] {
      SplitAfterPiece(p[1..], t, d);
      assert p == [p[0]] + p[1..];
      SplitAfterFirst(p[0], p[1..], t, d);
    } else {
      assert p + t == t;
      assert p + rest[0] == rest[0];
      assert rest == [rest[0]] + rest[1..];
    }
  }

  /** The step of `SplitAfterPiece`: one more separator-free character in front. */
  lemma SplitAfterFirst(c: char, q: string, t: string, d: char)
    requires c != d
    requires Split(q + t, d) == [q + Split(t, d)[0]] + Split(t, d)[1..]
    ensures Split([c] + q + t, d) == [[c] + q + Split(t, d)[0]] + Split(t, d)[1..]
  {
    var u := q + t;
    var rest := Split(t, d);
    assert [c] + q + t == [c] + u;
    SplitCons(c, u, d);
    assert Split(u, d)[0] == q + rest[0];
    assert Split(u, d)[1..] == rest[1..];
    assert [c] + (q + rest[0]) == [c] + q + rest[0];
  }

  /** Splitting the join of separator-free pieces gives back the pieces. */
  lemma {:induction false} SplitJoin(parts: seq<string>, d: char)
    requires parts != []
    requires forall k :: 0 <= k < |parts| ==> d !in parts[k]
    ensures Split(Join(parts, [d]), d) == parts
  {
    if |parts| == 1 {
      SplitWhole(parts[0], d);
      assert parts == [parts[0]];
    } else {
      var tail := Join(parts[1..], [d]);
      SplitJoin(parts[1..], d);
      SplitAtSeparator(tail, d);
      SplitAfterPiece(parts[0], [d] + tail, d);
      assert Join(parts, [d]) == parts[0] + ([d] + tail);
      assert parts[0] + [] == parts[0];
      assert parts == [parts[0]] + parts[1..];
    }
  }

  /** A separator-free string splits into itself alone. */
  lemma SplitWhole(p: string, d: char)
    requires d !in p
    ensures Split(p, d) == [p]
  {
    SplitAfterPiece(p, [], d);
    assert p + [] == p;
    assert Split([], d) == [[]];
  }

  /** A leading separator opens an empty first piece. */
  lemma SplitAtSeparator(u: string, d: char)
    ensures Split([d] + u, d) == [[]] + Split(u, d)
  {
    assert ([d] + u)[1..] == u;
  }

  lemma FrontAndLast<T>(s: seq<T>)
    requires s != []
    ensures s == s[..|s| - 1] + [s[|s| - 1]]
  {
  }

  lemma JoinPair(a: string, b: string, sep: string)
    ensures Join([a, b], sep) == a + sep + b
  {
    assert [a, b][1..] == [b];
  }

  lemma JoinTriple(a: string, b: string, c: string, sep: string)
    ensures Join([a, b, c], sep) == a + sep + b + sep + c
  {
    assert [a, b, c][1..] == [b, c];
    JoinPair(b, c, sep);
  }

  /** Joining one more piece appends the separator and that piece. */
  lemma {:induction false} JoinSnoc(parts: seq<string>, x: string, sep: string)
    requires parts != []
    ensures Join(parts + [x], sep) == Join(parts, sep) + sep + x
  {
    if |parts| > 1 {
      JoinSnoc(parts[1..], x, sep);
      assert (parts + [x])[1..] == parts[1..] + [x];
    } else {
      assert (parts + [x])[1..] == [x];
    }
  }

  /** A piece of `s.split(d)` that contains `p` means `s` contains `p`. */
  lemma {:induction false} SplitPieceContains(s: string, d: char, p: string, k: nat)
    requires k < |Split(s, d)|
    requires Contains(Split(s, d)[k], p)
    ensures Contains(s, p)
  {
    var parts := Split(s, d);
    if k == 0 {
      var i :| 0 <= i <= |parts[0]| - |p| && OccursAt(parts[0], p, i);
      assert s[i..i + |p|] == parts[0][i..i + |p|];
      assert OccursAt(s, p, i);
    } else {
      assert s != [];
      var rest := Split(s[1..], d);
      var j := if s[0] == d then k - 1 else k;
      assert parts[k] == rest[j];
      SplitPieceContains(s[1..], d, p, j);
      var i :| 0 <= i <= |s[1..]| - |p| && OccursAt(s[1..], p, i);
      assert s[i + 1..i + 1 + |p|] == s[1..][i..i + |p|];
      assert OccursAt(s, p, i + 1);
    }
  }
}
