/**
 The JavaScript string and array built-ins the configuration uses, on `string` as
 `seq<char>`: `startsWith`, `substring(1)`, `split('/')` and indexing an array, which
 yields `undefined` (here `None`) past its end.
 */
module JsStrings {
  import opened Wrappers

  /** `s.startsWith(p)`. */
  predicate StartsWith(s: string, p: string)
  {
    |p| <= |s| && s[..|p|] == p
  }

  /** `s.substring(1)`: everything after the first character; `""` stays `""`. */
  function Substring1(s: string): (r: string)
    ensures |s| > 0 ==> [s[0]] + r == s
    ensures |s| == 0 ==> r == ""
  {
    if |s| == 0 then "" else s[1..]
  }

  /**
   `s.split('/')`: the pieces of `s` between slashes, in order. There is always at
   least one piece (`"".split('/')` is `[""]`) and no piece contains a slash.
   */
  function Split(s: string): (parts: seq<string>)
    ensures |parts| >= 1
    ensures forall k :: 0 <= k < |parts| ==> '/' !in parts[k]
    decreases |s|
  {
    if |s| == 0 then [""]
    else if s[0] == '/' then [""] + Split(s[1..])
    else
      var rest := Split(s[1..]);
      [[s[0]] + rest[0]] + rest[1..]
  }

  /** `parts.join('/')`, the inverse of `Split`. */
  function Join(parts: seq<string>): string
    requires |parts| >= 1
    decreases |parts|
  {
    if |parts| == 1 then parts[0] else parts[0] + "/" + Join(parts[1..])
  }

  /** `a[i]`: `undefined` when `i` is past the end of `a`. */
  function At<T>(a: seq<T>, i: nat): Option<T>
  {
    if i < |a| then Some(a[i]) else None
  }

  /** `keys.includes(x)` where `x` may be `undefined`, which is never a key. */
  predicate Includes(keys: set<string>, x: Option<string>)
  {
    x.Some? && x.value in keys
  }

  predicate SlashFree(s: string)
  {
    '/' !in s
  }

  /** Joining the pieces of a split gives back the string. */
  lemma {:induction false} JoinSplit(s: string)
    ensures Join(Split(s)) == s
    decreases |s|
  {
    if |s| == 0 {
    } else if s[0] == '/' {
      JoinSplit(s[1..]);
      assert Split(s) == [""] + Split(s[1..]);
      assert (Split(s))[1..] == Split(s[1..]);
    } else {
      var rest := Split(s[1..]);
      JoinSplit(s[1..]);
      var parts := [[s[0]] + rest[0]] + rest[1..];
      assert Split(s) == parts;
      if |rest| == 1 {
        assert Join(parts) == [s[0]] + rest[0];
      } else {
        assert parts[1..] == rest[1..];
        assert Join(parts) == ([s[0]] + rest[0]) + "/" + Join(rest[1..]);
        assert Join(rest) == rest[0] + "/" + Join(rest[1..]);
      }
      assert s == [s[0]] + s[1..];
    }
  }

  /** A string without slashes is a single piece. */
  lemma {:induction false} SplitSlashFree(p: string)
    requires SlashFree(p)
    ensures Split(p) == [p]
    decreases |p|
  {
    if |p| > 0 {
      assert p[0] in p;
      assert SlashFree(p[1..]) by {
        forall k | 0 <= k < |p[1..]| ensures p[1..][k] != '/' {
          assert p[1..][k] == p[k + 1];
        }
      }
      SplitSlashFree(p[1..]);
      assert [p[0]] + p[1..] == p;
    }
  }

  /** A slash-free piece followed by a slash splits off as the first piece. */
  lemma {:induction false} SplitAfterPiece(p: string, t: string)
    requires SlashFree(p)
    ensures Split(p + "/" + t) == [p] + Split(t)
    decreases |p|
  {
    var s := p + "/" + t;
    if |p| == 0 {
      assert s == "/" + t;
      assert s[1..] == t;
    } else {
      assert p[0] in p;
      assert s[0] == p[0];
      assert s[1..] == p[1..] + "/" + t;
      assert SlashFree(p[1..]) by {
        forall k | 0 <= k < |p[1..]| ensures p[1..][k] != '/' {
          assert p[1..][k] == p[k + 1];
        }
      }
      SplitAfterPiece(p[1..], t);
      var rest := Split(s[1..]);
      assert rest == [p[1..]] + Split(t);
      assert rest[1..] == Split(t);
      assert [p[0]] + p[1..] == p;
    }
  }

  /** Splitting a join of slash-free pieces gives back the pieces. */
  lemma {:induction false} SplitJoin(parts: seq<string>)
    requires |parts| >= 1
    requires forall k :: 0 <= k < |parts| ==> SlashFree(parts[k])
    ensures Split(Join(parts)) == parts
    decreases |parts|
  {
    if |parts| == 1 {
      SplitSlashFree(parts[0]);
    } else {
      SplitJoin(parts[1..]);
      SplitAfterPiece(parts[0], Join(parts[1..]));
      assert [parts[0]] + parts[1..] == parts;
    }
  }

  /** A path of three slash-free pieces splits into exactly those pieces. */
  lemma SplitThree(a: string, b: string, c: string)
    requires SlashFree(a) && SlashFree(b) && SlashFree(c)
    ensures Split(a + "/" + b + "/" + c) == [a, b, c]
  {
    SplitSlashFree(c);
    SplitAfterPiece(b, c);
    assert a + "/" + b + "/" + c == a + "/" + (b + "/" + c);
    SplitAfterPiece(a, b + "/" + c);
  }
}
