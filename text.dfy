/** Character-sequence helpers shared by the service-file rewriter, the path
    builders and the app-name derivation: substring search, last occurrence of
    a character, and JavaScript's `split`/`join` on a one-character separator. */
module Text {

  /** `sub` occurs somewhere in `s` (JavaScript `s.indexOf(sub) !== -1`). */
  predicate Contains(s: string, sub: string)
    decreases |s|
  {
    sub <= s || (s != [] && Contains(s[1..], sub))
  }

  /** Index of the last `c` in `s`, or -1 (JavaScript `lastIndexOf`). */
  function LastIndexOf(s: string, c: char): (i: int)
    ensures -1 <= i < |s|
    ensures i >= 0 ==> s[i] == c
    ensures forall j :: i < j < |s| ==> s[j] != c
    decreases |s|
  {
    if s == [] then -1
    else if s[|s| - 1] == c then |s| - 1
    else LastIndexOf(s[..|s| - 1], c)
  }

  /** JavaScript `s.split(sep)` for a one-character separator. */
  function Split(s: string, sep: char): (parts: seq<string>)
    ensures |parts| >= 1
    ensures forall i :: 0 <= i < |parts| ==> sep !in parts[i]
    decreases |s|
  {
    if s == [] then [""] else Prepend(s[0], Split(s[1..], sep), sep)
  }

  /** One step of `split`: a separator starts a new piece, any other character
      joins the first piece. */
  function Prepend(c: char, rest: seq<string>, sep: char): (parts: seq<string>)
    requires |rest| >= 1
    ensures |parts| >= 1
  {
    if c == sep then [""] + rest else [[c] + rest[0]] + rest[1..]
  }

  /** The step does not look past the first list of pieces. */
  lemma PrependAppend(c: char, ra: seq<string>, rb: seq<string>, sep: char)
    requires |ra| >= 1
    ensures Prepend(c, ra + rb, sep) == Prepend(c, ra, sep) + rb
  {
    if c != sep {
      assert (ra + rb)[0] == ra[0];
      assert (ra + rb)[1..] == ra[1..] + rb;
    }
  }

  /** JavaScript `parts.join(sep)`. */
  function Join(parts: seq<string>, sep: char): string
    decreases |parts|
  {
    if parts == [] then ""
    else if |parts| == 1 then parts[0]
    else parts[0] + [sep] + Join(parts[1..], sep)
  }

  /** Joining what was split gives back the original text. */
  lemma {:induction false} JoinSplit(s: string, sep: char)
    ensures Join(Split(s, sep), sep) == s
    decreases |s|
  {
    if s != [] {
      var rest := Split(s[1..], sep);
      JoinSplit(s[1..], sep);
      if s[0] == sep {
        assert Split(s, sep) == [""] + rest;
        assert ([""] + rest)[1..] == rest;
      } else {
        var parts := [[s[0]] + rest[0]] + rest[1..];
        assert Split(s, sep) == parts;
        if |rest| == 1 {
          assert Join(rest, sep) == rest[0];
        } else {
          assert parts[1..] == rest[1..];
          assert Join(rest, sep) == rest[0] + [sep] + Join(rest[1..], sep);
        }
      }
    }
  }

  /** A piece without the separator, followed by the separator, is split off whole. */
  lemma {:induction false} SplitCons(p: string, sep: char, t: string)
    requires sep !in p
    ensures Split(p + [sep] + t, sep) == [p] + Split(t, sep)
    decreases |p|
  {
    if p == [] {
      assert (p + [sep] + t)[1..] == t;
    } else {
      SplitCons(p[1..], sep, t);
      assert (p + [sep] + t)[1..] == p[1..] + [sep] + t;
      assert [p[0]] + p[1..] == p;
    }
  }

  /** A text without the separator splits into itself. */
  lemma {:induction false} SplitSingle(p: string, sep: char)
    requires sep !in p
    ensures Split(p, sep) == [p]
    decreases |p|
  {
    if p != [] {
      SplitSingle(p[1..], sep);
      assert [p[0]] + p[1..] == p;
    }
  }

  /** Splitting what was joined gives back the pieces, when no piece holds the separator. */
  lemma {:induction false} SplitJoin(parts: seq<string>, sep: char)
    requires |parts| >= 1
    requires forall i :: 0 <= i < |parts| ==> sep !in parts[i]
    ensures Split(Join(parts, sep), sep) == parts
    decreases |parts|
  {
    if |parts| == 1 {
      SplitSingle(parts[0], sep);
    } else {
      SplitJoin(parts[1..], sep);
      SplitCons(parts[0], sep, Join(parts[1..], sep));
      assert [parts[0]] + parts[1..] == parts;
    }
  }

  /** A text splits into one piece exactly when it holds no separator. */
  lemma {:induction false} SplitCount(s: string, sep: char)
    ensures |Split(s, sep)| == 1 <==> sep !in s
    decreases |s|
  {
    if s != [] {
      SplitCount(s[1..], sep);
      assert s == [s[0]] + s[1..];
    }
  }

  /** Joining a non-empty list with one more piece at the end. */
  lemma {:induction false} JoinSnoc(parts: seq<string>, sep: char, last: string)
    requires |parts| >= 1
    ensures Join(parts + [last], sep) == Join(parts, sep) + [sep] + last
    decreases |parts|
  {
    if |parts| == 1 {
      assert (parts + [last])[1..] == [last];
    } else {
      JoinSnoc(parts[1..], sep, last);
      assert (parts + [last])[1..] == parts[1..] + [last];
    }
  }

  lemma {:induction false} ContainsRight(a: string, b: string, m: string)
    requires Contains(b, m)
    ensures Contains(a + b, m)
    decreases |a|
  {
    if a != [] {
      ContainsRight(a[1..], b, m);
      assert (a + b)[1..] == a[1..] + b;
    } else {
      assert a + b == b;
    }
  }

  lemma {:induction false} ContainsLeft(a: string, b: string, m: string)
    requires Contains(a, m)
    ensures Contains(a + b, m)
    decreases |a|
  {
    if !(m <= a) {
      ContainsLeft(a[1..], b, m);
      assert (a + b)[1..] == a[1..] + b;
    }
  }

  /** An occurrence of `m` in `p + t` lies in `t` when `p` holds no character that could start `m`. */
  lemma {:induction false} ContainsSkip(p: string, t: string, m: string)
    requires m != [] && m[0] !in p
    requires Contains(p + t, m)
    ensures Contains(t, m)
    decreases |p|
  {
    if p == [] {
      assert p + t == t;
    } else {
      assert (p + t)[0] == p[0];
      assert !(m <= p + t);
      assert (p + t)[1..] == p[1..] + t;
      ContainsSkip(p[1..], t, m);
    }
  }

  /** An occurrence at a known position. */
  lemma {:induction false} ContainsAt(s: string, m: string, k: nat)
    requires k <= |s| && m <= s[k..]
    ensures Contains(s, m)
    decreases k
  {
    if k > 0 {
      assert s[1..][k - 1..] == s[k..];
      ContainsAt(s[1..], m, k - 1);
    }
  }

  /** A pattern holding a character the text lacks does not occur in it. */
  lemma {:induction false} NotContainsChar(s: string, m: string, c: char)
    requires c in m && c !in s
    ensures !Contains(s, m)
    decreases |s|
  {
    if s != [] {
      NotContainsChar(s[1..], m, c);
    }
  }

  lemma PrefixAt(m: string, s: string, k: int)
    requires m <= s && 0 <= k < |m|
    ensures m[k] == s[k]
  {
  }

  /** An occurrence of `m` cannot straddle a character that `m` does not hold. */
  lemma {:induction false} ContainsAround(a: string, c: char, b: string, m: string)
    requires c !in m
    requires Contains(a + [c] + b, m)
    ensures Contains(a, m) || Contains(b, m)
    decreases |a|
  {
    var s := a + [c] + b;
    if m <= s {
      if |m| <= |a| {
        assert m == s[..|m|] == a[..|m|];
      } else {
        PrefixAt(m, s, |a|);
        assert false;
      }
    } else if a == [] {
      assert s[1..] == b;
    } else {
      assert s[1..] == a[1..] + [c] + b;
      ContainsAround(a[1..], c, b, m);
    }
  }

  /** A separator-free pattern occurs in the joined text exactly when it occurs in one piece. */
  lemma {:induction false} ContainsJoin(parts: seq<string>, sep: char, m: string)
    requires |parts| >= 1 && sep !in m
    ensures Contains(Join(parts, sep), m) <==> exists i :: 0 <= i < |parts| && Contains(parts[i], m)
    decreases |parts|
  {
    if |parts| > 1 {
      var rest := Join(parts[1..], sep);
      ContainsJoin(parts[1..], sep, m);
      assert Join(parts, sep) == parts[0] + [sep] + rest;
      if Contains(Join(parts, sep), m) {
        ContainsAround(parts[0], sep, rest, m);
        if !Contains(parts[0], m) {
          var i :| 0 <= i < |parts[1..]| && Contains(parts[1..][i], m);
          assert Contains(parts[i + 1], m);
        }
      }
      if exists i :: 0 <= i < |parts| && Contains(parts[i], m) {
        var i :| 0 <= i < |parts| && Contains(parts[i], m);
        if i == 0 {
          ContainsLeft(parts[0], [sep] + rest, m);
          assert parts[0] + ([sep] + rest) == Join(parts, sep);
        } else {
          assert Contains(parts[1..][i - 1], m);
          ContainsRight(parts[0] + [sep], rest, m);
        }
      }
    }
  }

  /** A piece followed by the separator splits into the piece and an empty tail. */
  lemma SplitLine(line: string, sep: char)
    requires sep !in line
    ensures Split(line + [sep], sep) == [line, ""]
  {
    assert line + [sep] == line + [sep] + "";
    SplitCons(line, sep, "");
    SplitSingle("", sep);
  }

  /** Joining two pieces puts one separator between them. */
  lemma JoinTwo(a: string, b: string, sep: char)
    ensures Join([a, b], sep) == a + [sep] + b
  {
    assert [a, b][1..] == [b];
  }

  /** Splitting at one occurrence of the separator: the pieces before it
      followed by the pieces after it. */
  lemma {:induction false} SplitAt(s: string, sep: char, i: nat)
    requires i < |s| && s[i] == sep
    ensures Split(s, sep) == Split(s[..i], sep) + Split(s[i + 1..], sep)
    decreases i
  {
    if i > 0 {
      var t := s[1..];
      SplitAt(t, sep, i - 1);
      assert t[..i - 1] == s[..i][1..];
      assert t[i..] == s[i + 1..];
      PrependAppend(s[0], Split(s[..i][1..], sep), Split(s[i + 1..], sep), sep);
    }
  }

  /** Splitting a text made of two pieces around a separator. */
  lemma SplitAppend(a: string, sep: char, b: string)
    ensures Split(a + [sep] + b, sep) == Split(a, sep) + Split(b, sep)
  {
    var s := a + [sep] + b;
    SplitAt(s, sep, |a|);
    assert s[..|a|] == a;
    assert s[|a| + 1..] == b;
  }
}
