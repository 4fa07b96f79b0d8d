/**
 * The Python string operations the extractors use: `str.strip()`, `str.split(sep)`,
 * `str.replace(old, '')`, `sep.join(parts)`, `str(int)` and `int(str)`.
 */
module Text {
  import opened Wrappers

  /** Python's `str.isspace()`, the characters `strip()` and `int()` discard. */
  predicate IsSpace(c: char)
  {
    || c == ' ' || '\t' <= c <= '\r' || '\U{1c}' <= c <= '\U{1f}'
    || c == '\U{85}' || c == '\U{a0}' || c == '\U{1680}'
    || '\U{2000}' <= c <= '\U{200a}' || c == '\U{2028}' || c == '\U{2029}'
    || c == '\U{202f}' || c == '\U{205f}' || c == '\U{3000}'
  }

  predicate AllSpace(s: string)
  {
    forall i :: 0 <= i < |s| ==> IsSpace(s[i])
  }

  /** Neither end of `s` is whitespace: what `strip()` leaves. */
  predicate Stripped(s: string)
  {
    s == [] || (!IsSpace(s[0]) && !IsSpace(s[|s| - 1]))
  }

  /** `s.lstrip()`: the longest whitespace prefix removed. */
  function LStrip(s: string): string
  {
    if s != [] && IsSpace(s[0]) then LStrip(s[1..]) else s
  }

  /** `s.rstrip()`: the longest whitespace suffix removed. */
  function RStrip(s: string): string
  {
    if s != [] && IsSpace(s[|s| - 1]) then RStrip(s[..|s| - 1]) else s
  }

  /** `s.strip()`. */
  function Strip(s: string): string
  {
    RStrip(LStrip(s))
  }

  /** `lstrip()` keeps a suffix, drops only whitespace, and leaves none in front. */
  lemma {:induction false} LStripSpec(s: string)
    ensures var r := LStrip(s);
      |r| <= |s| && r == s[|s| - |r|..] && AllSpace(s[..|s| - |r|]) && (r == [] || !IsSpace(r[0]))
  {
    if s != [] && IsSpace(s[0]) {
      var r := LStrip(s[1..]);
      LStripSpec(s[1..]);
      assert s[..|s| - |r|] == [s[0]] + s[1..][..|s| - 1 - |r|];
    }
  }

  /** `rstrip()` keeps a prefix, drops only whitespace, and leaves none behind. */
  lemma {:induction false} RStripSpec(s: string)
    ensures var r := RStrip(s);
      |r| <= |s| && r == s[..|r|] && AllSpace(s[|r|..]) && (r == [] || !IsSpace(r[|r| - 1]))
  {
    if s != [] && IsSpace(s[|s| - 1]) {
      var r := RStrip(s[..|s| - 1]);
      RStripSpec(s[..|s| - 1]);
      assert s[|r|..] == s[..|s| - 1][|r|..] + [s[|s| - 1]];
    }
  }

  /** `strip()` leaves no whitespace at either end and never lengthens the text. */
  lemma StripSpec(s: string)
    ensures Stripped(Strip(s)) && |Strip(s)| <= |s|
  {
    var l := LStrip(s);
    var r := RStrip(l);
    LStripSpec(s);
    RStripSpec(l);
    assert r != [] ==> r[0] == l[0];
  }

  lemma {:induction false} LStripPadded(a: string, t: string)
    requires AllSpace(a) && (t == [] || !IsSpace(t[0]))
    ensures LStrip(a + t) == t
    decreases |a|
  {
    if a != [] {
      assert (a + t)[1..] == a[1..] + t;
      LStripPadded(a[1..], t);
    } else {
      assert a + t == t;
    }
  }

  lemma {:induction false} RStripPadded(t: string, b: string)
    requires AllSpace(b) && (t == [] || !IsSpace(t[|t| - 1]))
    ensures RStrip(t + b) == t
    decreases |b|
  {
    if b != [] {
      assert (t + b)[..|t + b| - 1] == t + b[..|b| - 1];
      RStripPadded(t, b[..|b| - 1]);
    } else {
      assert t + b == t;
    }
  }

  /** `strip()` removes exactly the surrounding whitespace and nothing else. */
  lemma StripPadded(a: string, t: string, b: string)
    requires AllSpace(a) && AllSpace(b) && Stripped(t)
    ensures Strip(a + t + b) == t
  {
    if t == [] {
      assert a + t + b == a + b;
      LStripPadded(a + b, []);
      assert a + b + [] == a + b;
    } else {
      assert a + t + b == a + (t + b);
      LStripPadded(a, t + b);
      RStripPadded(t, b);
    }
  }

  lemma StripIdempotent(s: string)
    ensures Strip(Strip(s)) == Strip(s)
  {
    var t := Strip(s);
    StripSpec(s);
    StripPadded([], t, []);
    assert [] + t + [] == t;
  }

  predicate StartsWith(s: string, prefix: string)
  {
    |prefix| <= |s| && s[..|prefix|] == prefix
  }

  /** `sep` occurs in `s` at position `i`. */
  predicate OccursAt(s: string, sep: string, i: int)
  {
    0 <= i && i + |sep| <= |s| && s[i..i + |sep|] == sep
  }

  predicate Occurs(s: string, sep: string)
  {
    exists i :: 0 <= i <= |s| && OccursAt(s, sep, i)
  }

  /** The first character of `sep` does not occur again in it (true of "product"). */
  predicate HeadUnique(sep: string)
  {
    |sep| > 0 && forall i :: 0 < i < |sep| ==> sep[i] != sep[0]
  }

  /**
   * `s.split(sep)`: scanning left to right, each non-overlapping occurrence of
   * `sep` ends a piece.
   */
  function Split(s: string, sep: string): (r: seq<string>)
    requires |sep| > 0
    ensures |r| >= 1
    decreases |s|
  {
    if |s| < |sep| then [s]
    else if s[..|sep|] == sep then [""] + Split(s[|sep|..], sep)
    else
      var rest := Split(s[1..], sep);
      [[s[0]] + rest[0]] + rest[1..]
  }

  /** `sep.join(parts)`. */
  function Join(parts: seq<string>, sep: string): string
  {
    if parts == [] then ""
    else if |parts| == 1 then parts[0]
    else parts[0] + sep + Join(parts[1..], sep)
  }

  lemma JoinPrepend(c: char, p: string, ps: seq<string>, sep: string)
    ensures Join([[c] + p] + ps, sep) == [c] + Join([p] + ps, sep)
  {
    var l := [[c] + p] + ps;
    var m := [p] + ps;
    assert l[1..] == ps == m[1..];
  }

  /** `sep.join(s.split(sep)) == s`. */
  lemma {:induction false} JoinSplit(s: string, sep: string)
    requires |sep| > 0
    ensures Join(Split(s, sep), sep) == s
    decreases |s|
  {
    if |s| < |sep| {
    } else if s[..|sep|] == sep {
      var rest := Split(s[|sep|..], sep);
      JoinSplit(s[|sep|..], sep);
      var parts := [""] + rest;
      assert Split(s, sep) == parts;
      assert parts[1..] == rest;
      assert Join(parts, sep) == "" + sep + Join(rest, sep);
      assert s == sep + s[|sep|..];
    } else {
      var rest := Split(s[1..], sep);
      JoinSplit(s[1..], sep);
      assert Split(s, sep) == [[s[0]] + rest[0]] + rest[1..];
      JoinPrepend(s[0], rest[0], rest[1..], sep);
      assert [rest[0]] + rest[1..] == rest;
      assert s == [s[0]] + s[1..];
    }
  }

  lemma {:induction false} SplitWithout(t: string, sep: string)
    requires |sep| > 0 && !Occurs(t, sep)
    ensures Split(t, sep) == [t]
    decreases |t|
  {
    if |t| >= |sep| {
      assert !OccursAt(t, sep, 0);
      assert t[..|sep|] != sep;
      forall i | OccursAt(t[1..], sep, i) ensures false {
        assert t[1..][i..i + |sep|] == t[i + 1..i + 1 + |sep|];
        assert OccursAt(t, sep, i + 1);
      }
      SplitWithout(t[1..], sep);
      assert [t[0]] + t[1..] == t;
    }
  }

  lemma {:induction false} SplitOfOccurring(s: string, sep: string, i: int)
    requires |sep| > 0 && OccursAt(s, sep, i)
    ensures |Split(s, sep)| >= 2
    decreases |s|
  {
    if s[..|sep|] != sep {
      assert i > 0;
      assert s[1..][i - 1..i - 1 + |sep|] == s[i..i + |sep|];
      SplitOfOccurring(s[1..], sep, i - 1);
    }
  }

  /**
   * The last piece of `(x + sep + t).split(sep)` is `t` when `t` holds no
   * occurrence of `sep` and `sep` cannot overlap itself.
   */
  lemma {:induction false} SplitLastPiece(x: string, sep: string, t: string)
    requires HeadUnique(sep) && !Occurs(t, sep)
    ensures var r := Split(x + sep + t, sep); r[|r| - 1] == t
    decreases |x|
  {
    var s := x + sep + t;
    assert OccursAt(s, sep, |x|) by { assert s[|x|..|x| + |sep|] == sep; }
    if x == [] {
      assert s == sep + t;
      assert s[..|sep|] == sep;
      assert s[|sep|..] == t;
      SplitWithout(t, sep);
    } else if s[..|sep|] == sep {
      assert forall j :: 0 <= j < |sep| ==> s[j] == sep[j] by {
        forall j | 0 <= j < |sep| ensures s[j] == sep[j] {
          assert s[..|sep|][j] == s[j];
        }
      }
      assert s[|x|] == sep[0] by { assert s[|x|..|x| + |sep|][0] == s[|x|]; }
      assert |x| >= |sep|;
      assert s[|sep|..] == x[|sep|..] + sep + t;
      SplitLastPiece(x[|sep|..], sep, t);
    } else {
      assert s[1..] == x[1..] + sep + t;
      SplitLastPiece(x[1..], sep, t);
      assert OccursAt(s[1..], sep, |x| - 1) by {
        assert s[1..][|x| - 1..|x| - 1 + |sep|] == s[|x|..|x| + |sep|];
      }
      SplitOfOccurring(s[1..], sep, |x| - 1);
    }
  }

  lemma NoHeadCharNoOccurrence(t: string, sep: string)
    requires |sep| > 0 && forall i :: 0 <= i < |t| ==> t[i] != sep[0]
    ensures !Occurs(t, sep)
  {
    forall i | 0 <= i <= |t| ensures !OccursAt(t, sep, i) {
      if i + |sep| <= |t| {
        assert t[i..i + |sep|][0] == t[i];
      }
    }
  }

  /** `s.replace(pat, '')`: every left-to-right non-overlapping occurrence removed. */
  function RemoveAll(s: string, pat: string): (r: string)
    requires |pat| > 0
    ensures |r| <= |s|
    decreases |s|
  {
    if |s| < |pat| then s
    else if s[..|pat|] == pat then RemoveAll(s[|pat|..], pat)
    else [s[0]] + RemoveAll(s[1..], pat)
  }

  /** Python documents `s.replace(old, new)` as `new.join(s.split(old))`. */
  lemma {:induction false} RemoveAllIsJoinOfSplit(s: string, pat: string)
    requires |pat| > 0
    ensures RemoveAll(s, pat) == Join(Split(s, pat), "")
    decreases |s|
  {
    if |s| < |pat| {
    } else if s[..|pat|] == pat {
      var rest := Split(s[|pat|..], pat);
      RemoveAllIsJoinOfSplit(s[|pat|..], pat);
      assert ([""] + rest)[1..] == rest;
      assert |[""] + rest| > 1 ==> Join([""] + rest, "") == "" + "" + Join(rest, "");
    } else {
      var rest := Split(s[1..], pat);
      RemoveAllIsJoinOfSplit(s[1..], pat);
      JoinPrepend(s[0], rest[0], rest[1..], "");
      assert [rest[0]] + rest[1..] == rest;
    }
  }

  /** Removing a one-character pattern leaves no occurrence of that character. */
  lemma {:induction false} RemoveAllChar(s: string, c: char)
    ensures forall i :: 0 <= i < |RemoveAll(s, [c])| ==> RemoveAll(s, [c])[i] != c
    decreases |s|
  {
    if |s| >= 1 {
      RemoveAllChar(s[1..], c);
    }
  }

  lemma {:induction false} RemoveAllWithout(t: string, pat: string)
    requires |pat| > 0 && !Occurs(t, pat)
    ensures RemoveAll(t, pat) == t
    decreases |t|
  {
    if |t| >= |pat| {
      assert !OccursAt(t, pat, 0);
      forall i | OccursAt(t[1..], pat, i) ensures false {
        assert t[1..][i..i + |pat|] == t[i + 1..i + 1 + |pat|];
        assert OccursAt(t, pat, i + 1);
      }
      RemoveAllWithout(t[1..], pat);
      assert [t[0]] + t[1..] == t;
    }
  }

  /** `(a + pat).replace(pat, '') == a` when `a` has no character `pat[0]`. */
  lemma {:induction false} RemoveAllTrailing(a: string, pat: string)
    requires |pat| > 0 && forall i :: 0 <= i < |a| ==> a[i] != pat[0]
    ensures RemoveAll(a + pat, pat) == a
    decreases |a|
  {
    var s := a + pat;
    if a == [] {
      assert s == pat;
      assert s[|pat|..] == [];
    } else {
      assert s[0] == a[0];
      assert s[..|pat|][0] == a[0];
      assert s[..|pat|] != pat;
      assert s[1..] == a[1..] + pat;
      RemoveAllTrailing(a[1..], pat);
      assert [a[0]] + a[1..] == a;
    }
  }

  /** `(pat + t).replace(pat, '') == t` when `t` holds no occurrence of `pat`. */
  lemma RemoveAllLeading(pat: string, t: string)
    requires |pat| > 0 && !Occurs(t, pat)
    ensures RemoveAll(pat + t, pat) == t
  {
    var s := pat + t;
    assert s[..|pat|] == pat && s[|pat|..] == t;
    RemoveAllWithout(t, pat);
  }

  /** Splitting on a character `c` after a piece free of `c` yields that piece first. */
  lemma {:induction false} SplitAfterPiece(p: string, c: char, rest: string)
    requires c !in p
    ensures Split(p + [c] + rest, [c]) == [p] + Split(rest, [c])
    decreases |p|
  {
    var s := p + [c] + rest;
    if p == [] {
      assert s[..1] == [c];
      assert s[1..] == rest;
    } else {
      assert s[..1] == [p[0]];
      assert s[1..] == p[1..] + [c] + rest;
      SplitAfterPiece(p[1..], c, rest);
      assert [p[0]] + p[1..] == p;
    }
  }

  /** A piece free of `c` splits into itself. */
  lemma {:induction false} SplitOfPiece(p: string, c: char)
    requires c !in p
    ensures Split(p, [c]) == [p]
    decreases |p|
  {
    if p != [] {
      assert p[..1] == [p[0]];
      SplitOfPiece(p[1..], c);
      assert [p[0]] + p[1..] == p;
    }
  }

  /** `c.join(parts).split(c) == parts` when no part holds `c`. */
  lemma {:induction false} SplitJoinChar(parts: seq<string>, c: char)
    requires |parts| > 0 && forall i :: 0 <= i < |parts| ==> c !in parts[i]
    ensures Split(Join(parts, [c]), [c]) == parts
    decreases |parts|
  {
    if |parts| == 1 {
      SplitOfPiece(parts[0], c);
    } else {
      SplitJoinChar(parts[1..], c);
      SplitAfterPiece(parts[0], c, Join(parts[1..], [c]));
      assert [parts[0]] + parts[1..] == parts;
    }
  }

  /** `strip()` only removes characters. */
  lemma StripWithout(s: string, c: char)
    requires c !in s
    ensures c !in Strip(s)
  {
    var l := LStrip(s);
    LStripSpec(s);
    RStripSpec(l);
    assert c !in l by {
      forall i | 0 <= i < |l| ensures l[i] != c {
        assert l[i] == s[|s| - |l| + i];
      }
    }
    var r := RStrip(l);
    assert r == Strip(s);
    assert c !in r by {
      forall i | 0 <= i < |r| ensures r[i] != c {
        assert r[i] == l[i];
      }
    }
  }
}
