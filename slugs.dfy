/**
 * Identity slugging (`slug` in modules/data_models.py): lower-case the name,
 * turn every maximal run of characters outside `[a-z0-9]` into one `_`, and
 * cut `_` from both ends. Lower-casing is modelled on ASCII only; every
 * non-ASCII character counts as a separator.
 */
module Slugs {
  import opened PyStr

  /** The characters the class `[a-z0-9]` matches. */
  predicate IsSlugChar(c: char) {
    'a' <= c <= 'z' || '0' <= c <= '9'
  }

  /** The characters the class `[^a-z0-9]` matches. */
  predicate IsSeparator(c: char) {
    !IsSlugChar(c)
  }

  predicate IsUnderscore(c: char) {
    c == '_'
  }

  /** An ASCII letter of either case, or an ASCII digit. */
  predicate IsAsciiAlnum(c: char) {
    'a' <= c <= 'z' || 'A' <= c <= 'Z' || '0' <= c <= '9'
  }

  /** `str.lower()` on one character, restricted to ASCII. */
  function LowerChar(c: char): (d: char)
    ensures IsSlugChar(d) <==> IsAsciiAlnum(c)
    ensures !('A' <= c <= 'Z') ==> d == c
  {
    if 'A' <= c <= 'Z' then (c as int + 32) as char else c
  }

  /** `str.lower()`, restricted to ASCII. */
  function Lower(s: string): (r: string)
    ensures |r| == |s|
    ensures forall k :: 0 <= k < |s| ==> r[k] == LowerChar(s[k])
  {
    seq(|s|, k requires 0 <= k < |s| => LowerChar(s[k]))
  }

  /** No two underscores stand next to each other. */
  predicate NoDoubleUnderscore(t: string) {
    forall k :: 0 <= k < |t| - 1 ==> !(t[k] == '_' && t[k + 1] == '_')
  }

  /** Only `[a-z0-9]` and `_`. */
  predicate SlugAlphabet(t: string) {
    forall k :: 0 <= k < |t| ==> IsSlugChar(t[k]) || t[k] == '_'
  }

  /** The shape of every id `slug` produces: the slug alphabet, no `_` at
      either end, never `__`. The empty string is one. */
  predicate IsSlug(t: string) {
    && SlugAlphabet(t)
    && NoDoubleUnderscore(t)
    && (t != [] ==> t[0] != '_' && t[|t| - 1] != '_')
  }

  /** `re.sub(r"[^a-z0-9]+", "_", s)`: each maximal run of separators becomes
      a single `_`; every other character is kept. */
  function Collapse(s: string): (r: string)
    ensures SlugAlphabet(r) && NoDoubleUnderscore(r)
    ensures r == [] <==> s == []
    ensures s != [] ==> (r[0] == '_' <==> IsSeparator(s[0]))
    decreases |s|
  {
    if s == [] then []
    else if IsSlugChar(s[0]) then [s[0]] + Collapse(s[1..])
    else "_" + Collapse(TrimLeft(s[1..], IsSeparator))
  }

  /** `slug(text)`: `re.sub(r"[^a-z0-9]+", "_", text.lower()).strip("_")`. */
  function Slug(text: string): (id: string)
    ensures IsSlug(id)
  {
    var c := Collapse(Lower(text));
    StripSlugShape(c);
    StripBy(c, IsUnderscore)
  }

  /** Cutting the `_` at both ends of a string of the slug alphabet without
      `__` leaves an id. */
  lemma {:induction false} StripSlugShape(c: string)
    requires SlugAlphabet(c) && NoDoubleUnderscore(c)
    ensures IsSlug(StripBy(c, IsUnderscore))
  {
    var i, j := StripBySlice(c, IsUnderscore);
    var t := c[i..j];
    assert forall k :: 0 <= k < |t| ==> t[k] == c[i + k];
  }

  // ----- slug is a projection onto well-formed ids -----

  lemma {:induction false} LowerOfSlugAlphabet(t: string)
    requires SlugAlphabet(t)
    ensures Lower(t) == t
  {
  }

  lemma {:induction false} CollapseOfSlugAlphabet(t: string)
    requires SlugAlphabet(t) && NoDoubleUnderscore(t)
    ensures Collapse(t) == t
    decreases |t|
  {
    if t != [] {
      var rest := t[1..];
      assert SlugAlphabet(rest) && NoDoubleUnderscore(rest);
      if !IsSlugChar(t[0]) {
        assert rest == [] || rest[0] != '_';
        assert TrimLeft(rest, IsSeparator) == rest;
      }
      CollapseOfSlugAlphabet(rest);
      assert t == [t[0]] + rest;
    }
  }

  /** Every well-formed id is its own slug. */
  lemma {:induction false} SlugOfSlug(t: string)
    requires IsSlug(t)
    ensures Slug(t) == t
  {
    LowerOfSlugAlphabet(t);
    CollapseOfSlugAlphabet(t);
    StripByIs(t, IsUnderscore, [], t, []);
    assert [] + t + [] == t;
  }

  /** `slug(slug(s)) == slug(s)`. */
  lemma {:induction false} SlugIdempotent(s: string)
    ensures Slug(Slug(s)) == Slug(s)
  {
    SlugOfSlug(Slug(s));
  }

  // ----- slug keeps every letter and digit, in order -----

  /** The `[a-z0-9]` characters of `s`, in order. */
  function Alnums(s: string): string {
    if s == [] then [] else (if IsSlugChar(s[0]) then [s[0]] else []) + Alnums(s[1..])
  }

  lemma {:induction false} AlnumsAppend(a: string, b: string)
    ensures Alnums(a + b) == Alnums(a) + Alnums(b)
  {
    if a == [] {
      assert a + b == b;
    } else {
      assert (a + b)[0] == a[0];
      assert (a + b)[1..] == a[1..] + b;
      AlnumsAppend(a[1..], b);
    }
  }

  lemma {:induction false} AlnumsEmpty(s: string)
    ensures Alnums(s) == [] <==> forall k :: 0 <= k < |s| ==> IsSeparator(s[k])
  {
    if s != [] {
      AlnumsEmpty(s[1..]);
      assert forall k :: 1 <= k < |s| ==> s[k] == s[1..][k - 1];
    }
  }

  lemma {:induction false} TrimLeftKeepsAlnums(x: string)
    ensures Alnums(TrimLeft(x, IsSeparator)) == Alnums(x)
  {
    var i := LeftCut(x, IsSeparator);
    assert x == x[..i] + x[i..];
    AlnumsAppend(x[..i], x[i..]);
    AlnumsEmpty(x[..i]);
  }

  lemma {:induction false} CollapseKeepsAlnums(s: string)
    ensures Alnums(Collapse(s)) == Alnums(s)
    decreases |s|
  {
    if s != [] {
      if IsSlugChar(s[0]) {
        CollapseKeepsAlnums(s[1..]);
        assert ([s[0]] + Collapse(s[1..]))[1..] == Collapse(s[1..]);
      } else {
        var t := TrimLeft(s[1..], IsSeparator);
        CollapseKeepsAlnums(t);
        TrimLeftKeepsAlnums(s[1..]);
        assert ("_" + Collapse(t))[1..] == Collapse(t);
      }
    }
  }

  /** The letters and digits of the id are those of the lower-cased name, in
      order: slugging only ever rewrites separators. */
  lemma {:induction false} AlnumsAroundUnderscores(c: string, i: nat, j: nat)
    requires i <= j <= |c|
    requires forall k :: 0 <= k < i ==> c[k] == '_'
    requires forall k :: j <= k < |c| ==> c[k] == '_'
    ensures Alnums(c[i..j]) == Alnums(c)
  {
    var a, m, b := c[..i], c[i..j], c[j..];
    assert c == a + m + b;
    AlnumsAppend(a + m, b);
    AlnumsAppend(a, m);
    AlnumsEmpty(a);
    AlnumsEmpty(b);
  }

  lemma {:induction false} StripKeepsAlnums(c: string)
    ensures Alnums(StripBy(c, IsUnderscore)) == Alnums(c)
  {
    var i, j := StripBySlice(c, IsUnderscore);
    AlnumsAroundUnderscores(c, i, j);
  }

  lemma {:induction false} SlugKeepsAlnums(s: string)
    ensures Alnums(Slug(s)) == Alnums(Lower(s))
  {
    CollapseKeepsAlnums(Lower(s));
    StripKeepsAlnums(Collapse(Lower(s)));
  }

  /** A name yields the empty id exactly when it has no ASCII letter or digit. */
  lemma {:induction false} SlugEmptyIff(s: string)
    ensures Slug(s) == "" <==> forall k :: 0 <= k < |s| ==> !IsAsciiAlnum(s[k])
  {
    var id := Slug(s);
    SlugKeepsAlnums(s);
    AlnumsEmpty(Lower(s));
    AlnumsEmpty(id);
    if id != "" {
      assert IsSlugChar(id[0]);
    }
  }

  // ----- slug ignores case and surrounding separators -----

  /** Names that lower-case alike slug alike; in particular a name and its
      lower-cased form ("Rogue", "ROGUE", "rogue"). */
  lemma {:induction false} SlugIgnoresCase(a: string, b: string)
    requires Lower(a) == Lower(b)
    ensures Slug(a) == Slug(b)
  {
  }

  lemma {:induction false} LowerIdempotent(s: string)
    ensures Lower(Lower(s)) == Lower(s)
  {
  }

  lemma {:induction false} StripLeadingUnderscore(k: string)
    ensures StripBy("_" + k, IsUnderscore) == StripBy(k, IsUnderscore)
  {
    var i, j := StripBySlice(k, IsUnderscore);
    assert "_" + k == ("_" + k[..i]) + k[i..j] + k[j..];
    StripByIs("_" + k, IsUnderscore, "_" + k[..i], k[i..j], k[j..]);
  }

  lemma {:induction false} StripTrailingUnderscore(k: string)
    ensures StripBy(k + "_", IsUnderscore) == StripBy(k, IsUnderscore)
  {
    var i, j := StripBySlice(k, IsUnderscore);
    assert k + "_" == k[..i] + k[i..j] + (k[j..] + "_");
    StripByIs(k + "_", IsUnderscore, k[..i], k[i..j], k[j..] + "_");
  }

  lemma {:induction false} LeftCutAfterSeparators(p: string, x: string)
    requires forall k :: 0 <= k < |p| ==> IsSeparator(p[k])
    ensures TrimLeft(p + x, IsSeparator) == TrimLeft(x, IsSeparator)
  {
    if p == [] {
      assert p + x == x;
    } else {
      assert (p + x)[0] == p[0];
      assert (p + x)[1..] == p[1..] + x;
      assert LeftCut(p + x, IsSeparator) == 1 + LeftCut(p[1..] + x, IsSeparator);
      LeftCutAfterSeparators(p[1..], x);
    }
  }

  lemma {:induction false} TrimLeftAppend(x: string, z: string)
    requires TrimLeft(x, IsSeparator) != []
    ensures TrimLeft(x + z, IsSeparator) == TrimLeft(x, IsSeparator) + z
  {
    var i := LeftCut(x, IsSeparator);
    assert forall k :: 0 <= k < i ==> (x + z)[k] == x[k];
    assert (x + z)[i] == x[i];
    assert LeftCut(x + z, IsSeparator) == i;
  }

  /** One separator in front of a name does not change its tidied form. */
  lemma {:induction false} TidyLeading(c: char, y: string)
    requires IsSeparator(c)
    ensures StripBy(Collapse([c] + y), IsUnderscore) == StripBy(Collapse(y), IsUnderscore)
  {
    assert ([c] + y)[1..] == y;
    if y == [] || IsSlugChar(y[0]) {
      assert TrimLeft(y, IsSeparator) == y;
      StripLeadingUnderscore(Collapse(y));
    } else {
      LeftCutAfterSeparators([y[0]], y[1..]);
      assert [y[0]] + y[1..] == y;
    }
  }

  lemma {:induction false} CollapseTrailing(y: string, c: char)
    requires IsSeparator(c)
    ensures Collapse(y + [c]) == Collapse(y) || Collapse(y + [c]) == Collapse(y) + "_"
    decreases |y|
  {
    if y == [] {
      assert TrimLeft([], IsSeparator) == [];
      assert [] + [c] == [c];
    } else {
      assert (y + [c])[1..] == y[1..] + [c];
      if IsSlugChar(y[0]) {
        CollapseTrailing(y[1..], c);
      } else {
        var t := TrimLeft(y[1..], IsSeparator);
        if t == [] {
          var i := LeftCut(y[1..], IsSeparator);
          LeftCutAfterSeparators(y[1..] + [c], []);
          assert (y[1..] + [c]) + [] == y[1..] + [c];
          assert TrimLeft([], IsSeparator) == [];
        } else {
          TrimLeftAppend(y[1..], [c]);
          CollapseTrailing(t, c);
        }
      }
    }
  }

  /** One separator after a name does not change its tidied form. */
  lemma {:induction false} TidyTrailing(y: string, c: char)
    requires IsSeparator(c)
    ensures StripBy(Collapse(y + [c]), IsUnderscore) == StripBy(Collapse(y), IsUnderscore)
  {
    CollapseTrailing(y, c);
    if Collapse(y + [c]) != Collapse(y) {
      StripTrailingUnderscore(Collapse(y));
    }
  }

  lemma {:induction false} TidyLeadingRun(p: string, y: string)
    requires forall k :: 0 <= k < |p| ==> IsSeparator(p[k])
    ensures StripBy(Collapse(p + y), IsUnderscore) == StripBy(Collapse(y), IsUnderscore)
  {
    if p == [] {
      assert p + y == y;
    } else {
      var rest := p[1..] + y;
      assert p + y == [p[0]] + rest;
      TidyLeading(p[0], rest);
      TidyLeadingRun(p[1..], y);
    }
  }

  lemma {:induction false} TidyTrailingRun(y: string, q: string)
    requires forall k :: 0 <= k < |q| ==> IsSeparator(q[k])
    ensures StripBy(Collapse(y + q), IsUnderscore) == StripBy(Collapse(y), IsUnderscore)
    decreases |q|
  {
    if q == [] {
      assert y + q == y;
    } else {
      var y' := y + [q[0]];
      assert y + q == y' + q[1..];
      TidyTrailingRun(y', q[1..]);
      TidyTrailing(y, q[0]);
    }
  }

  lemma {:induction false} LowerAppend(a: string, b: string)
    ensures Lower(a + b) == Lower(a) + Lower(b)
  {
  }

  /** Spaces and punctuation around a name do not change its id: `p` and `q`
      hold no ASCII letter or digit. */
  lemma {:induction false} SlugIgnoresSurrounding(p: string, s: string, q: string)
    requires forall k :: 0 <= k < |p| ==> !IsAsciiAlnum(p[k])
    requires forall k :: 0 <= k < |q| ==> !IsAsciiAlnum(q[k])
    ensures Slug(p + s + q) == Slug(s)
  {
    LowerAppend(p + s, q);
    LowerAppend(p, s);
    var lp, ls, lq := Lower(p), Lower(s), Lower(q);
    assert forall k :: 0 <= k < |lp| ==> IsSeparator(lp[k]);
    assert forall k :: 0 <= k < |lq| ==> IsSeparator(lq[k]);
    assert lp + ls + lq == lp + (ls + lq);
    TidyLeadingRun(lp, ls + lq);
    TidyTrailingRun(ls, lq);
  }

  // ----- slug puts one `_` between words -----

  /** Dropping leading separators from a string that ends in a `[a-z0-9]`
      character leaves that character last. */
  lemma {:induction false} TrimLeftKeepsLast(s: string)
    requires s != [] && IsSlugChar(s[|s| - 1])
    ensures TrimLeft(s, IsSeparator) != []
    ensures TrimLeft(s, IsSeparator)[|TrimLeft(s, IsSeparator)| - 1] == s[|s| - 1]
  {
    var i := LeftCut(s, IsSeparator);
    assert i < |s|;
  }

  /** Collapsing a string that ends in a `[a-z0-9]` character keeps that
      character last. */
  lemma {:induction false} CollapseKeepsLast(x: string)
    requires x != [] && IsSlugChar(x[|x| - 1])
    ensures Collapse(x) != [] && IsSlugChar(Collapse(x)[|Collapse(x)| - 1])
    decreases |x|
  {
    if |x| > 1 {
      var rest := x[1..];
      assert rest[|rest| - 1] == x[|x| - 1];
      if IsSlugChar(x[0]) {
        CollapseKeepsLast(rest);
        assert Collapse(x) == [x[0]] + Collapse(rest);
      } else {
        TrimLeftKeepsLast(rest);
        var t := TrimLeft(rest, IsSeparator);
        CollapseKeepsLast(t);
        assert Collapse(x) == "_" + Collapse(t);
      }
    }
  }

  /** Collapsing distributes over a cut right after a `[a-z0-9]` character. */
  lemma {:induction false} CollapseAfterSlugChar(x: string, z: string)
    requires x == [] || IsSlugChar(x[|x| - 1])
    ensures Collapse(x + z) == Collapse(x) + Collapse(z)
    decreases |x|, 1
  {
    if x == [] {
      assert x + z == z;
    } else if IsSlugChar(x[0]) {
      CollapseAfterKeep(x, z);
    } else {
      CollapseAfterSkip(x, z);
    }
  }

  /** `CollapseAfterSlugChar` when `x` starts with a `[a-z0-9]` character. */
  lemma {:induction false} CollapseAfterKeep(x: string, z: string)
    requires x != [] && IsSlugChar(x[0]) && IsSlugChar(x[|x| - 1])
    ensures Collapse(x + z) == Collapse(x) + Collapse(z)
    decreases |x|, 0
  {
    var rest := x[1..];
    assert (x + z)[0] == x[0];
    assert (x + z)[1..] == rest + z;
    if rest != [] {
      assert rest[|rest| - 1] == x[|x| - 1];
    }
    CollapseAfterSlugChar(rest, z);
    var head := [x[0]];
    assert Collapse(x + z) == head + Collapse(rest + z);
    assert Collapse(x) == head + Collapse(rest);
    assert head + (Collapse(rest) + Collapse(z)) == (head + Collapse(rest)) + Collapse(z);
  }

  /** `CollapseAfterSlugChar` when `x` starts with a separator. */
  lemma {:induction false} CollapseAfterSkip(x: string, z: string)
    requires x != [] && IsSeparator(x[0]) && IsSlugChar(x[|x| - 1])
    ensures Collapse(x + z) == Collapse(x) + Collapse(z)
    decreases |x|, 0
  {
    var rest := x[1..];
    assert (x + z)[1..] == rest + z;
    assert rest[|rest| - 1] == x[|x| - 1];
    TrimLeftKeepsLast(rest);
    TrimLeftAppend(rest, z);
    var t := TrimLeft(rest, IsSeparator);
    CollapseAfterSlugChar(t, z);
    calc {
      Collapse(x + z);
      "_" + Collapse(TrimLeft(rest + z, IsSeparator));
      "_" + Collapse(t + z);
      "_" + (Collapse(t) + Collapse(z));
      ("_" + Collapse(t)) + Collapse(z);
    }
  }

  /** A non-empty run of separators before a `[a-z0-9]` character
      collapses to one `_`. */
  lemma {:induction false} CollapseGap(q: string, y: string)
    requires q != [] && forall k :: 0 <= k < |q| ==> IsSeparator(q[k])
    requires y != [] && IsSlugChar(y[0])
    ensures Collapse(q + y) == "_" + Collapse(y)
  {
    var s := q + y;
    assert s[0] == q[0];
    assert s[1..] == q[1..] + y;
    LeftCutAfterSeparators(q[1..], y);
    assert TrimLeft(y, IsSeparator) == y;
  }

  /** Stripping a join whose inner ends are kept characters strips each side
      on its own. */
  lemma {:induction false} StripAroundJoin(c1: string, u: string, c2: string, drop: char -> bool)
    requires c1 != [] && !drop(c1[|c1| - 1])
    requires c2 != [] && !drop(c2[0])
    ensures StripBy(c1 + u + c2, drop) == StripBy(c1, drop) + u + StripBy(c2, drop)
  {
    var i1, j1 := StripBySlice(c1, drop);
    var i2, j2 := StripBySlice(c2, drop);
    assert j1 == |c1| && i1 < j1;
    assert i2 == 0 && 0 < j2;
    var r1, r2 := StripBy(c1, drop), StripBy(c2, drop);
    var m := r1 + u + r2;
    assert m[0] == r1[0] && m[|m| - 1] == r2[|r2| - 1];
    assert c1 + u + c2 == c1[..i1] + m + c2[j2..] by {
      assert c1 == c1[..i1] + r1;
      assert c2 == r2 + c2[j2..];
    }
    StripByIs(c1 + u + c2, drop, c1[..i1], m, c2[j2..]);
  }

  /** Two names joined by a run of separators tidy to their own tidied forms
      around one `_`, when the first ends and the second starts with a
      `[a-z0-9]` character. */
  lemma {:induction false} TidyJoin(x: string, q: string, y: string)
    requires x != [] && IsSlugChar(x[|x| - 1])
    requires q != [] && forall k :: 0 <= k < |q| ==> IsSeparator(q[k])
    requires y != [] && IsSlugChar(y[0])
    ensures StripBy(Collapse(x + q + y), IsUnderscore)
         == StripBy(Collapse(x), IsUnderscore) + "_" + StripBy(Collapse(y), IsUnderscore)
  {
    assert x + q + y == x + (q + y);
    CollapseAfterSlugChar(x, q + y);
    CollapseKeepsLast(x);
    CollapseGap(q, y);
    var c1, c2 := Collapse(x), Collapse(y);
    assert Collapse(x + q + y) == c1 + "_" + c2;
    StripAroundJoin(c1, "_", c2, IsUnderscore);
  }

  /** The same with separators allowed at the inner ends: a name
      `x + qa`, a gap `p` and a name `qb + y`. */
  lemma {:induction false} TidyJoinRuns(x: string, qa: string, p: string, qb: string, y: string)
    requires x != [] && IsSlugChar(x[|x| - 1])
    requires forall k :: 0 <= k < |qa| ==> IsSeparator(qa[k])
    requires p != [] && forall k :: 0 <= k < |p| ==> IsSeparator(p[k])
    requires forall k :: 0 <= k < |qb| ==> IsSeparator(qb[k])
    requires y != [] && IsSlugChar(y[0])
    ensures StripBy(Collapse((x + qa) + p + (qb + y)), IsUnderscore)
         == StripBy(Collapse(x + qa), IsUnderscore) + "_" + StripBy(Collapse(qb + y), IsUnderscore)
  {
    var q := qa + p + qb;
    forall k | 0 <= k < |q| ensures IsSeparator(q[k]) {
      if k < |qa| {
        assert q[k] == qa[k];
      } else if k < |qa| + |p| {
        assert q[k] == p[k - |qa|];
      } else {
        assert q[k] == qb[k - |qa| - |p|];
      }
    }
    assert (x + qa) + p + (qb + y) == x + q + y;
    TidyJoin(x, q, y);
    TidyTrailingRun(x, qa);
    TidyLeadingRun(qb, y);
  }

  /** The lowered form of a name with a non-empty slug has a `[a-z0-9]`
      character, so it neither is all separators from the left nor from the
      right. */
  lemma {:induction false} SlugCharInside(a: string)
    requires Slug(a) != ""
    ensures RightCut(Lower(a), IsSeparator) > 0
    ensures LeftCut(Lower(a), IsSeparator) < |Lower(a)|
  {
    SlugEmptyIff(a);
    var k :| 0 <= k < |a| && IsAsciiAlnum(a[k]);
    assert IsSlugChar(Lower(a)[k]);
  }

  /** `TidyJoinRuns` read on lowered text: cut each name at its outermost
      `[a-z0-9]` characters. */
  lemma {:induction false} TidyJoinLowered(la: string, lp: string, lb: string)
    requires RightCut(la, IsSeparator) > 0
    requires LeftCut(lb, IsSeparator) < |lb|
    requires lp != [] && forall k :: 0 <= k < |lp| ==> IsSeparator(lp[k])
    ensures StripBy(Collapse(la + lp + lb), IsUnderscore)
         == StripBy(Collapse(la), IsUnderscore) + "_" + StripBy(Collapse(lb), IsUnderscore)
  {
    var ja := RightCut(la, IsSeparator);
    var ib := LeftCut(lb, IsSeparator);
    assert la == la[..ja] + la[ja..];
    assert lb == lb[..ib] + lb[ib..];
    TidyJoinRuns(la[..ja], la[ja..], lp, lb[..ib], lb[ib..]);
  }

  /** Between two names that each have an ASCII letter or digit, any run of
      spaces or punctuation becomes exactly one `_`: "Night City" is
      `night_city`. */
  lemma {:induction false} SlugJoinsWords(a: string, p: string, b: string)
    requires Slug(a) != "" && Slug(b) != ""
    requires p != [] && forall k :: 0 <= k < |p| ==> !IsAsciiAlnum(p[k])
    ensures Slug(a + p + b) == Slug(a) + "_" + Slug(b)
  {
    LowerAppend(a + p, b);
    LowerAppend(a, p);
    SlugCharInside(a);
    SlugCharInside(b);
    var lp := Lower(p);
    assert forall k :: 0 <= k < |lp| ==> IsSeparator(lp[k]);
    TidyJoinLowered(Lower(a), lp, Lower(b));
  }

  /** "Rogue", "ROGUE!!" and "  rogue  " all name the entity `rogue`. */
  lemma {:induction false} RogueVariants()
    ensures Slug("Rogue") == "rogue"
    ensures Slug("ROGUE!!") == "rogue"
    ensures Slug("  rogue  ") == "rogue"
  {
    assert IsSlug("rogue");
    SlugOfSlug("rogue");
    SlugIgnoresCase("Rogue", "rogue");
    SlugIgnoresCase("ROGUE", "rogue");
    assert "ROGUE!!" == [] + "ROGUE" + "!!";
    SlugIgnoresSurrounding([], "ROGUE", "!!");
    assert "  rogue  " == "  " + "rogue" + "  ";
    SlugIgnoresSurrounding("  ", "rogue", "  ");
  }
}
