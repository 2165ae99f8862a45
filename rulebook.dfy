/**
 * The rulebook chunker of modules/rag_system.py (`_chunk_pdf`): every page
 * of a PDF gets the title of the chapter it falls in, its lines are stripped
 * and merged (runs of short or bulleted lines become one item), the merged
 * text is split into paragraphs, and every paragraph of at least 30
 * characters becomes a chunk with its page, chapter and file name. A PDF is
 * its table of contents plus, per page, the lines of its text; chunk ids
 * (`uuid4` in the source) come from a parameter `newId`.
 */
module Rulebook {
  import opened PyStr

  // ---------------------------------------------------------------------
  // page -> chapter
  // ---------------------------------------------------------------------

  /** One `[level, title, page]` entry of `get_toc(simple=True)`; `page` is
      the 1-based page the entry starts on. */
  datatype TocEntry = TocEntry(level: int, title: string, page: int)

  /** Advance the cursor from `t` while the next entry starts on or before
      page number `q`. */
  function Scan(toc: seq<TocEntry>, t: nat, q: int): (r: nat)
    requires t < |toc|
    ensures t <= r < |toc|
    ensures forall k :: t < k <= r ==> toc[k].page <= q
    ensures r + 1 == |toc| || toc[r + 1].page > q
    decreases |toc| - t
  {
    if t + 1 < |toc| && toc[t + 1].page <= q then Scan(toc, t + 1, q) else t
  }

  /** The TOC entry page number `q` belongs to: the end of the longest run of
      entries after the first that all start on or before `q`. */
  function Cursor(toc: seq<TocEntry>, q: int): nat
    requires toc != []
  {
    Scan(toc, 0, q)
  }

  /** `page_map[p]`: the chapter title of 0-based page `p`. */
  function Chapter(toc: seq<TocEntry>, p: nat): (title: string)
  {
    if toc == [] then "Unknown" else toc[Cursor(toc, p + 1)].title
  }

  /** The cursor is pinned down by where the run of early-enough entries stops. */
  lemma {:induction false} CursorIs(toc: seq<TocEntry>, q: int, t: nat)
    requires t < |toc|
    requires forall k :: 0 < k <= t ==> toc[k].page <= q
    requires t + 1 == |toc| || toc[t + 1].page > q
    ensures Cursor(toc, q) == t
  {
  }

  /** The cursor never moves back as the page number grows. */
  lemma {:induction false} CursorMonotone(toc: seq<TocEntry>, q1: int, q2: int)
    requires toc != [] && q1 <= q2
    ensures Cursor(toc, q1) <= Cursor(toc, q2)
  {
  }

  /** With an empty TOC every page is "Unknown"; otherwise every page gets a
      title from the TOC, and the pages before the second entry starts get
      the first entry's title (for a TOC in page order: every page before the
      first entry's start page). */
  lemma {:induction false} ChapterFacts(toc: seq<TocEntry>, p: nat)
    ensures toc == [] ==> Chapter(toc, p) == "Unknown"
    ensures toc != [] ==> exists k :: 0 <= k < |toc| && Chapter(toc, p) == toc[k].title
    ensures toc != [] && (|toc| == 1 || p + 1 < toc[1].page) ==> Chapter(toc, p) == toc[0].title
    ensures |toc| > 1 && toc[0].page <= toc[1].page && p + 1 < toc[0].page ==> Chapter(toc, p) == toc[0].title
  {
    if toc != [] {
      var t := Cursor(toc, p + 1);
      assert Chapter(toc, p) == toc[t].title;
      if |toc| == 1 || p + 1 < toc[1].page {
        CursorIs(toc, p + 1, 0);
      }
    }
  }

  /** The page -> chapter loop of `_chunk_pdf`: one cursor `t` into the TOC,
      moved forward page by page. */
  method PageChapters(toc: seq<TocEntry>, pageCount: nat) returns (pageMap: seq<string>)
    ensures |pageMap| == pageCount
    ensures forall p :: 0 <= p < pageCount ==> pageMap[p] == Chapter(toc, p)
  {
    var t := 0;
    pageMap := [];
    for p := 0 to pageCount
      invariant |pageMap| == p
      invariant forall i :: 0 <= i < p ==> pageMap[i] == Chapter(toc, i)
      invariant toc == [] ==> t == 0
      invariant toc != [] ==> t < |toc| && forall k :: 0 < k <= t ==> toc[k].page <= p
    {
      while t + 1 < |toc| && toc[t + 1].page <= p + 1
        invariant toc == [] ==> t == 0
        invariant toc != [] ==> t < |toc| && forall k :: 0 < k <= t ==> toc[k].page <= p + 1
        decreases |toc| - t
      {
        t := t + 1;
      }
      if toc != [] {
        CursorIs(toc, p + 1, t);
      }
      pageMap := pageMap + [if toc != [] then toc[t].title else "Unknown"];
    }
  }

  // ---------------------------------------------------------------------
  // line merging
  // ---------------------------------------------------------------------

  /** The leading glyphs of `[•\-•\*]` (the class names U+2022 twice). */
  predicate IsBullet(c: char) {
    c == '\U{2022}' || c == '-' || c == '*'
  }

  /** `ln and (len(ln) < 30 or re.match(r"^[•\-•\*]", ln))` */
  predicate ShortOrBullet(ln: string) {
    ln != "" && (|ln| < 30 || IsBullet(ln[0]))
  }

  /** `re.sub(r"^[•\-•\*]\s*", "", ln)`: one leading bullet glyph and the
      whitespace after it go. */
  function Debullet(ln: string): (r: string)
    ensures |r| <= |ln|
    ensures ln != [] && IsBullet(ln[0]) ==> r == TrimLeft(ln[1..], IsSpace)
    ensures ln == [] || !IsBullet(ln[0]) ==> r == ln
  {
    if ln != [] && IsBullet(ln[0]) then TrimLeft(ln[1..], IsSpace) else ln
  }

  function DebulletAll(run: seq<string>): (r: seq<string>)
    ensures |r| == |run| && forall k :: 0 <= k < |r| ==> r[k] == Debullet(run[k])
  {
    seq(|run|, k requires 0 <= k < |run| => Debullet(run[k]))
  }

  /** The item a run of short-or-bulleted lines becomes: `" • ".join(buf)`
      of its debulleted lines. */
  function RunItem(run: seq<string>): string {
    Join(DebulletAll(run), " \U{2022} ")
  }

  /** Length of the leading run of short-or-bulleted lines. */
  function RunLength(lines: seq<string>): (n: nat)
    ensures n <= |lines|
    ensures forall k :: 0 <= k < n ==> ShortOrBullet(lines[k])
    ensures n == |lines| || !ShortOrBullet(lines[n])
  {
    if lines == [] || !ShortOrBullet(lines[0]) then 0 else 1 + RunLength(lines[1..])
  }

  /** The merge skeleton, with the item a run becomes given by `item`:
      every maximal run of short-or-bulleted lines becomes one item; any
      other non-empty line is an item of its own; empty lines vanish. */
  function MergeBy(lines: seq<string>, item: seq<string> -> string): seq<string>
    decreases |lines|
  {
    if lines == [] then []
    else if ShortOrBullet(lines[0]) then
      var n := RunLength(lines);
      [item(lines[..n])] + MergeBy(lines[n..], item)
    else if lines[0] == "" then MergeBy(lines[1..], item)
    else [lines[0]] + MergeBy(lines[1..], item)
  }

  /** What the merge produces: each run's lines debulleted and joined by
      " \u2022 ". */
  function Merge(lines: seq<string>): seq<string> {
    MergeBy(lines, RunItem)
  }

  /** A cut right after a line that is not short-or-bulleted splits no run. */
  lemma {:induction false} MergeAfterBoundary(a: seq<string>, b: seq<string>, item: seq<string> -> string)
    requires a == [] || !ShortOrBullet(a[|a| - 1])
    ensures MergeBy(a + b, item) == MergeBy(a, item) + MergeBy(b, item)
    decreases |a|
  {
    if a == [] {
      assert a + b == b;
    } else {
      var rest, g := FirstGroup(a, b, item);
      MergeAfterBoundary(rest, b, item);
      ConcatAssoc(g, MergeBy(rest, item), MergeBy(b, item));
    }
  }

  lemma {:induction false} ConcatAssoc(x: seq<string>, y: seq<string>, z: seq<string>)
    ensures x + (y + z) == (x + y) + z
  {
    assert forall k :: 0 <= k < |x| + |y| + |z| ==> (x + (y + z))[k] == ((x + y) + z)[k];
  }

  /** The first group of `a` (its leading run, or its first line) yields
      the same items `g` in front of the rest of `a` as in front of the rest
      of `a + b`. */
  lemma {:induction false} FirstGroup(a: seq<string>, b: seq<string>, item: seq<string> -> string)
    returns (rest: seq<string>, g: seq<string>)
    requires a != [] && !ShortOrBullet(a[|a| - 1])
    ensures |rest| < |a| && (rest == [] || !ShortOrBullet(rest[|rest| - 1]))
    ensures MergeBy(a, item) == g + MergeBy(rest, item)
    ensures MergeBy(a + b, item) == g + MergeBy(rest + b, item)
  {
    var n;
    if ShortOrBullet(a[0]) {
      n := RunLength(a);
      g := [item(a[..n])];
      MergeRunThen(a, b, n, item);
      MergeOpensWithRun(a, item);
    } else {
      n := 1;
      g := if a[0] == "" then [] else [a[0]];
      assert (a + b)[1..] == a[1..] + b;
    }
    rest := a[n..];
    assert rest == [] || rest[|rest| - 1] == a[|a| - 1];
  }

  /** The run `a` opens with is also the run `a + b` opens with, when it
      ends inside `a`. */
  lemma {:induction false} MergeRunThen(a: seq<string>, b: seq<string>, n: nat, item: seq<string> -> string)
    requires a != [] && ShortOrBullet(a[0]) && n == RunLength(a) && n < |a|
    ensures MergeBy(a + b, item) == [item(a[..n])] + MergeBy(a[n..] + b, item)
  {
    var ab := a + b;
    RunLengthPrefix(a, b, n);
    assert ab[..n] == a[..n] && ab[n..] == a[n..] + b;
    MergeOpensWithRun(ab, item);
  }

  /** One step of `MergeBy` on lines that open with a run. */
  lemma {:induction false} MergeOpensWithRun(s: seq<string>, item: seq<string> -> string)
    requires s != [] && ShortOrBullet(s[0])
    ensures MergeBy(s, item) == [item(s[..RunLength(s)])] + MergeBy(s[RunLength(s)..], item)
  {
  }

  lemma {:induction false} RunLengthPrefix(a: seq<string>, b: seq<string>, n: nat)
    requires n == RunLength(a) && n < |a|
    ensures RunLength(a + b) == n
    decreases n
  {
    if n > 0 {
      assert (a + b)[1..] == a[1..] + b;
      RunLengthPrefix(a[1..], b, n - 1);
    }
  }

  /** A run closed by a line that is not short-or-bulleted is one item. */
  lemma {:induction false} RunThenBreak(run: seq<string>, x: string, item: seq<string> -> string)
    requires forall k :: 0 <= k < |run| ==> ShortOrBullet(run[k])
    requires !ShortOrBullet(x)
    ensures MergeBy(run + [x], item)
      == (if run != [] then [item(run)] else []) + (if x != "" then [x] else [])
  {
    var s := run + [x];
    assert MergeBy([x], item) == (if x != "" then [x] else []) by {
      assert [x][1..] == [];
    }
    if run != [] {
      assert RunLength(s) == |run| by {
        RunLengthAll(s, |run|);
      }
      assert s[..|run|] == run;
      assert s[|run|..] == [x];
      MergeOpensWithRun(s, item);
    } else {
      assert s == [x];
    }
  }

  lemma {:induction false} RunLengthAll(s: seq<string>, n: nat)
    requires n < |s| && !ShortOrBullet(s[n])
    requires forall k :: 0 <= k < n ==> ShortOrBullet(s[k])
    ensures RunLength(s) == n
    decreases n
  {
    if n > 0 {
      RunLengthAll(s[1..], n - 1);
    }
  }

  /** The `""` the loop appends only closes the last run: it adds no item. */
  lemma {:induction false} MergeSentinel(raw: seq<string>, item: seq<string> -> string)
    ensures MergeBy(raw + [""], item) == MergeBy(raw, item)
    decreases |raw|
  {
    var s := raw + [""];
    if raw == [] {
      assert s[1..] == [];
    } else if ShortOrBullet(raw[0]) {
      var n := RunLength(raw);
      if n < |raw| {
        RunLengthPrefix(raw, [""], n);
        assert s[..n] == raw[..n];
        assert s[n..] == raw[n..] + [""];
        MergeSentinel(raw[n..], item);
      } else {
        RunLengthAll(s, n);
        assert s[..n] == raw[..n];
        assert s[n..] == [""];
        assert raw[n..] == [];
        assert [""][1..] == [];
      }
    } else {
      assert s[1..] == raw[1..] + [""];
      MergeSentinel(raw[1..], item);
    }
  }

  /** The flush branch of the merge loop, stated on `MergeBy`. */
  lemma {:induction false} FlushStep(xs: seq<string>, j: nat, i: nat, item: seq<string> -> string)
    requires j <= i < |xs| && !ShortOrBullet(xs[i])
    requires j == 0 || !ShortOrBullet(xs[j - 1])
    requires forall k :: j <= k < i ==> ShortOrBullet(xs[k])
    ensures MergeBy(xs[..i + 1], item)
      == MergeBy(xs[..j], item)
         + (if j < i then [item(xs[j..i])] else [])
         + (if xs[i] != "" then [xs[i]] else [])
  {
    var run := xs[j..i];
    var before := xs[..j];
    assert xs[..i + 1] == before + (run + [xs[i]]);
    assert before == [] || before[|before| - 1] == xs[j - 1];
    assert forall k :: 0 <= k < |run| ==> run[k] == xs[j + k];
    MergeAfterBoundary(before, run + [xs[i]], item);
    RunThenBreak(run, xs[i], item);
    ConcatAssoc(MergeBy(before, item), if j < i then [item(run)] else [], if xs[i] != "" then [xs[i]] else []);
  }

  /** The state of the merge loop after `i` lines of `xs`: `merged` holds
      the items of `xs[..j]`, and `buf` the debulleted run `xs[j..i]`, which
      started right after a line that is not short-or-bulleted. */
  ghost predicate MergeInv(xs: seq<string>, i: nat, j: nat, merged: seq<string>, buf: seq<string>) {
    && j <= i <= |xs|
    && (j == 0 || !ShortOrBullet(xs[j - 1]))
    && merged == Merge(xs[..j])
    && (forall k :: j <= k < i ==> ShortOrBullet(xs[k]))
    && buf == DebulletAll(xs[j..i])
  }

  lemma {:induction false} PushStep(xs: seq<string>, i: nat, j: nat, merged: seq<string>, buf: seq<string>)
    requires MergeInv(xs, i, j, merged, buf) && i < |xs| && ShortOrBullet(xs[i])
    ensures MergeInv(xs, i + 1, j, merged, buf + [Debullet(xs[i])])
  {
    assert xs[j..i + 1] == xs[j..i] + [xs[i]];
  }

  lemma {:induction false} FlushInv(xs: seq<string>, i: nat, j: nat, merged: seq<string>, buf: seq<string>)
    requires MergeInv(xs, i, j, merged, buf) && i < |xs| && !ShortOrBullet(xs[i])
    ensures MergeInv(xs, i + 1, i + 1,
                     merged + (if buf != [] then [Join(buf, " \U{2022} ")] else [])
                            + (if xs[i] != "" then [xs[i]] else []),
                     [])
  {
    FlushStep(xs, j, i, RunItem);
  }

  /** The merge loop of `_chunk_pdf` over `raw + [""]`: short-or-bulleted
      lines go, debulleted, into `buf`; any other line first flushes `buf`
      as one " • "-joined item and is then kept if it is not empty. */
  method MergeLines(raw: seq<string>) returns (merged: seq<string>)
    ensures merged == Merge(raw)
  {
    var xs := raw + [""];
    merged := [];
    var buf: seq<string> := [];
    ghost var j := 0;
    for i := 0 to |xs|
      invariant MergeInv(xs, i, j, merged, buf)
    {
      var ln := xs[i];
      if ShortOrBullet(ln) {
        PushStep(xs, i, j, merged, buf);
        buf := buf + [Debullet(ln)];
      } else {
        FlushInv(xs, i, j, merged, buf);
        merged := Flush(merged, buf, ln);
        buf := [];
        j := i + 1;
      }
    }
    MergeDone(raw, merged, buf, j);
  }

  /** The `else` arm of the merge loop: a waiting run goes out as one
      " \U{2022} "-joined item, then the line itself if it is not empty. */
  method Flush(merged: seq<string>, buf: seq<string>, ln: string) returns (out: seq<string>)
    ensures out == merged + (if buf != [] then [Join(buf, " \U{2022} ")] else [])
                          + (if ln != "" then [ln] else [])
  {
    out := merged;
    if buf != [] {
      out := out + [Join(buf, " \U{2022} ")];
    }
    if ln != "" {
      out := out + [ln];
    }
  }

  /** When the loop has run over `raw + [""]`, the closing `""` has flushed
      the last run and `merged` holds the items of `raw`. */
  lemma {:induction false} MergeDone(raw: seq<string>, merged: seq<string>, buf: seq<string>, j: nat)
    requires MergeInv(raw + [""], |raw| + 1, j, merged, buf)
    ensures merged == Merge(raw)
  {
    var xs := raw + [""];
    assert xs[|xs| - 1] == "";
    assert xs[..|xs|] == xs;
    MergeSentinel(raw, RunItem);
  }

  // ---------------------------------------------------------------------
  // what merged items look like
  // ---------------------------------------------------------------------

  predicate NoNewline(s: string) {
    forall k :: 0 <= k < |s| ==> s[k] != '\n'
  }

  /** What `strip()` leaves: no whitespace at either end. */
  predicate IsStripped(t: string) {
    t == [] || (!IsSpace(t[0]) && !IsSpace(t[|t| - 1]))
  }

  lemma {:induction false} JoinNoNewline(parts: seq<string>, sep: string)
    requires NoNewline(sep) && forall k :: 0 <= k < |parts| ==> NoNewline(parts[k])
    ensures NoNewline(Join(parts, sep))
    decreases |parts|
  {
    if |parts| > 1 {
      JoinNoNewline(parts[1..], sep);
    }
  }

  lemma {:induction false} JoinNonEmpty(parts: seq<string>, sep: string)
    requires parts != [] && parts[0] != []
    ensures Join(parts, sep) != []
  {
  }

  /** A line without a line break keeps none through debulleting. */
  lemma {:induction false} DebulletNoNewline(ln: string)
    requires NoNewline(ln)
    ensures NoNewline(Debullet(ln))
  {
    if ln != [] && IsBullet(ln[0]) {
      var t := ln[1..];
      assert Debullet(ln) == t[LeftCut(t, IsSpace)..];
    }
  }

  /** A stripped line debullets to "" exactly when it is one bare bullet glyph. */
  lemma {:induction false} BareGlyph(ln: string)
    requires IsStripped(ln) && ln != [] && IsBullet(ln[0])
    ensures Debullet(ln) == [] <==> |ln| == 1
  {
    var t := ln[1..];
    var i := LeftCut(t, IsSpace);
    assert Debullet(ln) == t[i..];
    assert |ln| > 1 ==> t[|t| - 1] == ln[|ln| - 1] && !IsSpace(t[|t| - 1]);
  }

  predicate AllNoNewline(lines: seq<string>) {
    forall k :: 0 <= k < |lines| ==> NoNewline(lines[k])
  }

  /** A run of lines without line breaks becomes an item without one. */
  lemma {:induction false} RunItemNoNewline(run: seq<string>)
    requires AllNoNewline(run)
    ensures NoNewline(RunItem(run))
  {
    var parts := DebulletAll(run);
    forall k | 0 <= k < |parts| ensures NoNewline(parts[k]) {
      DebulletNoNewline(run[k]);
    }
    JoinNoNewline(parts, " \U{2022} ");
  }

  /** A run whose first line keeps some text once debulleted becomes a
      non-empty item. */
  lemma {:induction false} RunItemNonEmpty(run: seq<string>)
    requires run != [] && Debullet(run[0]) != []
    ensures RunItem(run) != []
  {
    var parts := DebulletAll(run);
    assert parts[0] == Debullet(run[0]);
    JoinNonEmpty(parts, " \U{2022} ");
  }

  lemma {:induction false} NoNewlineCons(x: string, rest: seq<string>)
    requires NoNewline(x) && AllNoNewline(rest)
    ensures AllNoNewline([x] + rest)
  {
    forall m | 0 <= m < |[x] + rest| ensures NoNewline(([x] + rest)[m]) {
      if m > 0 {
        assert ([x] + rest)[m] == rest[m - 1];
      }
    }
  }

  lemma {:induction false} MergedByNoNewline(lines: seq<string>, item: seq<string> -> string)
    requires AllNoNewline(lines)
    requires forall run :: AllNoNewline(run) ==> NoNewline(item(run))
    ensures AllNoNewline(MergeBy(lines, item))
    decreases |lines|
  {
    if lines != [] {
      var n := if ShortOrBullet(lines[0]) then RunLength(lines) else 1;
      var tail := lines[n..];
      assert AllNoNewline(tail) by {
        forall k | 0 <= k < |tail| ensures NoNewline(tail[k]) {
          assert tail[k] == lines[n + k];
        }
      }
      MergedByNoNewline(tail, item);
      if ShortOrBullet(lines[0]) {
        MergeOpensWithRun(lines, item);
        var run := lines[..n];
        assert AllNoNewline(run) by {
          forall k | 0 <= k < |run| ensures NoNewline(run[k]) {
            assert run[k] == lines[k];
          }
        }
        NoNewlineCons(item(run), MergeBy(tail, item));
      } else if lines[0] != "" {
        NoNewlineCons(lines[0], MergeBy(tail, item));
      }
    }
  }

  /** Merged items carry no line break when the lines carry none. */
  lemma {:induction false} MergedNoNewline(lines: seq<string>)
    requires AllNoNewline(lines)
    ensures AllNoNewline(Merge(lines))
  {
    forall run | AllNoNewline(run) ensures NoNewline(RunItem(run)) {
      RunItemNoNewline(run);
    }
    MergedByNoNewline(lines, RunItem);
  }

  /** A line that is not short-or-bulleted, or keeps some text once
      debulleted. */
  predicate KeepsText(ln: string) {
    ShortOrBullet(ln) ==> Debullet(ln) != []
  }

  /** No short-or-bulleted line debullets to "". */
  predicate NoBareGlyph(lines: seq<string>) {
    forall k :: 0 <= k < |lines| ==> KeepsText(lines[k])
  }

  predicate NoEmptyItem(items: seq<string>) {
    forall m :: 0 <= m < |items| ==> items[m] != []
  }

  lemma {:induction false} NonEmptyCons(x: string, rest: seq<string>)
    requires x != [] && NoEmptyItem(rest)
    ensures NoEmptyItem([x] + rest)
  {
    forall m | 0 <= m < |[x] + rest| ensures ([x] + rest)[m] != [] {
      if m > 0 {
        assert ([x] + rest)[m] == rest[m - 1];
      }
    }
  }

  lemma {:induction false} MergedByNonEmpty(lines: seq<string>, item: seq<string> -> string)
    requires NoBareGlyph(lines)
    requires forall run :: run != [] && Debullet(run[0]) != [] ==> item(run) != []
    ensures NoEmptyItem(MergeBy(lines, item))
    decreases |lines|
  {
    if lines != [] {
      var n := if ShortOrBullet(lines[0]) then RunLength(lines) else 1;
      var tail := lines[n..];
      assert NoBareGlyph(tail) by {
        forall k | 0 <= k < |tail| ensures KeepsText(tail[k]) {
          assert tail[k] == lines[n + k];
        }
      }
      MergedByNonEmpty(tail, item);
      if ShortOrBullet(lines[0]) {
        MergeOpensWithRun(lines, item);
        var run := lines[..n];
        assert run[0] == lines[0] && KeepsText(lines[0]);
        NonEmptyCons(item(run), MergeBy(tail, item));
      } else if lines[0] != "" {
        NonEmptyCons(lines[0], MergeBy(tail, item));
      }
    }
  }

  /** Merged items are never empty when no short-or-bulleted line
      debullets to "". */
  lemma {:induction false} MergedNonEmpty(lines: seq<string>)
    requires NoBareGlyph(lines)
    ensures NoEmptyItem(Merge(lines))
  {
    forall run | run != [] && Debullet(run[0]) != [] ensures RunItem(run) != [] {
      RunItemNonEmpty(run);
    }
    MergedByNonEmpty(lines, RunItem);
  }

  // ---------------------------------------------------------------------
  // paragraphs
  // ---------------------------------------------------------------------

  /** Two line breaks in a row start at position `k` of `s`. */
  predicate BreakAt(s: string, k: int) {
    0 <= k && k + 1 < |s| && s[k] == '\n' && s[k + 1] == '\n'
  }

  /** No blank line, that is no two line breaks in a row. */
  predicate NoBlankLine(s: string) {
    forall k :: 0 <= k < |s| - 1 ==> !BreakAt(s, k)
  }

  /** The first position, from `i` on, where two line breaks start; `|s|` if
      there is none. */
  function BreakFrom(s: string, i: nat): (k: nat)
    requires i <= |s|
    ensures i <= k <= |s|
    ensures k < |s| ==> BreakAt(s, k)
    ensures forall m :: i <= m < k ==> !BreakAt(s, m)
    decreases |s| - i
  {
    if i == |s| then |s|
    else if BreakAt(s, i) then i
    else BreakFrom(s, i + 1)
  }

  /** The end of the run of line breaks that starts at `i`. */
  function NewlinesEnd(s: string, i: nat): (e: nat)
    requires i <= |s|
    ensures i <= e <= |s|
    ensures forall m :: i <= m < e ==> s[m] == '\n'
    ensures e == |s| || s[e] != '\n'
    decreases |s| - i
  {
    if i < |s| && s[i] == '\n' then NewlinesEnd(s, i + 1) else i
  }

  /** `re.split(r"\n{2,}", s)`: cut at every maximal run of two or more
      line breaks, leftmost first. */
  function SplitParas(s: string): (ps: seq<string>)
    ensures ps != []
    ensures forall j :: 0 <= j < |ps| ==> NoBlankLine(ps[j])
    decreases |s|
  {
    var k := BreakFrom(s, 0);
    if k == |s| then [s]
    else
      var e := NewlinesEnd(s, k);
      assert e >= k + 2 by {
        assert s[k] == '\n' && s[k + 1] == '\n';
      }
      assert NoBlankLine(s[..k]) by {
        forall m | 0 <= m < k - 1 ensures !BreakAt(s[..k], m) {
          assert !BreakAt(s, m);
        }
      }
      [s[..k]] + SplitParas(s[e..])
  }

  /** Text without a blank line is one paragraph. */
  lemma {:induction false} SplitParasWhole(s: string)
    requires NoBlankLine(s)
    ensures SplitParas(s) == [s]
  {
    assert BreakFrom(s, 0) == |s|;
  }

  /** `"\n".join(merged)` of non-empty items without line breaks has no
      blank line, and neither starts nor ends with a line break. */
  lemma {:induction false} JoinLinesShape(items: seq<string>)
    requires forall m :: 0 <= m < |items| ==> items[m] != [] && NoNewline(items[m])
    ensures NoBlankLine(Join(items, "\n"))
    ensures items != [] ==> Join(items, "\n") != [] && Join(items, "\n")[0] != '\n'
    decreases |items|
  {
    if |items| > 1 {
      var a := items[0];
      JoinLinesShape(items[1..]);
      var r := Join(items[1..], "\n");
      var j := Join(items, "\n");
      assert j == a + "\n" + r;
      forall k | 0 <= k < |j| - 1 ensures !BreakAt(j, k) {
        if k < |a| {
          assert j[k] == a[k];
        } else if k == |a| {
          assert j[k + 1] == r[0];
        } else {
          assert j[k] == r[k - |a| - 1] && j[k + 1] == r[k - |a|];
          assert !BreakAt(r, k - |a| - 1);
        }
      }
    }
  }

  /** The ≥30-character paragraphs, each stripped: the generator's filter. */
  function KeepLong(paras: seq<string>): (ts: seq<string>)
    ensures |ts| <= |paras|
    ensures forall t :: 0 <= t < |ts| ==> |ts[t]| >= 30 && IsStripped(ts[t])
  {
    if paras == [] then []
    else
      var clean := Strip(paras[|paras| - 1]);
      KeepLong(paras[..|paras| - 1]) + (if |clean| >= 30 then [clean] else [])
  }

  function StripAll(lines: seq<string>): (r: seq<string>)
    ensures |r| == |lines| && forall k :: 0 <= k < |r| ==> r[k] == Strip(lines[k])
  {
    seq(|lines|, k requires 0 <= k < |lines| => Strip(lines[k]))
  }

  /** The chunk texts one page yields. */
  function PageTexts(lines: seq<string>): (ts: seq<string>)
  {
    KeepLong(SplitParas(Join(Merge(StripAll(lines)), "\n")))
  }

  /** A stripped line without line breaks stays without them. */
  lemma {:induction false} StripNoNewline(s: string)
    requires NoNewline(s)
    ensures NoNewline(Strip(s))
  {
    var i, j := StripBySlice(s, IsSpace);
  }

  /** When no merged item is empty, the newline-join of the items has no
      blank line, so the page is one paragraph and yields at most one chunk:
      its merged text, stripped, if that has at least 30 characters. */
  lemma {:induction false} AtMostOneChunk(lines: seq<string>)
    requires forall k :: 0 <= k < |lines| ==> NoNewline(lines[k])
    requires NoEmptyItem(Merge(StripAll(lines)))
    ensures var whole := Strip(Join(Merge(StripAll(lines)), "\n"));
      PageTexts(lines) == (if |whole| >= 30 then [whole] else [])
  {
    var raw := StripAll(lines);
    forall k | 0 <= k < |raw| ensures NoNewline(raw[k]) {
      StripNoNewline(lines[k]);
    }
    MergedNoNewline(raw);
    var merged := Merge(raw);
    JoinLinesShape(merged);
    SplitParasWhole(Join(merged, "\n"));
    assert [Join(merged, "\n")][..0] == [];
  }

  /** A page none of whose lines strips to a single bullet glyph has no
      empty merged item, so it yields at most one chunk. */
  lemma {:induction false} NoBareGlyphOneChunk(lines: seq<string>)
    requires forall k :: 0 <= k < |lines| ==> NoNewline(lines[k])
    requires forall k :: 0 <= k < |lines| ==> !(|Strip(lines[k])| == 1 && IsBullet(Strip(lines[k])[0]))
    ensures var whole := Strip(Join(Merge(StripAll(lines)), "\n"));
      PageTexts(lines) == (if |whole| >= 30 then [whole] else [])
  {
    var raw := StripAll(lines);
    forall k | 0 <= k < |raw| ensures KeepsText(raw[k]) {
      if ShortOrBullet(raw[k]) && IsBullet(raw[k][0]) {
        BareGlyph(raw[k]);
      }
    }
    MergedNonEmpty(raw);
    AtMostOneChunk(lines);
  }

  /** A run of two or more lines always becomes a non-empty item: the
      `" • "` between its parts stays. */
  lemma {:induction false} LongRunNonEmpty(run: seq<string>)
    requires |run| >= 2
    ensures RunItem(run) != []
  {
    var parts := DebulletAll(run);
    assert |Join(parts, " \U{2022} ")| >= |parts[0] + " \U{2022} "|;
  }

  /** The converse of `EmptyItemNeedsBareGlyph`: a bare bullet glyph that is
      a run by itself, between lines that are not short or bulleted (or the
      ends of the page), becomes an empty item. */
  lemma {:induction false} BareGlyphItem(a: seq<string>, g: string, b: seq<string>)
    requires a == [] || !ShortOrBullet(a[|a| - 1])
    requires |g| == 1 && IsBullet(g[0])
    requires b == [] || !ShortOrBullet(b[0])
    ensures Merge(a + [g] + b) == Merge(a) + [""] + Merge(b)
  {
    var s := [g] + b;
    assert a + [g] + b == a + s;
    MergeAfterBoundary(a, s, RunItem);
    assert RunLength(s) == 1 by {
      if b == [] {
        assert s[1..] == [];
      } else {
        RunLengthAll(s, 1);
      }
    }
    MergeOpensWithRun(s, RunItem);
    assert s[..1] == [g] && s[1..] == b;
    assert Debullet(g) == [] by {
      assert g[1..] == [];
    }
    assert RunItem([g]) == "";
    ConcatAssoc(Merge(a), [""], Merge(b));
  }

  /** A merged item is empty only when a line is one bare bullet glyph. */
  lemma {:induction false} EmptyItemNeedsBareGlyph(lines: seq<string>, m: nat)
    requires m < |Merge(StripAll(lines))| && Merge(StripAll(lines))[m] == []
    ensures exists k :: 0 <= k < |lines| && |Strip(lines[k])| == 1 && IsBullet(Strip(lines[k])[0])
  {
    var raw := StripAll(lines);
    if NoBareGlyph(raw) {
      MergedNonEmpty(raw);
      assert false;
    }
    var k :| 0 <= k < |raw| && !KeepsText(raw[k]);
    var ln := raw[k];
    assert ln == Strip(lines[k]);
    assert ShortOrBullet(ln) && Debullet(ln) == [];
    assert ln != [] && IsBullet(ln[0]);
    BareGlyph(ln);
  }

  // ---------------------------------------------------------------------
  // chunks of one PDF
  // ---------------------------------------------------------------------

  /** A PDF as the chunker sees it: its file name, its TOC and, per page,
      the lines of its text. */
  datatype Pdf = Pdf(name: string, toc: seq<TocEntry>, pages: seq<seq<string>>)

  /** `{"page": p + 1, "chapter": page_map[p], "source_pdf": pdf_path.name}` */
  datatype Meta = Meta(page: nat, chapter: string, sourcePdf: string)

  datatype Chunk = Chunk(id: string, text: string, meta: Meta)

  /** The chunks of one page's texts, numbered on from `start`. */
  function MakeChunks(texts: seq<string>, meta: Meta, start: nat, newId: nat -> string): (cs: seq<Chunk>)
    ensures |cs| == |texts|
    ensures forall j :: 0 <= j < |cs| ==> cs[j] == Chunk(newId(start + j), texts[j], meta)
  {
    seq(|texts|, j requires 0 <= j < |texts| => Chunk(newId(start + j), texts[j], meta))
  }

  lemma {:induction false} MakeChunksAppend(texts: seq<string>, t: string, meta: Meta, start: nat, newId: nat -> string)
    ensures MakeChunks(texts + [t], meta, start, newId)
      == MakeChunks(texts, meta, start, newId) + [Chunk(newId(start + |texts|), t, meta)]
  {
  }

  /** The chunk texts of every page, in page order. */
  function PagesTexts(pages: seq<seq<string>>): (ts: seq<seq<string>>)
    ensures |ts| == |pages| && forall p :: 0 <= p < |pages| ==> ts[p] == PageTexts(pages[p])
  {
    seq(|pages|, p requires 0 <= p < |pages| => PageTexts(pages[p]))
  }

  /** The chunk texts of every page of `pdf`. */
  function PdfTexts(pdf: Pdf): seq<seq<string>> {
    PagesTexts(pdf.pages)
  }

  /** The chunks of the first `n` pages, given the chunk texts of every page,
      the first one numbered `start`. */
  function ChunksUpTo(texts: seq<seq<string>>, toc: seq<TocEntry>, name: string, n: nat, start: nat,
                      newId: nat -> string): (cs: seq<Chunk>)
    requires n <= |texts|
  {
    if n == 0 then []
    else
      var prev := ChunksUpTo(texts, toc, name, n - 1, start, newId);
      prev + MakeChunks(texts[n - 1], Meta(n, Chapter(toc, n - 1), name), start + |prev|, newId)
  }

  /** The chunks of `pdf`, the first one numbered `start`. */
  function PdfChunks(pdf: Pdf, start: nat, newId: nat -> string): seq<Chunk> {
    ChunksUpTo(PdfTexts(pdf), pdf.toc, pdf.name, |pdf.pages|, start, newId)
  }

  /** Every page text is a stripped paragraph of at least 30 characters. */
  ghost predicate LongTexts(texts: seq<seq<string>>) {
    forall p, t :: 0 <= p < |texts| && 0 <= t < |texts[p]| ==> |texts[p][t]| >= 30 && IsStripped(texts[p][t])
  }

  /** What every chunk of the first `n` pages carries: a page among them,
      that page's chapter, the file name and a long stripped text. */
  ghost predicate WellFormedChunk(n: nat, toc: seq<TocEntry>, name: string, c: Chunk) {
    && 1 <= c.meta.page <= n
    && c.meta.chapter == Chapter(toc, c.meta.page - 1)
    && c.meta.sourcePdf == name
    && |c.text| >= 30 && IsStripped(c.text)
  }

  /** The chunks in `cs` are numbered from `start` on. */
  ghost predicate IdsFrom(cs: seq<Chunk>, start: nat, newId: nat -> string) {
    forall k :: 0 <= k < |cs| ==> cs[k].id == newId(start + k)
  }

  /** Every chunk of `cs` is well formed for the first `n` pages. */
  ghost predicate AllWellFormed(cs: seq<Chunk>, n: nat, toc: seq<TocEntry>, name: string) {
    forall k :: 0 <= k < |cs| ==> WellFormedChunk(n, toc, name, cs[k])
  }

  /** The chunks of `cs` come in page order. */
  ghost predicate PageOrdered(cs: seq<Chunk>) {
    forall k, l :: 0 <= k < l < |cs| ==> cs[k].meta.page <= cs[l].meta.page
  }

  /** Each chunk carries a page among the first `n`, that page's chapter, the
      file name and a stripped text of at least 30 characters. */
  lemma {:induction false} ChunksUpToMeta(texts: seq<seq<string>>, toc: seq<TocEntry>, name: string, n: nat,
                                          start: nat, newId: nat -> string)
    requires n <= |texts| && LongTexts(texts)
    ensures AllWellFormed(ChunksUpTo(texts, toc, name, n, start, newId), n, toc, name)
  {
    if n > 0 {
      var prev := ChunksUpTo(texts, toc, name, n - 1, start, newId);
      ChunksUpToMeta(texts, toc, name, n - 1, start, newId);
      var here := MakeChunks(texts[n - 1], Meta(n, Chapter(toc, n - 1), name), start + |prev|, newId);
      var cs := prev + here;
      assert cs == ChunksUpTo(texts, toc, name, n, start, newId);
      forall k | 0 <= k < |cs| ensures WellFormedChunk(n, toc, name, cs[k]) {
        if k < |prev| {
          assert cs[k] == prev[k];
          assert WellFormedChunk(n - 1, toc, name, prev[k]);
        } else {
          assert cs[k] == here[k - |prev|] && here[k - |prev|].text == texts[n - 1][k - |prev|];
        }
      }
    }
  }

  /** The `k`-th chunk has the id of position `start + k`. */
  lemma {:induction false} ChunksUpToIds(texts: seq<seq<string>>, toc: seq<TocEntry>, name: string, n: nat,
                                         start: nat, newId: nat -> string)
    requires n <= |texts|
    ensures IdsFrom(ChunksUpTo(texts, toc, name, n, start, newId), start, newId)
  {
    if n > 0 {
      var prev := ChunksUpTo(texts, toc, name, n - 1, start, newId);
      ChunksUpToIds(texts, toc, name, n - 1, start, newId);
      var here := MakeChunks(texts[n - 1], Meta(n, Chapter(toc, n - 1), name), start + |prev|, newId);
      var cs := prev + here;
      assert cs == ChunksUpTo(texts, toc, name, n, start, newId);
      forall k | 0 <= k < |cs| ensures cs[k].id == newId(start + k) {
        if k < |prev| {
          assert cs[k] == prev[k];
        } else {
          assert cs[k] == here[k - |prev|];
          assert here[k - |prev|].id == newId(start + |prev| + (k - |prev|));
        }
      }
    }
  }

  /** Chunks of one more page, all on page `n`, keep the page order. */
  lemma {:induction false} OrderedAppend(prev: seq<Chunk>, here: seq<Chunk>, n: nat)
    requires PageOrdered(prev) && forall k :: 0 <= k < |prev| ==> prev[k].meta.page < n
    requires forall k :: 0 <= k < |here| ==> here[k].meta.page == n
    ensures var cs := prev + here;
      PageOrdered(cs) && forall k :: 0 <= k < |cs| ==> cs[k].meta.page <= n
  {
    var cs := prev + here;
    forall k | 0 <= k < |cs| ensures cs[k].meta.page <= n {
      if k < |prev| {
        assert cs[k] == prev[k];
      } else {
        assert cs[k] == here[k - |prev|];
      }
    }
    forall k, l | 0 <= k < l < |cs| ensures cs[k].meta.page <= cs[l].meta.page {
      if l < |prev| {
        assert cs[k] == prev[k] && cs[l] == prev[l];
      } else if k < |prev| {
        assert cs[k] == prev[k] && cs[l] == here[l - |prev|];
      } else {
        assert cs[k] == here[k - |prev|] && cs[l] == here[l - |prev|];
      }
    }
  }

  /** Chunks come in page order, and all sit on the first `n` pages. */
  lemma {:induction false} ChunksUpToOrder(texts: seq<seq<string>>, toc: seq<TocEntry>, name: string, n: nat,
                                           start: nat, newId: nat -> string)
    requires n <= |texts|
    ensures var cs := ChunksUpTo(texts, toc, name, n, start, newId);
      PageOrdered(cs) && forall k :: 0 <= k < |cs| ==> cs[k].meta.page <= n
  {
    if n > 0 {
      var prev := ChunksUpTo(texts, toc, name, n - 1, start, newId);
      ChunksUpToOrder(texts, toc, name, n - 1, start, newId);
      var here := MakeChunks(texts[n - 1], Meta(n, Chapter(toc, n - 1), name), start + |prev|, newId);
      OrderedAppend(prev, here, n);
    }
  }

  /** Everything `_chunk_pdf` yields for one PDF: in page order, with page,
      chapter, file name, a stripped text of at least 30 characters and the
      id of its position. */
  lemma {:induction false} PdfChunksFacts(pdf: Pdf, start: nat, newId: nat -> string)
    ensures var cs := PdfChunks(pdf, start, newId);
      && (forall k :: 0 <= k < |cs| ==>
            WellFormedChunk(|pdf.pages|, pdf.toc, pdf.name, cs[k]) && cs[k].id == newId(start + k))
      && (forall k, l :: 0 <= k < l < |cs| ==> cs[k].meta.page <= cs[l].meta.page)
  {
    var texts := PdfTexts(pdf);
    assert LongTexts(texts);
    ChunksUpToMeta(texts, pdf.toc, pdf.name, |pdf.pages|, start, newId);
    ChunksUpToIds(texts, pdf.toc, pdf.name, |pdf.pages|, start, newId);
    ChunksUpToOrder(texts, pdf.toc, pdf.name, |pdf.pages|, start, newId);
    var cs := PdfChunks(pdf, start, newId);
    assert AllWellFormed(cs, |pdf.pages|, pdf.toc, pdf.name);
    assert IdsFrom(cs, start, newId);
    assert PageOrdered(cs);
  }

  /** The chunks of fewer pages are a prefix of those of more pages. */
  lemma {:induction false} ChunksUpToPrefix(texts: seq<seq<string>>, toc: seq<TocEntry>, name: string, m: nat,
                                            n: nat, start: nat, newId: nat -> string)
    requires m <= n <= |texts|
    ensures var short := ChunksUpTo(texts, toc, name, m, start, newId);
      var long := ChunksUpTo(texts, toc, name, n, start, newId);
      |short| <= |long| && long[..|short|] == short
    decreases n
  {
    if m < n {
      ChunksUpToPrefix(texts, toc, name, m, n - 1, start, newId);
      var short := ChunksUpTo(texts, toc, name, m, start, newId);
      var prev := ChunksUpTo(texts, toc, name, n - 1, start, newId);
      var here := MakeChunks(texts[n - 1], Meta(n, Chapter(toc, n - 1), name), start + |prev|, newId);
      assert ChunksUpTo(texts, toc, name, n, start, newId) == prev + here;
      assert (prev + here)[..|short|] == prev[..|short|];
    } else {
      var long := ChunksUpTo(texts, toc, name, n, start, newId);
      assert long[..|long|] == long;
    }
  }

  /** The chunks of page `p` sit together, in the order of that page's
      texts, right after the chunks of the pages before it. */
  lemma {:induction false} ChunksOfPage(texts: seq<seq<string>>, toc: seq<TocEntry>, name: string, p: nat, n: nat,
                     start: nat, newId: nat -> string)
    requires p < n <= |texts|
    ensures var before := |ChunksUpTo(texts, toc, name, p, start, newId)|;
      var cs := ChunksUpTo(texts, toc, name, n, start, newId);
      && before + |texts[p]| <= |cs|
      && cs[before..before + |texts[p]|]
         == MakeChunks(texts[p], Meta(p + 1, Chapter(toc, p), name), start + before, newId)
  {
    var prev := ChunksUpTo(texts, toc, name, p, start, newId);
    var here := MakeChunks(texts[p], Meta(p + 1, Chapter(toc, p), name), start + |prev|, newId);
    var upTo := ChunksUpTo(texts, toc, name, p + 1, start, newId);
    assert upTo == prev + here;
    ChunksUpToPrefix(texts, toc, name, p + 1, n, start, newId);
    var cs := ChunksUpTo(texts, toc, name, n, start, newId);
    assert cs[..|upTo|] == upTo;
    assert cs[|prev|..|prev| + |texts[p]|] == upTo[|prev|..] by {
      assert cs[|prev|..|prev| + |texts[p]|] == cs[..|upTo|][|prev|..];
    }
    assert upTo[|prev|..] == here;
  }

  /** Inside the paragraph loop of a page: the chunks so far are the kept
      paragraphs among the first `j`. */
  ghost predicate ParaInv(cs: seq<Chunk>, paras: seq<string>, j: nat, meta: Meta, start: nat,
                          newId: nat -> string) {
    && j <= |paras|
    && cs == MakeChunks(KeepLong(paras[..j]), meta, start, newId)
  }

  /** One paragraph of the loop: it yields a chunk exactly when it is kept. */
  lemma {:induction false} ParaStep(cs: seq<Chunk>, paras: seq<string>, j: nat, meta: Meta, start: nat, newId: nat -> string)
    requires ParaInv(cs, paras, j, meta, start, newId) && j < |paras|
    ensures |Strip(paras[j])| >= 30 ==>
      ParaInv(cs + [Chunk(newId(start + |cs|), Strip(paras[j]), meta)], paras, j + 1, meta, start, newId)
    ensures |Strip(paras[j])| < 30 ==> ParaInv(cs, paras, j + 1, meta, start, newId)
  {
    var kept := KeepLong(paras[..j]);
    assert paras[..j + 1][..j] == paras[..j];
    assert KeepLong(paras[..j + 1]) == kept + (if |Strip(paras[j])| >= 30 then [Strip(paras[j])] else []);
    MakeChunksAppend(kept, Strip(paras[j]), meta, start, newId);
  }

  /** The paragraph loop of `_chunk_pdf` for one page: every paragraph that
      strips to at least 30 characters becomes a chunk, numbered on from
      `start`. */
  method KeepChunks(paras: seq<string>, meta: Meta, start: nat, newId: nat -> string) returns (cs: seq<Chunk>)
    ensures cs == MakeChunks(KeepLong(paras), meta, start, newId)
  {
    cs := [];
    for j := 0 to |paras|
      invariant ParaInv(cs, paras, j, meta, start, newId)
    {
      var clean := Strip(paras[j]);
      ParaStep(cs, paras, j, meta, start, newId);
      if |clean| >= 30 {
        cs := cs + [Chunk(newId(start + |cs|), clean, meta)];
      }
    }
    assert paras[..|paras|] == paras;
  }

  /** One page of `_chunk_pdf`: the chunks of the first `p` pages, followed
      by those of page `p`, are the chunks of the first `p + 1` pages. */
  lemma {:induction false} PageStep(texts: seq<seq<string>>, toc: seq<TocEntry>, name: string, p: nat, start: nat,
                 newId: nat -> string, chunks: seq<Chunk>, here: seq<Chunk>)
    requires p < |texts| && chunks == ChunksUpTo(texts, toc, name, p, start, newId)
    requires here == MakeChunks(texts[p], Meta(p + 1, Chapter(toc, p), name), start + |chunks|, newId)
    ensures chunks + here == ChunksUpTo(texts, toc, name, p + 1, start, newId)
  {
  }

  /** The merge, the paragraph split and the length filter of page `p`. */
  method PageChunks(pdf: Pdf, p: nat, chapter: string, start: nat, newId: nat -> string) returns (here: seq<Chunk>)
    requires p < |pdf.pages| && chapter == Chapter(pdf.toc, p)
    ensures here == MakeChunks(PdfTexts(pdf)[p], Meta(p + 1, Chapter(pdf.toc, p), pdf.name), start, newId)
  {
    var raw := StripAll(pdf.pages[p]);
    var merged := MergeLines(raw);
    var paras := SplitParas(Join(merged, "\n"));
    here := KeepChunks(paras, Meta(p + 1, chapter, pdf.name), start, newId);
  }

  /** `_chunk_pdf(pdf_path)`: the page map first, then page by page the
      merge, the paragraph split and the length filter; the `k`-th chunk
      gets id `newId(start + k)`. */
  method ChunkPdf(pdf: Pdf, start: nat, newId: nat -> string) returns (chunks: seq<Chunk>)
    ensures chunks == PdfChunks(pdf, start, newId)
  {
    var pageMap := PageChapters(pdf.toc, |pdf.pages|);
    chunks := [];
    for p := 0 to |pdf.pages|
      invariant chunks == ChunksUpTo(PdfTexts(pdf), pdf.toc, pdf.name, p, start, newId)
    {
      var here := PageChunks(pdf, p, pageMap[p], start + |chunks|, newId);
      PageStep(PdfTexts(pdf), pdf.toc, pdf.name, p, start, newId, chunks, here);
      chunks := chunks + here;
    }
  }
}
