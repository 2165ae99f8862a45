/**
 * Transcript processing (modules/session_processor.py): token-budgeted
 * chunking of a transcript, the mapping of each chunk's extracted items to
 * world-state records, the numbered recap prompt and the summary file name.
 * The tokenizer, the extraction model and the narrating model are
 * parameters: `tok` counts the tokens of a string, `analyze` stands for the
 * structured-extraction call on one chunk, `narrate` for the recap call.
 */
module Session {
  import opened Wrappers
  import opened PyStr
  import opened Slugs
  import opened Records

  // ---------------------------------------------------------------------
  // _split_by_tokens
  // ---------------------------------------------------------------------

  /** The groups laid end to end. */
  function Flatten(groups: seq<seq<string>>): seq<string> {
    if groups == [] then [] else groups[0] + Flatten(groups[1..])
  }

  lemma {:induction false} FlattenAppend(groups: seq<seq<string>>, g: seq<string>)
    ensures Flatten(groups + [g]) == Flatten(groups) + g
  {
    if groups == [] {
      assert [] + [g] == [g];
      assert [g][1..] == [];
    } else {
      assert (groups + [g])[1..] == groups[1..] + [g];
      FlattenAppend(groups[1..], g);
    }
  }

  /** The words of each chunk, as `split()` gives them. */
  function ChunkWords(chunks: seq<string>): seq<seq<string>> {
    seq(|chunks|, i requires 0 <= i < |chunks| => Words(chunks[i]))
  }

  /** What the greedy loop leaves behind, stated group by group: the groups
      tile the word list in order; none is empty; every proper non-empty
      prefix of a group was within budget when it sat in the buffer; and every
      group except the last went over budget with its final word, which is
      what flushed it. The last group is either such a flushed group or the
      leftover buffer, whose whole text is then within budget. */
  ghost predicate IsGreedySplit(words: seq<string>, groups: seq<seq<string>>, maxTok: int, tok: string -> nat) {
    && Flatten(groups) == words
    && (forall g :: 0 <= g < |groups| ==> groups[g] != [])
    && (forall g, j :: 0 <= g < |groups| && 0 < j < |groups[g]| ==> tok(Join(groups[g][..j], " ")) <= maxTok)
    && (forall g :: 0 <= g < |groups| - 1 ==> tok(Join(groups[g], " ")) > maxTok)
  }

  /** Each group, joined by single spaces. */
  function JoinEach(groups: seq<seq<string>>): seq<string> {
    seq(|groups|, g requires 0 <= g < |groups| => Join(groups[g], " "))
  }

  predicate AllWords(ws: seq<string>) {
    forall k :: 0 <= k < |ws| ==> IsWord(ws[k])
  }

  /** Every non-empty prefix of the buffer was within budget. */
  ghost predicate PrefixesWithin(buf: seq<string>, maxTok: int, tok: string -> nat) {
    forall j :: 0 < j <= |buf| ==> tok(Join(buf[..j], " ")) <= maxTok
  }

  /** The groups flushed inside the loop: words only, non-empty, over budget
      as a whole, within budget on every proper prefix. */
  ghost predicate Flushed(groups: seq<seq<string>>, maxTok: int, tok: string -> nat) {
    forall g :: 0 <= g < |groups| ==>
      && groups[g] != [] && AllWords(groups[g])
      && tok(Join(groups[g], " ")) > maxTok
      && PrefixesWithin(groups[g][..|groups[g]| - 1], maxTok, tok)
  }

  lemma {:induction false} PushWithin(buf: seq<string>, w: string, maxTok: int, tok: string -> nat)
    requires PrefixesWithin(buf, maxTok, tok)
    requires tok(Join(buf + [w], " ")) <= maxTok
    ensures PrefixesWithin(buf + [w], maxTok, tok)
  {
    var b := buf + [w];
    forall j | 0 < j <= |b| ensures tok(Join(b[..j], " ")) <= maxTok {
      if j <= |buf| {
        assert b[..j] == buf[..j];
      } else {
        assert b[..j] == b;
      }
    }
  }

  lemma {:induction false} PushFlush(groups: seq<seq<string>>, buf: seq<string>, w: string, maxTok: int, tok: string -> nat)
    requires Flushed(groups, maxTok, tok) && PrefixesWithin(buf, maxTok, tok)
    requires AllWords(buf) && IsWord(w)
    requires tok(Join(buf + [w], " ")) > maxTok
    ensures Flushed(groups + [buf + [w]], maxTok, tok)
  {
    var b := buf + [w];
    assert b[..|b| - 1] == buf;
    var gs := groups + [b];
    forall g | 0 <= g < |gs|
      ensures gs[g] != [] && AllWords(gs[g]) && tok(Join(gs[g], " ")) > maxTok
      ensures PrefixesWithin(gs[g][..|gs[g]| - 1], maxTok, tok)
    {
      if g < |groups| {
        assert gs[g] == groups[g];
      }
    }
  }

  /** The loop's state at the end satisfies the greedy-split description. */
  lemma {:induction false} FinishSplit(words: seq<string>, groups: seq<seq<string>>, buf: seq<string>, maxTok: int, tok: string -> nat)
    requires Flushed(groups, maxTok, tok) && PrefixesWithin(buf, maxTok, tok)
    requires Flatten(groups) + buf == words
    ensures var all := if buf == [] then groups else groups + [buf];
      IsGreedySplit(words, all, maxTok, tok)
  {
    var all := if buf == [] then groups else groups + [buf];
    if buf != [] {
      FlattenAppend(groups, buf);
    } else {
      assert Flatten(groups) + buf == Flatten(groups);
    }
    forall g, j | 0 <= g < |all| && 0 < j < |all[g]|
      ensures tok(Join(all[g][..j], " ")) <= maxTok
    {
      if g < |groups| {
        assert all[g][..j] == groups[g][..|groups[g]| - 1][..j];
      } else {
        assert all[g] == buf;
      }
    }
    forall g | 0 <= g < |all| - 1 ensures tok(Join(all[g], " ")) > maxTok {
      assert all[g] == groups[g];
    }
  }

  /** Reading each chunk back with `split()` gives the group it was joined from. */
  lemma {:induction false} ChunkWordsOfJoinEach(groups: seq<seq<string>>)
    requires forall g :: 0 <= g < |groups| ==> AllWords(groups[g])
    ensures ChunkWords(JoinEach(groups)) == groups
  {
    forall g | 0 <= g < |groups| ensures Words(JoinEach(groups)[g]) == groups[g] {
      WordsOfJoin(groups[g]);
    }
  }

  /** The state of the loop after `i` words: the flushed groups followed by
      the buffer spell out the first `i` words. */
  ghost predicate SplitState(words: seq<string>, i: nat, groups: seq<seq<string>>, buf: seq<string>,
                             maxTok: int, tok: string -> nat) {
    && i <= |words| && AllWords(words)
    && Flatten(groups) + buf == words[..i]
    && Flushed(groups, maxTok, tok)
    && PrefixesWithin(buf, maxTok, tok) && AllWords(buf)
  }

  lemma {:induction false} StepFlush(words: seq<string>, i: nat, groups: seq<seq<string>>, buf: seq<string>,
                  maxTok: int, tok: string -> nat)
    requires SplitState(words, i, groups, buf, maxTok, tok) && i < |words|
    requires tok(Join(buf + [words[i]], " ")) > maxTok
    ensures SplitState(words, i + 1, groups + [buf + [words[i]]], [], maxTok, tok)
  {
    PushFlush(groups, buf, words[i], maxTok, tok);
    FlattenAppend(groups, buf + [words[i]]);
    assert words[..i + 1] == words[..i] + [words[i]];
  }

  lemma {:induction false} StepKeep(words: seq<string>, i: nat, groups: seq<seq<string>>, buf: seq<string>,
                 maxTok: int, tok: string -> nat)
    requires SplitState(words, i, groups, buf, maxTok, tok) && i < |words|
    requires tok(Join(buf + [words[i]], " ")) <= maxTok
    ensures SplitState(words, i + 1, groups, buf + [words[i]], maxTok, tok)
  {
    PushWithin(buf, words[i], maxTok, tok);
    assert words[..i + 1] == words[..i] + [words[i]];
  }

  lemma {:induction false} JoinEachAppend(groups: seq<seq<string>>, g: seq<string>)
    ensures JoinEach(groups) + [Join(g, " ")] == JoinEach(groups + [g])
  {
  }

  /** `_split_by_tokens(text, max_tok)`: append words to a buffer and flush the
      buffer, joined by single spaces, as soon as its token count exceeds
      `maxTok`; flush what is left at the end. */
  method SplitByTokens(text: string, maxTok: int, tok: string -> nat) returns (chunks: seq<string>)
    ensures IsGreedySplit(Words(text), ChunkWords(chunks), maxTok, tok)
    ensures forall i :: 0 <= i < |chunks| ==> chunks[i] == Join(Words(chunks[i]), " ")
    ensures chunks == [] <==> Words(text) == []
  {
    var words := Words(text);
    var buf: seq<string> := [];
    chunks := [];
    ghost var groups: seq<seq<string>> := [];
    for i := 0 to |words|
      invariant SplitState(words, i, groups, buf, maxTok, tok)
      invariant chunks == JoinEach(groups)
    {
      var w := words[i];
      if tok(Join(buf + [w], " ")) > maxTok {
        StepFlush(words, i, groups, buf, maxTok, tok);
        JoinEachAppend(groups, buf + [w]);
        chunks := chunks + [Join(buf + [w], " ")];
        groups := groups + [buf + [w]];
        buf := [];
      } else {
        StepKeep(words, i, groups, buf, maxTok, tok);
        buf := buf + [w];
      }
    }
    assert words[..|words|] == words;
    FinishSplit(words, groups, buf, maxTok, tok);
    if buf != [] {
      JoinEachAppend(groups, buf);
      chunks := chunks + [Join(buf, " ")];
      groups := groups + [buf];
    }
    SplitOutcome(words, groups, maxTok, tok);
  }

  /** What the method promises, from the groups the loop built. */
  lemma {:induction false} SplitOutcome(words: seq<string>, groups: seq<seq<string>>, maxTok: int, tok: string -> nat)
    requires IsGreedySplit(words, groups, maxTok, tok)
    requires forall g :: 0 <= g < |groups| ==> AllWords(groups[g])
    ensures IsGreedySplit(words, ChunkWords(JoinEach(groups)), maxTok, tok)
    ensures forall i :: 0 <= i < |groups| ==> JoinEach(groups)[i] == Join(Words(JoinEach(groups)[i]), " ")
    ensures groups == [] <==> words == []
  {
    ChunkWordsOfJoinEach(groups);
    if groups != [] {
      assert words == groups[0] + Flatten(groups[1..]);
    }
  }

  /** The greedy rule fixes the chunking: two splits of the same words that
      both satisfy `IsGreedySplit` are the same split. */
  lemma {:induction false} GreedySplitUnique(words: seq<string>, g1: seq<seq<string>>, g2: seq<seq<string>>,
                                              maxTok: int, tok: string -> nat)
    requires IsGreedySplit(words, g1, maxTok, tok) && IsGreedySplit(words, g2, maxTok, tok)
    ensures g1 == g2
    decreases |words|
  {
    if g1 != [] && g2 != [] {
      FirstGroupNotLonger(words, g1, g2, maxTok, tok);
      FirstGroupNotLonger(words, g2, g1, maxTok, tok);
      var a := g1[0];
      assert words == a + Flatten(g1[1..]) && words == g2[0] + Flatten(g2[1..]);
      assert a == words[..|a|] == g2[0];
      var rest := words[|a|..];
      assert Flatten(g1[1..]) == rest && Flatten(g2[1..]) == rest;
      assert IsGreedySplit(rest, g1[1..], maxTok, tok) by {
        forall g | 0 <= g < |g1| - 1 ensures g1[1..][g] == g1[g + 1] { }
      }
      assert IsGreedySplit(rest, g2[1..], maxTok, tok) by {
        forall g | 0 <= g < |g2| - 1 ensures g2[1..][g] == g2[g + 1] { }
      }
      GreedySplitUnique(rest, g1[1..], g2[1..], maxTok, tok);
      assert g1 == [a] + g1[1..] && g2 == [a] + g2[1..];
    }
  }

  /** In two greedy splits of the same words, the first group of `g1` is not
      longer than that of `g2`: a longer one would hold the shorter as a proper
      prefix within budget, yet the shorter was flushed for going over it (or
      was all the words). */
  lemma {:induction false} FirstGroupNotLonger(words: seq<string>, g1: seq<seq<string>>, g2: seq<seq<string>>,
                            maxTok: int, tok: string -> nat)
    requires IsGreedySplit(words, g1, maxTok, tok) && IsGreedySplit(words, g2, maxTok, tok)
    requires g1 != [] && g2 != []
    ensures |g1[0]| <= |g2[0]|
  {
    var a, b := g1[0], g2[0];
    assert words == a + Flatten(g1[1..]);
    assert words == b + Flatten(g2[1..]);
    assert words[..|a|] == a && words[..|b|] == b;
    assert forall j :: 0 < j < |a| ==> a[..j] == words[..j];
    assert |g2| == 1 ==> Flatten(g2[1..]) == [];
    assert |b| == |words| || tok(Join(words[..|b|], " ")) > maxTok;
  }

  /** A group that starts with a word over budget by itself is that word alone. */
  lemma {:induction false} OversizedWordAlone(words: seq<string>, groups: seq<seq<string>>, maxTok: int, tok: string -> nat, g: nat)
    requires IsGreedySplit(words, groups, maxTok, tok)
    requires g < |groups| && tok(groups[g][0]) > maxTok
    ensures groups[g] == [groups[g][0]]
  {
    var grp := groups[g];
    assert |grp| > 1 ==> tok(Join(grp[..1], " ")) <= maxTok;
    assert grp[..1] == [grp[0]];
    assert Join([grp[0]], " ") == grp[0];
  }

  // ---------------------------------------------------------------------
  // _apply_deltas
  // ---------------------------------------------------------------------

  /** One extracted location; `name` and `description` are required by the
      extraction schema, the other keys may be absent (`None`). */
  datatype LocationItem = LocationItem(name: string, description: string,
                                       region: Option<string>, parent: Option<string>)

  datatype NpcItem = NpcItem(name: string, description: string, role: Option<string>,
                             faction: Option<string>, home: Option<string>)

  /** `kind` holds the item's `type` key. */
  datatype FactionItem = FactionItem(name: string, description: string, kind: Option<string>)

  /** The merged result of the extraction call on one chunk; every key may be
      missing. */
  datatype ChunkResult = ChunkResult(summary: Option<string>,
                                     locations: Option<seq<LocationItem>>,
                                     npcs: Option<seq<NpcItem>>,
                                     factions: Option<seq<FactionItem>>)

  /** The records `_apply_deltas` builds for one chunk, in the order it builds them. */
  datatype Deltas = Deltas(locations: seq<Location>, npcs: seq<NPC>, factions: seq<Faction>)

  /** `slug(item.get(k, "")) if item.get(k) else ""`: a reference given by
      name becomes an id; an absent or empty one becomes "". The guard changes
      nothing, since the slug of "" is "". */
  function SlugIfGiven(x: Option<string>): (r: string)
    ensures r == Slug(x.GetOr(""))
    ensures IsSlug(r)
  {
    if x.Some? && x.value != "" then Slug(x.value)
    else
      SlugEmptyIff("");
      ""
  }

  function ToLocation(item: LocationItem): (l: Location)
    ensures l.id == Slug(item.name) && IsSlug(l.id)
    ensures l.name == item.name && l.description == item.description
    ensures l.region == item.region.GetOr("")
    ensures l.parentLocation == Slug(item.parent.GetOr("")) && IsSlug(l.parentLocation)
    ensures l.kind == "Location" && l.cityManager == "" && l.securityProvider == ""
    ensures l.factions == [] && l.events == []
  {
    Location(id := Slug(item.name), name := item.name, description := item.description,
             region := item.region.GetOr(""), parentLocation := SlugIfGiven(item.parent))
  }

  /** The NPC record of an extracted NPC: `role` defaults to "", not to the
      record's own default "NPC"; `location` and `homeLocation` both come
      from the item's `home`. */
  function ToNpc(item: NpcItem): (n: NPC)
    ensures n.id == Slug(item.name) && IsSlug(n.id)
    ensures n.name == item.name && n.description == item.description
    ensures n.role == item.role.GetOr("")
    ensures n.affiliation == Slug(item.faction.GetOr("")) && IsSlug(n.affiliation)
    ensures n.homeLocation == Slug(item.home.GetOr("")) && n.location == n.homeLocation
    ensures n.currentLocation == "" && n.notes == "" && n.relationships == map[]
  {
    var home := SlugIfGiven(item.home);
    NPC(id := Slug(item.name), name := item.name, description := item.description,
        role := item.role.GetOr(""), affiliation := SlugIfGiven(item.faction),
        homeLocation := home, location := home)
  }

  function ToFaction(item: FactionItem): (f: Faction)
    ensures f.id == Slug(item.name) && IsSlug(f.id)
    ensures f.name == item.name && f.description == item.description
    ensures f.kind == item.kind.GetOr("gang")
  {
    Faction(id := Slug(item.name), name := item.name, description := item.description,
            kind := item.kind.GetOr("gang"))
  }

  /** `_apply_deltas(data)`: one record per extracted item, locations first,
      then NPCs, then factions; a missing list counts as empty. The records
      are only built and printed: the upserts into the world state are
      commented out in the source. */
  function ApplyDeltas(cr: ChunkResult): (d: Deltas)
    ensures |d.locations| == |cr.locations.GetOr([])|
    ensures forall i :: 0 <= i < |d.locations| ==> d.locations[i] == ToLocation(cr.locations.GetOr([])[i])
    ensures |d.npcs| == |cr.npcs.GetOr([])|
    ensures forall i :: 0 <= i < |d.npcs| ==> d.npcs[i] == ToNpc(cr.npcs.GetOr([])[i])
    ensures |d.factions| == |cr.factions.GetOr([])|
    ensures forall i :: 0 <= i < |d.factions| ==> d.factions[i] == ToFaction(cr.factions.GetOr([])[i])
  {
    var ls := cr.locations.GetOr([]);
    var ns := cr.npcs.GetOr([]);
    var fs := cr.factions.GetOr([]);
    Deltas(seq(|ls|, i requires 0 <= i < |ls| => ToLocation(ls[i])),
           seq(|ns|, i requires 0 <= i < |ns| => ToNpc(ns[i])),
           seq(|fs|, i requires 0 <= i < |fs| => ToFaction(fs[i])))
  }

  /** A parent named by the name of another extracted location resolves to
      that location's id, and likewise an NPC's home and faction. */
  lemma {:induction false} ReferencesResolve(l: LocationItem, p: LocationItem, n: NpcItem, f: FactionItem)
    ensures l.parent == Some(p.name) ==> ToLocation(l).parentLocation == ToLocation(p).id
    ensures n.home == Some(p.name) ==> ToNpc(n).homeLocation == ToLocation(p).id
    ensures n.faction == Some(f.name) ==> ToNpc(n).affiliation == ToFaction(f).id
  {
  }

  /** Names that differ only in letter case, or in punctuation and spacing
      around them, give the same id: the world state would treat such items
      as one entity. */
  lemma {:induction false} SameIdForVariants(a: LocationItem, b: LocationItem, pre: string, post: string)
    requires forall k :: 0 <= k < |pre| ==> !IsAsciiAlnum(pre[k])
    requires forall k :: 0 <= k < |post| ==> !IsAsciiAlnum(post[k])
    ensures Lower(a.name) == Lower(b.name) ==> ToLocation(a).id == ToLocation(b).id
    ensures b.name == pre + a.name + post ==> ToLocation(a).id == ToLocation(b).id
  {
    if Lower(a.name) == Lower(b.name) {
      SlugIgnoresCase(a.name, b.name);
    }
    SlugIgnoresSurrounding(pre, a.name, post);
  }

  // ---------------------------------------------------------------------
  // _summarise_session
  // ---------------------------------------------------------------------

  const RecapInstruction: string :=
    "Combine the following ordered chunk summaries into one coherent \U{2264}200-word session recap, preserving chronology.\n\n"

  /** `f"{i+1}. {s}"` */
  function NumberedEntry(i: nat, s: string): string {
    NatToStr(i + 1) + ". " + s
  }

  /** The summaries numbered from 1, in order. */
  function Numbered(summaries: seq<string>): (e: seq<string>)
    ensures |e| == |summaries|
    ensures forall i :: 0 <= i < |e| ==> e[i] == NumberedEntry(i, summaries[i])
  {
    seq(|summaries|, i requires 0 <= i < |summaries| => NumberedEntry(i, summaries[i]))
  }

  /** The user prompt of the recap call: the instruction, then the chunk
      summaries numbered from 1, separated by blank lines. */
  function SummaryPrompt(summaries: seq<string>): (prompt: string)
    ensures |RecapInstruction| <= |prompt| && prompt[..|RecapInstruction|] == RecapInstruction
    ensures summaries == [] ==> prompt == RecapInstruction
  {
    RecapInstruction + Join(Numbered(summaries), "\n\n")
  }

  /** A single summary is entry number 1. */
  lemma {:induction false} PromptOne(s: string)
    ensures SummaryPrompt([s]) == RecapInstruction + "1. " + s
  {
    assert Numbered([s]) == [NumberedEntry(0, s)];
  }

  /** The recap prompt keeps chronology: a later summary is appended, under
      the next number, after everything the earlier ones produced. */
  lemma {:induction false} PromptAppend(summaries: seq<string>, s: string)
    requires summaries != []
    ensures SummaryPrompt(summaries + [s])
      == SummaryPrompt(summaries) + "\n\n" + NumberedEntry(|summaries|, s)
  {
    var e := Numbered(summaries);
    var x := NumberedEntry(|summaries|, s);
    var ss := summaries + [s];
    forall i | 0 <= i < |ss| ensures Numbered(ss)[i] == (e + [x])[i] {
      if i < |summaries| {
        assert ss[i] == summaries[i];
      }
    }
    assert Numbered(ss) == e + [x];
    JoinAppend(e, x, "\n\n");
    var r, j := RecapInstruction, Join(e, "\n\n");
    assert r + (j + "\n\n" + x) == (r + j) + "\n\n" + x;
  }

  // ---------------------------------------------------------------------
  // _write_summary_file and process
  // ---------------------------------------------------------------------

  const ChunkTokens: nat := 3000
  const SessionSummaryDir: string := "data/session_summaries"

  /** `f"{date}_{slug(stem)}.md"` under the summaries directory. */
  function SummaryPath(date: string, stem: string): (path: string)
    ensures var n := |SessionSummaryDir| + |date| + 2;
      n <= |path| - 3 && path[n - 1] == '_' && path[|path| - 3..] == ".md" && IsSlug(path[n..|path| - 3])
    ensures path[..|SessionSummaryDir| + 1] == SessionSummaryDir + "/"
    ensures path[|SessionSummaryDir| + 1..|SessionSummaryDir| + 1 + |date|] == date
  {
    var dir := SessionSummaryDir + "/";
    var id := Slug(stem);
    var path := dir + date + "_" + id + ".md";
    assert path == dir + (date + "_" + id + ".md");
    assert path[..|dir|] == dir;
    assert path[|dir|..|dir| + |date|] == date;
    assert path[|dir| + |date| + 1..|path| - 3] == id;
    path
  }

  /** For one date, two transcripts share a summary file exactly when their
      stems have the same slug; so a later run on a stem that differs only in
      case overwrites the earlier summary. */
  lemma {:induction false} SummaryPathIff(date: string, a: string, b: string)
    ensures SummaryPath(date, a) == SummaryPath(date, b) <==> Slug(a) == Slug(b)
    ensures Lower(a) == Lower(b) ==> SummaryPath(date, a) == SummaryPath(date, b)
  {
    var pre := SessionSummaryDir + "/" + date + "_";
    assert SummaryPath(date, a) == pre + Slug(a) + ".md";
    assert SummaryPath(date, b) == pre + Slug(b) + ".md";
    InfixCancel(pre, Slug(a), Slug(b), ".md");
    if Lower(a) == Lower(b) {
      SlugIgnoresCase(a, b);
    }
  }

  lemma {:induction false} InfixCancel(pre: string, x: string, y: string, post: string)
    ensures pre + x + post == pre + y + post <==> x == y
  {
    if pre + x + post == pre + y + post {
      var t := pre + x + post;
      assert |x| == |y|;
      assert x == t[|pre|..|pre| + |x|];
    }
  }

  /** What one successful run of `process` leaves behind: the chunk
      summaries in chunk order, the records built from each chunk, and the
      summary file. */
  datatype SessionRun = SessionRun(summaries: seq<string>, deltas: seq<Deltas>,
                                   path: string, contents: string)

  /** Every chunk's result carries a summary (`cr["summary"]` raises otherwise). */
  predicate AllSummarised(results: seq<ChunkResult>) {
    forall i :: 0 <= i < |results| ==> results[i].summary.Some?
  }

  /** `[self._analyze_chunk(c) for c in chunks]` */
  function MapChunks(chunks: seq<string>, analyze: string -> ChunkResult): (rs: seq<ChunkResult>)
    ensures |rs| == |chunks| && forall i :: 0 <= i < |rs| ==> rs[i] == analyze(chunks[i])
  {
    seq(|chunks|, i requires 0 <= i < |chunks| => analyze(chunks[i]))
  }

  /** `[cr["summary"] for cr in chunk_results]` */
  function SummariesOf(results: seq<ChunkResult>): (ss: seq<string>)
    requires AllSummarised(results)
    ensures |ss| == |results| && forall i :: 0 <= i < |ss| ==> Some(ss[i]) == results[i].summary
  {
    seq(|results|, i requires 0 <= i < |results| => results[i].summary.value)
  }

  /** The records `_apply_deltas` builds, chunk by chunk. */
  function DeltasOf(results: seq<ChunkResult>): (ds: seq<Deltas>)
    ensures |ds| == |results| && forall i :: 0 <= i < |ds| ==> ds[i] == ApplyDeltas(results[i])
  {
    seq(|results|, i requires 0 <= i < |results| => ApplyDeltas(results[i]))
  }

  /** Everything `process` does once the transcript is chunked: a chunk
      result without a summary ends the run before anything is written;
      otherwise the recap of the numbered summaries goes to the file at `path`.
      Items without a name or description, and item lists present as null,
      cannot occur in a `ChunkResult`, so the errors `_apply_deltas` raises
      for them are not among this function's failures. */
  function RunOnChunks(chunks: seq<string>, analyze: string -> ChunkResult,
                       narrate: string -> string, path: string)
    : (r: Result<SessionRun, string>)
    ensures r.Success? <==> forall i :: 0 <= i < |chunks| ==> analyze(chunks[i]).summary.Some?
    ensures r.Success? ==>
      var run := r.value;
      && |run.summaries| == |chunks| && |run.deltas| == |chunks|
      && (forall i :: 0 <= i < |chunks| ==>
            Some(run.summaries[i]) == analyze(chunks[i]).summary
            && run.deltas[i] == ApplyDeltas(analyze(chunks[i])))
      && run.path == path
      && run.contents == Strip(narrate(SummaryPrompt(run.summaries)))
  {
    var results := MapChunks(chunks, analyze);
    if !AllSummarised(results) then Failure("KeyError: 'summary'")
    else
      var summaries := SummariesOf(results);
      Success(SessionRun(summaries, DeltasOf(results), path,
                         Strip(narrate(SummaryPrompt(summaries)))))
  }

  /** `process(transcript_path)`, with the transcript text, the tokenizer,
      the extraction call, the narrating call, today's date and the
      transcript's file stem as parameters. `chunks` is the greedy split of
      the transcript's words (unique, by `GreedySplitUnique`). */
  method Process(text: string, tok: string -> nat, analyze: string -> ChunkResult,
                 narrate: string -> string, date: string, stem: string)
    returns (chunks: seq<string>, r: Result<SessionRun, string>)
    ensures IsGreedySplit(Words(text), ChunkWords(chunks), ChunkTokens, tok)
    ensures forall i :: 0 <= i < |chunks| ==> chunks[i] == Join(Words(chunks[i]), " ")
    ensures r == RunOnChunks(chunks, analyze, narrate, SummaryPath(date, stem))
  {
    chunks := SplitByTokens(text, ChunkTokens, tok);
    r := RunOnChunks(chunks, analyze, narrate, SummaryPath(date, stem));
  }
}
