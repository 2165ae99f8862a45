# Campaign-ingestion core of the Cyberpunk RED GM helper, in Dafny

This project models the bookkeeping side of a game master's assistant for a
Cyberpunk RED campaign, and proves properties of that model. The assistant

- turns names into identifiers (`slug`) and keeps campaign records
  (locations, NPCs, factions, corporations, players);
- stores the living world in three JSON files, re-read tolerantly on start and
  rewritten after every effective change;
- cuts a session transcript into chunks by a token budget (every chunk but
  the last goes over it with its last word, and a leftover last chunk stays
  within it), maps the locations,
  NPCs and factions extracted from each chunk to records, numbers the chunk
  summaries into a recap prompt and names the summary file;
- chunks rulebook PDFs into paragraph texts tagged with page, chapter and
  file, batches them 128 at a time into a vector index, and shapes search hits
  into the context of a GPT prompt;
- has an older, prototype world manager with one file of three sections, an
  ordered lookup and an attribute-restricted update.

Modules follow the source files:

| module | models |
|---|---|
| `Wrappers` | `Option` and `Result` |
| `PyStr` | the Python `str` built-ins used: `isspace`, `strip`, `split()`, `join` and `str` of a natural number |
| `Slugs`, `Records` | `modules/data_models.py` |
| `Dicts` | an insertion-ordered Python `dict` with string keys |
| `WorldStore` | `modules/world_state.py` |
| `Session` | `modules/session_processor.py` |
| `Rulebook`, `VectorIndex` | `modules/rag_system.py` |
| `ProtoWorld` | `data_models/world_state.py` with the records of `data_models/data_models.py` |

Files, services and randomness become values or parameters. A disk is a map
from path to file contents. The tokenizer, the two language-model calls, the
embedder's search result, `uuid4`, today's date and `Path.stem` are passed
in, as are a PDF's table of contents and the text lines of each page.

## Model

| member | source | states |
|---|---|---|
| `Slugs.LowerChar` | modules/data_models.py:11 | lower-casing one character gives a `[a-z0-9]` character exactly for an ASCII letter or digit, and leaves every character other than `A`-`Z` as it is |
| `Slugs.Lower` | modules/data_models.py:11 | ASCII lower-casing keeps the length; a character maps into `[a-z0-9]` exactly when it is an ASCII letter or digit, and anything outside `A`-`Z` is unchanged |
| `Slugs.Collapse` | modules/data_models.py:11 | replacing each maximal run of non-`[a-z0-9]` characters by one `_` gives a string over `[a-z0-9_]` without `__`; it is empty only for empty input and starts with `_` exactly when the input starts with a separator |
| `Slugs.Slug` | modules/data_models.py:9-11 | every slug uses only `a`-`z`, `0`-`9` and `_`, never starts or ends with `_` and never contains `__` |
| `Slugs.SlugOfSlug` | modules/data_models.py:9-11 | a string already in slug shape is its own slug |
| `Slugs.SlugIdempotent` | modules/data_models.py:9-11 | `slug(slug(s)) == slug(s)` for every `s` |
| `Slugs.SlugKeepsAlnums` | modules/data_models.py:11 | the letters and digits of a slug are exactly those of the lower-cased input, in order: slugging drops only separators |
| `Slugs.SlugEmptyIff` | modules/data_models.py:11 | the slug is empty if and only if the input has no ASCII letter or digit |
| `Slugs.SlugIgnoresCase` | modules/data_models.py:11 | inputs that agree after ASCII lower-casing have the same slug |
| `Slugs.SlugIgnoresSurrounding` | modules/data_models.py:11 | punctuation or spaces added before and after a name do not change its slug |
| `Slugs.RogueVariants` | modules/data_models.py:11 | "Rogue", "ROGUE!!" and "  rogue  " all slug to "rogue" |
| `Slugs.LowerIdempotent` | modules/data_models.py:11 | lower-casing twice is lower-casing once |
| `Slugs.TidyLeadingRun` | modules/data_models.py:11 | a leading run of separators does not change the stripped, collapsed text |
| `Slugs.TidyTrailingRun` | modules/data_models.py:11 | a trailing run of separators does not change the stripped, collapsed text |
| `Slugs.CollapseOfSlugAlphabet` | modules/data_models.py:11 | collapsing leaves a `[a-z0-9_]` string without `__` unchanged |
| `Slugs.CollapseAfterSlugChar` | modules/data_models.py:11 | a separator run never spans a cut made right after a `[a-z0-9]` character, so collapsing the two sides separately gives the same text |
| `Slugs.CollapseKeepsLast` | modules/data_models.py:11 | collapsing keeps a final `[a-z0-9]` character last |
| `Slugs.CollapseGap` | modules/data_models.py:11 | a non-empty separator run before a `[a-z0-9]` character becomes exactly one `_` |
| `Slugs.StripAroundJoin` | modules/data_models.py:11 | `strip` of a join whose inner ends are kept characters strips each side separately |
| `Slugs.TidyJoin` | modules/data_models.py:11 | two names split by a separator run collapse and strip to their own results with one `_` between them |
| `Slugs.TidyJoinRuns` | modules/data_models.py:11 | the same holds when each name carries separators at its inner end |
| `Slugs.TidyJoinLowered` | modules/data_models.py:11 | the same on lower-cased text, for names that each contain a `[a-z0-9]` character |
| `Slugs.SlugCharInside` | modules/data_models.py:11 | a name with a non-empty slug contains, once lower-cased, a `[a-z0-9]` character |
| `Slugs.SlugJoinsWords` | modules/data_models.py:9-11 | when two names both have a non-empty slug, any run of spaces or punctuation between them makes exactly one `_`: `slug(a + p + b) == slug(a) + "_" + slug(b)` |
| `Records.DefaultFields` | modules/data_models.py:14-61 | the record defaults: location type "Location", NPC role "NPC", faction type "gang", corporation tier "AA", empty descriptions, references and lists, and a player's notes "" |
| `PyStr.IsSpace` | modules/session_processor.py:92 | definition: the characters Python's `str.isspace` accepts, which `split()` and `strip()` treat as whitespace |
| `PyStr.Strip` | modules/rag_system.py:147 | `strip()` never lengthens a string, and a non-empty result starts and ends with non-whitespace |
| `PyStr.Join` | modules/session_processor.py:96-100 | definition: `sep.join(parts)`, the parts with `sep` between neighbours (`PyStr.WordsOfJoin` gives the round trip) |
| `PyStr.NatToStr` | modules/rag_system.py:86 | `str(n)` is a non-empty string of decimal digits, starting with `0` only for zero |
| `PyStr.StripBySlice` | modules/data_models.py:11 | `strip(chars)` removes exactly a prefix and a suffix of stripped characters and keeps the slice between them |
| `PyStr.Words` | modules/session_processor.py:92 | `split()` yields non-empty words without whitespace |
| `PyStr.WordsOfJoin` | modules/session_processor.py:96-100 | `" ".join` of words, split again, gives back the same words |
| `PyStr.ParseNatToStr` | modules/rag_system.py:86 | the page number written with `str` reads back as the same number |
| `Dicts.Put` | modules/world_state.py:49 | `d[k] = v` stores `v` under `k`, keeps every other key and value, and appends `k` to the iteration order only when it is new |
| `Dicts.Remove` | modules/world_state.py:54 | `del d[k]` removes `k`, keeps every other key and value, and keeps the other keys in their iteration order |
| `Dicts.Without` | modules/world_state.py:54 | dropping a key from the iteration order keeps exactly the other keys, and leaves an order without that key unchanged |
| `Dicts.WithoutAppend` | modules/world_state.py:54 | dropping a key works piece by piece, so the keys left keep their relative order |
| `Dicts.Values` | modules/world_state.py:97 | `values()` lists the stored records in insertion order |
| `Dicts.FromList` | modules/world_state.py:90-92 | a dict comprehension keyed by id is well formed, stores each record under its own key and holds every element's key |
| `Dicts.FromListKeys` | modules/world_state.py:90-92 | every key of the comprehension comes from some element of the list |
| `Dicts.FromListLastWins` | modules/world_state.py:90-92 | the record kept under a key is the last element with that key |
| `Dicts.FromValues` | modules/world_state.py:90-92 | rebuilding a dict keyed by record id from its own values gives back the same dict, order included |
| `WorldStore.SafeRead` | modules/world_state.py:16-24 | an absent, empty or undecodable file reads as the empty document; a decodable one reads as its contents |
| `WorldStore.LoadLocations` | modules/world_state.py:86-90 | a locations file that is absent, blank, corrupt or lacks the `locations` key loads as an empty dict |
| `WorldStore.LoadFactions` | modules/world_state.py:87-91 | a factions file that is absent, blank, corrupt or lacks the `factions` key loads as an empty dict |
| `WorldStore.LoadNpcs` | modules/world_state.py:88-92 | an NPC file that is absent, blank, corrupt or lacks the `npcs` key loads as an empty dict |
| `WorldStore.SavedDisk` | modules/world_state.py:94-110 | saving touches exactly the three world-state files and leaves every other file as it was |
| `WorldStore.LoadIsKeyed` | modules/world_state.py:90-92 | whatever the files hold, the loaded dicts store each record under its own id |
| `WorldStore.SavedFiles` | modules/world_state.py:94-110 | saving writes each collection's values, in dict order, into its own file |
| `WorldStore.SaveThenLoad` | modules/world_state.py:90-92 | when every record is stored under its own id, loading what was saved rebuilds the same three dicts |
| `WorldStore.LaterRecordWins` | modules/world_state.py:90 | a location listed twice under one id loads as the later listing |
| `WorldStore.Children` | modules/world_state.py:57-58 | the result holds exactly the locations whose parent is the given id, with no recursion into grandchildren, and a list of children only is kept whole |
| `WorldStore.ChildrenAppend` | modules/world_state.py:57-58 | the filter works piece by piece, so the children keep the order of the list |
| `WorldStore.WorldState.constructor` | modules/world_state.py:33-45 | a new store without a locations file has three empty dicts and writes all three files empty; otherwise it holds what the files hold; either way every record sits under its own id |
| `WorldStore.WorldState.Load` | modules/world_state.py:81-92 | a missing locations file leaves the dicts as they were and writes all three files; otherwise each dict is rebuilt from its file and nothing is written |
| `WorldStore.WorldState.Save` | modules/world_state.py:94-110 | the disk afterwards holds the three dicts' values in their files |
| `WorldStore.WorldState.UpsertLocation` | modules/world_state.py:48-50 | the location replaces any record with its id, the other two dicts are unchanged, all three files are rewritten and key = id still holds |
| `WorldStore.WorldState.DeleteLocation` | modules/world_state.py:52-55 | an absent id changes nothing and writes nothing; a present id is removed, the rest kept and the files rewritten |
| `WorldStore.WorldState.ChildrenOf` | modules/world_state.py:57-58 | the result holds exactly the stored locations whose parent is the given id, in the dict's insertion order |
| `WorldStore.WorldState.UpsertFaction` | modules/world_state.py:61-63 | the faction replaces any record with its id, the other dicts are unchanged and the files rewritten |
| `WorldStore.WorldState.DeleteFaction` | modules/world_state.py:65-68 | an absent id changes nothing and writes nothing; a present id is removed and the files rewritten |
| `WorldStore.WorldState.UpsertNpc` | modules/world_state.py:71-73 | the NPC replaces any record with its id, the other dicts are unchanged and the files rewritten |
| `WorldStore.WorldState.DeleteNpc` | modules/world_state.py:75-78 | an absent id changes nothing and writes nothing; a present id is removed and the files rewritten |
| `WorldStore.ReopenAfterSave` | modules/world_state.py:33-45 | a store opened on the disk another store left behind sees the same three dicts |
| `Session.SplitByTokens` | modules/session_processor.py:92-102 | the chunks' words, in order, are the transcript's words; no chunk is empty; each non-final chunk went over the budget only with its last word; a final leftover is within it; each chunk is its words joined by spaces; there are no chunks exactly when there are no words |
| `Session.PushFlush` | modules/session_processor.py:95-98 | a buffer flushed when adding a word pushes it over the budget is a group that went over only with that word |
| `Session.FinishSplit` | modules/session_processor.py:99-100 | the leftover buffer, appended when non-empty, completes a greedy split of all the words |
| `Session.ChunkWordsOfJoinEach` | modules/session_processor.py:97-100 | splitting each joined chunk again recovers the word groups |
| `Session.GreedySplitUnique` | modules/session_processor.py:92-102 | a word list has only one greedy split for a given tokenizer and budget |
| `Session.FirstGroupNotLonger` | modules/session_processor.py:94-98 | the first group of a greedy split is no longer than the first group of any other greedy split of the same words, so the two are equally long (the step toward uniqueness) |
| `Session.OversizedWordAlone` | modules/session_processor.py:94-98 | a chunk that starts with a word over the budget holds only that word (an over-budget word arriving after other words ends their chunk instead) |
| `Session.SlugIfGiven` | modules/session_processor.py:140 | a reference that is missing or empty becomes "", any other is slugged; the result is a slug |
| `Session.ToLocation` | modules/session_processor.py:124-141 | a location item becomes a location with id `slug(name)`, its name and description, region defaulting to "", the slugged parent or "", and the record defaults elsewhere |
| `Session.ToNpc` | modules/session_processor.py:145-166 | an NPC item becomes an NPC with id `slug(name)`, role defaulting to "", the slugged faction as affiliation, and the slugged home as both home and current location |
| `Session.ToFaction` | modules/session_processor.py:170-185 | a faction item becomes a faction with id `slug(name)` and type defaulting to "gang" |
| `Session.ApplyDeltas` | modules/session_processor.py:119-186 | one record per extracted item, in item order, for each of the three lists, with a missing list read as empty |
| `Session.ReferencesResolve` | modules/session_processor.py:124-165 | a parent, home or faction named as another item resolves to exactly that item's record id |
| `Session.SameIdForVariants` | modules/session_processor.py:124 | two location names differing in case or surrounding punctuation give the same record id |
| `Session.Numbered` | modules/session_processor.py:192 | one `"{i+1}. {s}"` entry per summary, in chunk order |
| `Session.PromptOne` | modules/session_processor.py:189-192 | the recap prompt for one summary is the instruction followed by `"1. "` and the summary |
| `Session.PromptAppend` | modules/session_processor.py:189-192 | one more summary adds a blank line and its numbered entry at the end of the prompt |
| `Session.SummaryPrompt` | modules/session_processor.py:187-192 | the recap prompt opens with the fixed instruction, and is just that instruction for no summaries (the numbered entries follow; see `Session.PromptOne`, `Session.PromptAppend`) |
| `Session.SummaryPath` | modules/session_processor.py:203-207 | the path is the summary directory, a `/`, the date, a `_`, a slug and `.md`, in that order |
| `Session.SummaryPathIff` | modules/session_processor.py:203-207 | on one date, two transcripts share a summary file if and only if their stems have the same slug; stems differing only in case always do |
| `Session.MapChunks` | modules/session_processor.py:76 | one extraction result per chunk, in chunk order |
| `Session.SummariesOf` | modules/session_processor.py:79 | the summaries, in chunk order, when every result has one |
| `Session.DeltasOf` | modules/session_processor.py:82-83 | the records of each chunk's deltas, in chunk order |
| `Session.RunOnChunks` | modules/session_processor.py:76-88 | over chunk results as modelled (every item complete, no list null), the run fails exactly when some chunk result lacks a summary; otherwise it keeps the summaries and records in chunk order and writes the stripped recap of the numbered summaries to the given path |
| `Session.Process` | modules/session_processor.py:73-89 | the transcript's words are cut greedily with a 3000-token budget: every chunk but the last goes over it only with its last word, a leftover last chunk is within it, and each chunk handed to the extraction call is its words joined by single spaces; the rest of the run goes to the `{date}_{slug(stem)}.md` file under the summary directory |
| `Rulebook.Scan` | modules/rag_system.py:142-143 | the cursor advances past exactly the entries whose start page is at most the current page, and stops at the first that is not |
| `Rulebook.CursorIs` | modules/rag_system.py:141-143 | the cursor for a page is the last entry of the leading run of entries starting at or before it |
| `Rulebook.CursorMonotone` | modules/rag_system.py:141-143 | the cursor never moves back as the page number grows |
| `Rulebook.ChapterFacts` | modules/rag_system.py:140-144 | an empty TOC gives "Unknown"; otherwise every page gets some entry's title, and pages before the first start get the first entry's |
| `Rulebook.Chapter` | modules/rag_system.py:140-144 | definition: "Unknown" for an empty TOC, otherwise the title of the entry the cursor reaches for page `p+1` (its properties are in `Rulebook.ChapterFacts`) |
| `Rulebook.PageChapters` | modules/rag_system.py:140-144 | one chapter per page, each the one the cursor scan picks |
| `Rulebook.Debullet` | modules/rag_system.py:152 | a line starting with a bullet glyph loses that glyph and the whitespace after it; any other line is unchanged |
| `Rulebook.RunLength` | modules/rag_system.py:150 | the length of the leading run of short or bulleted lines |
| `Rulebook.MergeAfterBoundary` | modules/rag_system.py:148-157 | merging two blocks split after a long line is merging each one |
| `Rulebook.MergeSentinel` | modules/rag_system.py:149 | the trailing "" flushes the last run without adding an item |
| `Rulebook.Merge` | modules/rag_system.py:148-157 | definition: the merge of the stripped lines, each maximal short-or-bulleted run becoming one item (its loop is `Rulebook.MergeLines`) |
| `Rulebook.MergeLines` | modules/rag_system.py:148-157 | the loop over the lines plus "" yields exactly the merge: each run of short or bulleted lines becomes one `" • "`-joined item, other non-empty lines are kept and empty lines dropped |
| `Rulebook.MergedNoNewline` | modules/rag_system.py:147-157 | merged items contain no newline when the page lines contain none |
| `Rulebook.MergedNonEmpty` | modules/rag_system.py:148-157 | without a line that is a bare bullet glyph, no merged item is empty |
| `Rulebook.EmptyItemNeedsBareGlyph` | modules/rag_system.py:147-157 | an empty merged item comes only from a page line that strips to a single bullet glyph |
| `Rulebook.BareGlyphItem` | modules/rag_system.py:147-157 | conversely, a bare bullet glyph standing alone between lines that are neither short nor bulleted becomes an empty merged item |
| `Rulebook.LongRunNonEmpty` | modules/rag_system.py:151-154 | a run of two or more lines always merges into a non-empty item, since it holds the `" • "` separator |
| `Rulebook.SplitParas` | modules/rag_system.py:159 | splitting on two or more newlines gives at least one paragraph and none holds a blank line |
| `Rulebook.SplitParasWhole` | modules/rag_system.py:159 | text without two newlines in a row is one paragraph |
| `Rulebook.JoinLinesShape` | modules/rag_system.py:159 | joining non-empty, newline-free items with "\n" never makes a blank line |
| `Rulebook.KeepLong` | modules/rag_system.py:160-161 | every kept paragraph is stripped and at least 30 characters long |
| `Rulebook.AtMostOneChunk` | modules/rag_system.py:147-161 | when no merged item is empty a page yields at most one chunk: the stripped newline-join of its merged items when that is at least 30 characters |
| `Rulebook.NoBareGlyphOneChunk` | modules/rag_system.py:147-161 | in particular a page without a line that strips to a single bullet glyph yields at most one such chunk |
| `Rulebook.MakeChunks` | modules/rag_system.py:162-170 | one chunk per kept text, in order, with consecutive ids and the page's metadata |
| `Rulebook.StripAll` | modules/rag_system.py:147 | one stripped line per raw line, in order |
| `Rulebook.PageTexts` | modules/rag_system.py:147-161 | definition: a page's chunk texts are the long paragraphs of its merged, newline-joined lines (shape facts in `Rulebook.KeepLong` and `Rulebook.AtMostOneChunk`) |
| `Rulebook.PagesTexts` | modules/rag_system.py:146-161 | the kept texts of every page, page by page |
| `Rulebook.ChunksUpToMeta` | modules/rag_system.py:162-169 | each chunk carries a page number `p+1`, that page's chapter, the file name and a stripped text of at least 30 characters |
| `Rulebook.ChunksUpToIds` | modules/rag_system.py:163 | chunk ids are drawn in emission order |
| `Rulebook.ChunksUpToOrder` | modules/rag_system.py:146-170 | chunks come out in page order |
| `Rulebook.ChunksUpToPrefix` | modules/rag_system.py:146-170 | the chunks of the first pages are a prefix of the chunks of more pages |
| `Rulebook.ChunksOfPage` | modules/rag_system.py:146-170 | the chunks of page `p` sit together, right after those of the earlier pages |
| `Rulebook.PdfChunksFacts` | modules/rag_system.py:137-171 | every chunk of a PDF is well formed for its page, chapter and file, ids follow emission order and pages are non-decreasing |
| `Rulebook.PdfChunks` | modules/rag_system.py:137-171 | definition: the chunks of every page of a PDF, in page order, numbered from `start` (its facts are `Rulebook.PdfChunksFacts`) |
| `Rulebook.KeepChunks` | modules/rag_system.py:159-170 | the paragraph loop emits one chunk per long paragraph, in order |
| `Rulebook.PageChunks` | modules/rag_system.py:147-170 | the chunks of one page are those of its kept texts |
| `Rulebook.ChunkPdf` | modules/rag_system.py:137-171 | the loop over pages emits exactly the PDF's chunks |
| `VectorIndex.AllChunks` | modules/rag_system.py:50-52 | definition: the chunks of every PDF in scan order, numbered on across files (what `VectorIndex.RagSys.BuildIndex` stores) |
| `VectorIndex.Batches` | modules/rag_system.py:50-62 | batches are non-empty and at most 128 long, all but the last exactly 128, with one batch per started 128 chunks |
| `VectorIndex.FlattenBatches` | modules/rag_system.py:50-62 | the batches concatenate back to the chunk sequence |
| `VectorIndex.LastBatch` | modules/rag_system.py:61-62 | the last batch holds the remainder modulo 128, or 128 when it divides evenly |
| `VectorIndex.SentAreBatches` | modules/rag_system.py:57-62 | the batches flushed in the loop, plus the leftover when non-empty, are the 128-batching of everything seen |
| `VectorIndex.BatchStep` | modules/rag_system.py:53-59 | appending a chunk either fills the batch to 128 and flushes it or leaves it pending |
| `VectorIndex.RagSys.constructor` | modules/rag_system.py:21-35 | a system over a collection with the given contents and with or without a chat client |
| `VectorIndex.RagSys.Flush` | modules/rag_system.py:133-135 | the batch is appended to the collection and recorded as one flush |
| `VectorIndex.RagSys.Enqueue` | modules/rag_system.py:52-59 | feeding chunks keeps the collection equal to the full batches flushed so far |
| `VectorIndex.RagSys.BuildIndex` | modules/rag_system.py:38-64 | a populated collection is left alone; an empty one receives every PDF's chunks, in order, in 128-chunk flushes, the last of at most 128 |
| `VectorIndex.ShapeHits` | modules/rag_system.py:66-78 | one hit per document and metadata pair, in rank order, carrying text, page, chapter and file |
| `VectorIndex.HitsOfChunks` | modules/rag_system.py:70-77 | the hits shaped from stored chunks carry those chunks' text and metadata |
| `VectorIndex.Header` | modules/rag_system.py:86 | definition: `"{source_pdf} [p.{page} – {chapter}]"` (read back in `VectorIndex.EntryReadBack`) |
| `VectorIndex.Entry` | modules/rag_system.py:86 | definition: the header line, a newline, then the chunk text |
| `VectorIndex.Entries` | modules/rag_system.py:85-88 | one context entry per hit, in rank order |
| `VectorIndex.Context` | modules/rag_system.py:85-88 | no hits give an empty context, and one hit gives just its entry |
| `VectorIndex.UserPrompt` | modules/rag_system.py:90-100 | the user message opens with the question; the fixed system message is the constant `SystemPrompt` |
| `VectorIndex.ContextAppend` | modules/rag_system.py:85-88 | one more hit adds a blank line and its entry to the context |
| `VectorIndex.EntryReadBack` | modules/rag_system.py:86 | an entry's first line is the hit's citation header and the rest is its text; the page number in the header reads back |
| `VectorIndex.RagSys.AskGpt` | modules/rag_system.py:80-107 | without a client the call fails with the source's message before any search; with one, the answer is the chat reply to the system prompt and the question followed by the context |
| `ProtoWorld.Construct` | data_models/data_models.py:4-28 | `Kind(**v)` succeeds exactly when every key is an attribute of the class and every attribute without a default is given; then the entity has its class's attributes, the given values and the defaults elsewhere |
| `ProtoWorld.LoadSection` | data_models/world_state.py:20-22 | a section loads when every entry fits its class; the entities keep the section's keys and are built from its entries |
| `ProtoWorld.Dump` | data_models/world_state.py:30-32 | saving a store writes each entity's attributes under its key |
| `ProtoWorld.ConstructOwn` | data_models/world_state.py:20-22 | an entity rebuilt from its own attributes is the same entity |
| `ProtoWorld.LoadDumped` | data_models/world_state.py:20-22 | loading a dumped section gives back the same store, under the original keys |
| `ProtoWorld.Load` | data_models/world_state.py:15-25 | a missing file keeps the world and reports nothing; an undecodable one reports a JSON error; a successful load of a present file gives a well-typed world; a failed load never replaces the locations; an npcs section that builds is in place even if a later section fails, and one that fails leaves the whole world as it was |
| `ProtoWorld.SaveThenLoad` | data_models/world_state.py:15-35 | a well-typed world saved and loaded again is the same world, without error |
| `ProtoWorld.Find` | data_models/world_state.py:37-42 | the lookup finds nothing exactly when the id is in no store |
| `ProtoWorld.FindFirst` | data_models/world_state.py:37-42 | the lookup returns the entity from the first store holding the id |
| `ProtoWorld.FindInWorld` | data_models/world_state.py:39 | the stores are searched npcs, then corporations, then locations |
| `ProtoWorld.Apply` | data_models/world_state.py:47-50 | definition: the updates applied in order, each only to an existing attribute (its properties are `ProtoWorld.ApplySpec`) |
| `ProtoWorld.ApplySpec` | data_models/world_state.py:48-50 | the update keeps the attribute set; each existing attribute takes the last value given for it or keeps its own, and unknown keys are ignored |
| `ProtoWorld.Updated` | data_models/world_state.py:47-50 | an updated entity keeps its class and stays complete |
| `ProtoWorld.SetAttributes` | data_models/world_state.py:48-50 | the loop of guarded assignments computes the attribute-restricted update |
| `ProtoWorld.UpdateWorld` | data_models/world_state.py:44-53 | an id that no store holds leaves the world as it was |
| `ProtoWorld.UpdateWorldFind` | data_models/world_state.py:44-53 | after an update the id is found exactly when it was before, now as the updated entity, and no store gains or loses a key |
| `ProtoWorld.UpdateWorldOthers` | data_models/world_state.py:44-53 | an update leaves the lookup of every other id unchanged |
| `ProtoWorld.UpdateWorldValid` | data_models/world_state.py:44-53 | an update keeps every entity complete and in the store of its class |
| `ProtoWorld.WorldStateManager.constructor` | data_models/world_state.py:8-12 | a manager starts with three empty stores over the given file |
| `ProtoWorld.WorldStateManager.SaveWorld` | data_models/world_state.py:27-35 | the file afterwards holds the three stores; the stores are unchanged |
| `ProtoWorld.WorldStateManager.LoadWorld` | data_models/world_state.py:15-25 | the stores become what the file holds, a missing file is replaced by the saved current world, and a clean load keeps the stores well typed |
| `ProtoWorld.WorldStateManager.GetEntity` | data_models/world_state.py:37-42 | the loop returns the entity of the first store holding the id, or nothing |
| `ProtoWorld.WorldStateManager.UpdateEntity` | data_models/world_state.py:44-53 | the world becomes the attribute-restricted update of the found entity (nothing changes for an unknown id), the file is not written, and well-typedness is kept |
| `ProtoWorld.WorldStateManager.PutBack` | data_models/world_state.py:39-50 | the updated entity goes back into the store it was found in; the file is not written |
| `ProtoWorld.Open` | data_models/world_state.py:8-25 | opening loads the file; a missing file gives an empty world and a file holding the empty world |

## Left out

- ASCII only: `str.lower` and `[^a-z0-9]` are modelled on ASCII letters; every other character counts as a separator.
- JSON text is not modelled: files hold decoded documents, and `indent`, `ensure_ascii` and encodings play no part.
- In `modules/world_state.py`, a decoded document whose top level is not an object, or whose sections are not lists of records, is not modelled (the source raises there).
- In `data_models/world_state.py`, each section is an object of objects; a section or entry that is present but null, or not an object, is not modelled either (the source raises `AttributeError` or `TypeError` there).
- JSON numbers in the prototype world are integers; floating point is left out.
- `mkdir`, every `print`, and `pprint` are left out.
- The tokenizer, the OpenAI calls, `uuid4`, today's date and `Path.stem` are parameters. A chunk id is `newId(n)` for the `n`-th chunk emitted, which is as distinct as the ids the caller supplies.
- `_analyze_chunk` is left out: its positional merge of two tool calls depends on the shape of the model's reply. Its result is a parameter of `Session.Process`.
- `_apply_deltas` builds and prints records but its upserts are commented out, so the model builds the records and merges nothing into the world state.
- Embedding, Chroma's similarity ranking, `count`, `query` and `add` are left out: the collection is the sequence of stored chunks, and a search result is given as its ranked documents and metadata.
- `page_chunks` and `debug_page` are debugging aids that only query and print, and are left out.
- PyMuPDF is left out: a PDF is its file name, its table of contents and the text lines of each page.
- The four parallel lists of `build_index` (texts, ids, documents, metadata) are one list of chunks, which keeps them parallel by construction.
- `rglob` discovery of PDF files is left out: the PDFs are an input sequence.
- `config.py` is represented only by the three world-state file names and the summary directory, as constants.
- `data_models/world_state.py` uses `Any` without importing it, and `data_models/data_models.py` declares the required `district` after defaulted fields. Both stop the module from importing. The model treats `district` as a required attribute and the update as typed.
- Session.ApplyDeltas, Session.RunOnChunks: an extracted item without the schema-required `name` or `description`, and a `locations`/`npcs`/`factions` list present as JSON null, are not modelled (every item carries both strings and a null list cannot be written). The source raises `KeyError` or `TypeError` there (modules/session_processor.py:122-124, 138, 144-145, 161, 169-170, 183), which stops `process` at line 83 before the recap is written; the failures of `RunOnChunks` are therefore only the missing summary.
- Session.ToLocation, Session.ToNpc, Session.ToFaction: an optional field present as JSON null (region, role, type) is read as absent and takes its default, whereas `item.get(key, default)` returns `None` there (modules/session_processor.py:139, 162, 184).
- `hasattr` is modelled on the dataclass fields of an entity built by `Kind(**v)`. Python's `hasattr` is also true for methods and dunder names, and `setattr` on such a name would add it to `__dict__` and so to the saved file; that case is not modelled.
- The prototype stores are Dafny maps, so the order of Python dict iteration in `save_world` is not modelled. The `WorldStore` dicts do keep insertion order.
- Metadata of a chunk records the PDF file name only, as `pdf_path.name` does; paths are not modelled.
- `data_models/rag_system.py` and `data_models/session_processor.py` are not part of this model: they only wire external libraries and language models together.
