/**
 * The index side of modules/rag_system.py (`RAGSys`): `build_index` chunks
 * every PDF and adds the chunks to the collection in batches of 128, but
 * only when the collection is empty; `search` turns a query result into
 * hits; `ask_gpt` refuses to run without an OpenAI client and otherwise
 * sends the question with the hits formatted as context. The collection
 * is the sequence of chunks added to it; embedding and ranking are outside
 * the model, so a query result is given as the documents and metadata the
 * store returned, and the chat model is a parameter.
 */
module VectorIndex {
  import opened Wrappers
  import opened PyStr
  import opened Rulebook

  /** `len(batch) == 128` triggers a flush. */
  const BatchSize: nat := 128

  // ---------------------------------------------------------------------
  // what build_index adds
  // ---------------------------------------------------------------------

  /** The chunks of every PDF in the order they are scanned; the `k`-th chunk
      over all files gets id `newId(k)`. */
  function AllChunks(pdfs: seq<Pdf>, newId: nat -> string): seq<Chunk> {
    if pdfs == [] then []
    else
      var prev := AllChunks(pdfs[..|pdfs| - 1], newId);
      prev + PdfChunks(pdfs[|pdfs| - 1], |prev|, newId)
  }

  /** The batches cut from `s`: 128 chunks each, the last one possibly
      shorter; none for no chunks. */
  function Batches(s: seq<Chunk>): (bs: seq<seq<Chunk>>)
    ensures forall k :: 0 <= k < |bs| ==> 0 < |bs[k]| <= BatchSize
    ensures forall k :: 0 <= k < |bs| - 1 ==> |bs[k]| == BatchSize
    ensures |bs| == (|s| + BatchSize - 1) / BatchSize
    decreases |s|
  {
    if s == [] then []
    else if |s| <= BatchSize then [s]
    else [s[..BatchSize]] + Batches(s[BatchSize..])
  }

  /** The batches laid end to end. */
  function Flatten(bs: seq<seq<Chunk>>): seq<Chunk> {
    if bs == [] then [] else Flatten(bs[..|bs| - 1]) + bs[|bs| - 1]
  }

  lemma {:induction false} FlattenCons(b: seq<Chunk>, bs: seq<seq<Chunk>>)
    ensures Flatten([b] + bs) == b + Flatten(bs)
    decreases |bs|
  {
    if bs != [] {
      var init := bs[..|bs| - 1];
      assert ([b] + bs)[..|bs|] == [b] + init;
      FlattenCons(b, init);
    }
  }

  /** Batching loses, duplicates and reorders nothing: the batches, laid end
      to end, are the chunks. */
  lemma {:induction false} FlattenBatches(s: seq<Chunk>)
    ensures Flatten(Batches(s)) == s
    decreases |s|
  {
    if |s| > BatchSize {
      FlattenBatches(s[BatchSize..]);
      FlattenCons(s[..BatchSize], Batches(s[BatchSize..]));
      assert s[..BatchSize] + s[BatchSize..] == s;
    } else if s != [] {
      assert [s][..0] == [];
    }
  }

  /** The last batch holds what is left after the full ones: `|s| % 128`
      chunks, or a full 128 when that is zero. */
  lemma {:induction false} LastBatch(s: seq<Chunk>)
    requires s != []
    ensures var bs := Batches(s);
      |bs[|bs| - 1]| == (if |s| % BatchSize == 0 then BatchSize else |s| % BatchSize)
    decreases |s|
  {
    if |s| > BatchSize {
      var rest := s[BatchSize..];
      var br := Batches(rest);
      LastBatch(rest);
      assert br != [] by {
        assert |rest| > 0;
      }
      var bs := [s[..BatchSize]] + br;
      assert Batches(s) == bs;
      assert bs[|bs| - 1] == br[|br| - 1];
      assert |rest| % BatchSize == |s| % BatchSize;
    }
  }

  /** Full batches flushed so far plus the pending `batch` account for
      `done`, the chunks seen so far. */
  ghost predicate BatchInv(done: seq<Chunk>, sent: seq<seq<Chunk>>, batch: seq<Chunk>) {
    && Flatten(sent) + batch == done
    && |batch| < BatchSize
    && forall k :: 0 <= k < |sent| ==> |sent[k]| == BatchSize
  }

  lemma {:induction false} FlattenFull(sent: seq<seq<Chunk>>)
    requires forall k :: 0 <= k < |sent| ==> |sent[k]| == BatchSize
    ensures |Flatten(sent)| == BatchSize * |sent|
    decreases |sent|
  {
    if sent != [] {
      FlattenFull(sent[..|sent| - 1]);
    }
  }

  /** When the loop ends, the full batches flushed inside it and the final
      flush of a non-empty leftover are exactly `Batches(done)`. */
  lemma {:induction false} SentAreBatches(done: seq<Chunk>, sent: seq<seq<Chunk>>, batch: seq<Chunk>)
    requires BatchInv(done, sent, batch)
    ensures Batches(done) == sent + (if batch == [] then [] else [batch])
    decreases |sent|
  {
    if sent == [] {
      assert done == batch;
    } else {
      var rest := sent[1..];
      assert sent == [sent[0]] + rest;
      FlattenCons(sent[0], rest);
      FlattenFull(rest);
      assert done == sent[0] + (Flatten(rest) + batch);
      assert done[..BatchSize] == sent[0];
      assert done[BatchSize..] == Flatten(rest) + batch;
      if |done| == BatchSize {
        assert rest == [] && batch == [];
      } else {
        SentAreBatches(done[BatchSize..], rest, batch);
      }
    }
  }

  /** One more chunk seen: appended to the pending batch, which is flushed
      once it holds 128. */
  lemma {:induction false} BatchStep(done: seq<Chunk>, sent: seq<seq<Chunk>>, batch: seq<Chunk>, c: Chunk)
    requires BatchInv(done, sent, batch)
    ensures |batch + [c]| == BatchSize ==> BatchInv(done + [c], sent + [batch + [c]], [])
    ensures |batch + [c]| < BatchSize ==> BatchInv(done + [c], sent, batch + [c])
  {
    if |batch + [c]| == BatchSize {
      assert (sent + [batch + [c]])[..|sent|] == sent;
    }
  }

  /** One more PDF scanned: its chunks follow those of the PDFs before it,
      numbered on from their count. */
  lemma {:induction false} AllChunksStep(pdfs: seq<Pdf>, i: nat, newId: nat -> string)
    requires i < |pdfs|
    ensures AllChunks(pdfs[..i + 1], newId)
      == AllChunks(pdfs[..i], newId) + PdfChunks(pdfs[i], |AllChunks(pdfs[..i], newId)|, newId)
  {
    assert pdfs[..i + 1][..i] == pdfs[..i];
  }

  // ---------------------------------------------------------------------
  // search and ask_gpt
  // ---------------------------------------------------------------------

  /** One entry of `search`'s result. */
  datatype Hit = Hit(text: string, page: nat, chapter: string, sourcePdf: string)

  /** The hit a stored chunk comes back as. */
  function HitOf(c: Chunk): Hit {
    Hit(c.text, c.meta.page, c.meta.chapter, c.meta.sourcePdf)
  }

  /** `search`'s comprehension over `zip(documents, metadatas)`: as many hits
      as the shorter list, each pairing a document with the metadata at the
      same rank. */
  function ShapeHits(docs: seq<string>, metas: seq<Meta>): (hits: seq<Hit>)
    ensures |hits| == if |docs| <= |metas| then |docs| else |metas|
    ensures forall k :: 0 <= k < |hits| ==>
      hits[k].text == docs[k] && hits[k].page == metas[k].page &&
      hits[k].chapter == metas[k].chapter && hits[k].sourcePdf == metas[k].sourcePdf
  {
    var n := if |docs| <= |metas| then |docs| else |metas|;
    seq(n, k requires 0 <= k < n => Hit(docs[k], metas[k].page, metas[k].chapter, metas[k].sourcePdf))
  }

  function Texts(cs: seq<Chunk>): (ts: seq<string>)
    ensures |ts| == |cs| && forall k :: 0 <= k < |cs| ==> ts[k] == cs[k].text
  {
    seq(|cs|, k requires 0 <= k < |cs| => cs[k].text)
  }

  function Metas(cs: seq<Chunk>): (ms: seq<Meta>)
    ensures |ms| == |cs| && forall k :: 0 <= k < |cs| ==> ms[k] == cs[k].meta
  {
    seq(|cs|, k requires 0 <= k < |cs| => cs[k].meta)
  }

  /** Documents and metadata queried for the same chunks come back as those
      chunks' own hits, in rank order: the parallel lists stay aligned. */
  lemma {:induction false} HitsOfChunks(ranked: seq<Chunk>)
    ensures ShapeHits(Texts(ranked), Metas(ranked)) == seq(|ranked|, k requires 0 <= k < |ranked| => HitOf(ranked[k]))
  {
  }

  /** `f"{source_pdf} [p.{page} – {chapter}]"`, the first line of a context
      entry. */
  function Header(h: Hit): string {
    h.sourcePdf + " [p." + NatToStr(h.page) + " – " + h.chapter + "]"
  }

  /** One context entry: its header line, then the chunk text. */
  function Entry(h: Hit): string {
    Header(h) + "\n" + h.text
  }

  function Entries(hits: seq<Hit>): (es: seq<string>)
    ensures |es| == |hits| && forall k :: 0 <= k < |hits| ==> es[k] == Entry(hits[k])
  {
    seq(|hits|, k requires 0 <= k < |hits| => Entry(hits[k]))
  }

  /** `"\n\n".join(...)` of the entries, in rank order. */
  function Context(hits: seq<Hit>): (ctx: string)
    ensures hits == [] ==> ctx == ""
    ensures |hits| == 1 ==> ctx == Entry(hits[0])
  {
    Join(Entries(hits), "\n\n")
  }

  /** The context grows by a blank line and the next entry per extra hit. */
  lemma {:induction false} ContextAppend(hits: seq<Hit>, h: Hit)
    requires hits != []
    ensures Context(hits + [h]) == Context(hits) + "\n\n" + Entry(h)
  {
    assert Entries(hits + [h]) == Entries(hits) + [Entry(h)];
    JoinAppend(Entries(hits), Entry(h), "\n\n");
  }

  /** Position of the first line break of `s`, or `|s|`. */
  function LineEnd(s: string): (n: nat)
    ensures n <= |s|
    ensures forall k :: 0 <= k < n ==> s[k] != '\n'
    ensures n < |s| ==> s[n] == '\n'
  {
    if s == [] || s[0] == '\n' then 0 else 1 + LineEnd(s[1..])
  }

  /** An entry can be read back: when the file name and the chapter hold no
      line break, the first line is the header, everything after it is the
      chunk text, and the page number in the header parses back. */
  lemma {:induction false} EntryReadBack(h: Hit)
    requires NoNewline(h.sourcePdf) && NoNewline(h.chapter)
    ensures var e := Entry(h); var n := LineEnd(e);
      n < |e| && e[..n] == Header(h) && e[n + 1..] == h.text
    ensures ParseNat(NatToStr(h.page)) == h.page
  {
    var hd := Header(h);
    var e := Entry(h);
    var num := NatToStr(h.page);
    assert hd == h.sourcePdf + (" [p." + num + " – " + h.chapter + "]");
    assert NoNewline(hd) by {
      forall k | 0 <= k < |hd| ensures hd[k] != '\n' {
        if k < |h.sourcePdf| {
          assert hd[k] == h.sourcePdf[k];
        } else if k < |h.sourcePdf| + 4 {
        } else if k < |h.sourcePdf| + 4 + |num| {
          assert hd[k] == num[k - |h.sourcePdf| - 4];
          assert IsDigit(num[k - |h.sourcePdf| - 4]);
        } else if k < |h.sourcePdf| + 4 + |num| + 3 {
        } else if k < |hd| - 1 {
          assert hd[k] == h.chapter[k - |h.sourcePdf| - 4 - |num| - 3];
        }
      }
    }
    LineEndAt(hd, h.text);
    assert e[..|hd|] == hd;
    assert e[|hd| + 1..] == h.text;
    ParseNatToStr(h.page);
  }

  lemma {:induction false} LineEndAt(a: string, b: string)
    requires NoNewline(a)
    ensures LineEnd(a + "\n" + b) == |a|
    decreases |a|
  {
    if a != [] {
      assert (a + "\n" + b)[1..] == a[1..] + "\n" + b;
      LineEndAt(a[1..], b);
    }
  }

  /** The system message of `ask_gpt`. */
  const SystemPrompt: string :=
    "You are a Cyberpunk RED game assistant. Answer the user's question " +
    "using only the official rules. Include relevant citations " +
    "(PDF name, page number, chapter). If the rules are unclear, say so."

  /** The user message of `ask_gpt`: the question, then the rules found. */
  function UserPrompt(query: string, hits: seq<Hit>): (msg: string)
    ensures |query| <= |msg| && msg[..|query|] == query
  {
    query + "\n\nRelevant Rules:\n" + Context(hits)
  }

  const NoClientError: string := "OpenAI key not supplied; can't call ask_gpt()."

  // ---------------------------------------------------------------------
  // the collection
  // ---------------------------------------------------------------------

  /** `RAGSys` with its Chroma collection: `stored` is what was added to it
      (its `count()` is `|stored|`), `flushes` the batches `_flush` sent, in
      order, and `hasClient` whether an OpenAI key was supplied. */
  class RagSys {
    var stored: seq<Chunk>
    var flushes: seq<seq<Chunk>>
    const hasClient: bool

    /** `__init__` over a collection that already holds `stored`. */
    constructor(stored: seq<Chunk>, hasClient: bool)
      ensures this.stored == stored && flushes == [] && this.hasClient == hasClient
    {
      this.stored := stored;
      flushes := [];
      this.hasClient := hasClient;
    }

    /** `_flush`: embed one batch and add it to the collection. */
    method Flush(batch: seq<Chunk>)
      modifies this
      ensures stored == old(stored) + batch
      ensures flushes == old(flushes) + [batch]
    {
      stored := stored + batch;
      flushes := flushes + [batch];
    }

    /** The inner loop of `build_index` over one PDF's chunks: each joins
        the pending batch, and a batch is flushed when it reaches 128. */
    method Enqueue(chunks: seq<Chunk>, batch0: seq<Chunk>, ghost done0: seq<Chunk>,
                   ghost sent0: seq<seq<Chunk>>, ghost before: seq<seq<Chunk>>)
      returns (batch: seq<Chunk>, ghost sent: seq<seq<Chunk>>)
      requires BatchInv(done0, sent0, batch0)
      requires stored == Flatten(sent0) && flushes == before + sent0
      modifies this
      ensures BatchInv(done0 + chunks, sent, batch)
      ensures stored == Flatten(sent) && flushes == before + sent
    {
      batch, sent := batch0, sent0;
      ghost var done := done0;
      for j := 0 to |chunks|
        invariant done == done0 + chunks[..j]
        invariant BatchInv(done, sent, batch)
        invariant stored == Flatten(sent) && flushes == before + sent
      {
        BatchStep(done, sent, batch, chunks[j]);
        assert chunks[..j + 1] == chunks[..j] + [chunks[j]];
        done := done + [chunks[j]];
        batch := batch + [chunks[j]];
        if |batch| == BatchSize {
          Flush(batch);
          sent := sent + [batch];
          batch := [];
        }
      }
      assert chunks[..|chunks|] == chunks;
    }

    /** `build_index`: a populated collection is left alone; an empty one
        receives every chunk of every PDF, in 128-chunk batches. */
    method BuildIndex(pdfs: seq<Pdf>, newId: nat -> string)
      modifies this
      ensures old(stored) != [] ==> stored == old(stored) && flushes == old(flushes)
      ensures old(stored) == [] ==>
        stored == AllChunks(pdfs, newId) && flushes == old(flushes) + Batches(AllChunks(pdfs, newId))
    {
      if |stored| > 0 {
        return;
      }
      ghost var before := flushes;
      ghost var sent: seq<seq<Chunk>> := [];
      var batch: seq<Chunk> := [];
      var made := 0;
      for i := 0 to |pdfs|
        invariant made == |AllChunks(pdfs[..i], newId)|
        invariant BatchInv(AllChunks(pdfs[..i], newId), sent, batch)
        invariant stored == Flatten(sent) && flushes == before + sent
      {
        var chunks := ChunkPdf(pdfs[i], made, newId);
        batch, sent := Enqueue(chunks, batch, AllChunks(pdfs[..i], newId), sent, before);
        AllChunksStep(pdfs, i, newId);
        made := made + |chunks|;
      }
      assert pdfs[..|pdfs|] == pdfs;
      SentAreBatches(AllChunks(pdfs, newId), sent, batch);
      if batch != [] {
        Flush(batch);
        sent := sent + [batch];
      }
    }

    /** `ask_gpt`: without a client it fails before searching; otherwise
        the chat model answers the system message and the question with the
        hits as context. */
    method AskGpt(query: string, docs: seq<string>, metas: seq<Meta>, chat: (string, string) -> string)
      returns (r: Result<string, string>)
      ensures !hasClient ==> r == Failure(NoClientError)
      ensures hasClient ==> r == Success(chat(SystemPrompt, UserPrompt(query, ShapeHits(docs, metas))))
    {
      if !hasClient {
        return Failure(NoClientError);
      }
      var rules := ShapeHits(docs, metas);
      var context := Context(rules);
      r := Success(chat(SystemPrompt, query + "\n\nRelevant Rules:\n" + context));
    }
  }
}
