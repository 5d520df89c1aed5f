/**
 * The `docling_convert` component: which PDFs a worker converts, and the loop
 * `process_and_insert_embeddings` that turns each converted document into chunks,
 * embeds them and inserts them into the vector store. Docling's converter and chunker,
 * the tokenizer, the embedding model, `uuid4` and the store are collaborators the
 * model receives as functions (`Oracles`) or as the sequence of conversion results.
 */
module DoclingConvert {
  import opened Wrappers
  import opened Text
  import opened JsonDumps
  import DoclingPipeline

  // ----- the inputs of a worker -----

  /** A file under the input directory: its path relative to that directory and its size in bytes. */
  datatype Entry = Entry(path: string, size: nat)

  function Paths(es: seq<Entry>): (ps: seq<string>)
    ensures |ps| == |es| && forall k :: 0 <= k < |es| ==> ps[k] == es[k].path
  {
    seq(|es|, k requires 0 <= k < |es| => es[k].path)
  }

  /** `rglob("*.pdf")` keeps a path whose base name ends in ".pdf", in lower case only. */
  predicate GlobPdf(p: string) {
    var n := DoclingPipeline.BaseName(p);
    |n| >= 4 && n[|n| - 4..] == ".pdf"
  }

  predicate NonEmptyPdf(e: Entry) {
    GlobPdf(e.path) && e.size > 0
  }

  const NoValidPdfs: string := "RuntimeError: No valid PDFs found in input_path for processing."

  /**
   * The PDFs a worker hands to the converter: every non-empty `*.pdf` under the input
   * directory, in listing order, or the `RuntimeError` when there is none. The worker's
   * `pdf_split` argument is accepted and never read.
   */
  function ConvertInputs(listing: seq<Entry>, pdfSplit: seq<string>): (r: Result<seq<string>, string>)
    ensures r.Success? ==> r.value != []
  {
    var inputs := Paths(DoclingPipeline.Filter(listing, NonEmptyPdf));
    if inputs == [] then Failure(NoValidPdfs) else Success(inputs)
  }

  /** What a worker converts does not depend on the split it was given. */
  lemma ConvertInputsIgnoreSplit(listing: seq<Entry>, a: seq<string>, b: seq<string>)
    ensures ConvertInputs(listing, a) == ConvertInputs(listing, b)
  {
  }

  /** A path is converted exactly when some listed entry under it is a non-empty `*.pdf`. */
  lemma ConvertInputsMembers(listing: seq<Entry>, pdfSplit: seq<string>, p: string)
    ensures (ConvertInputs(listing, pdfSplit).Success? && p in ConvertInputs(listing, pdfSplit).value)
        <==> exists e :: e in listing && e.path == p && NonEmptyPdf(e)
  {
    var kept := DoclingPipeline.Filter(listing, NonEmptyPdf);
    forall e | e in listing && e.path == p && NonEmptyPdf(e)
      ensures p in Paths(kept)
    {
      DoclingPipeline.FilterMembers(listing, NonEmptyPdf, e);
      var k :| 0 <= k < |kept| && kept[k] == e;
      assert Paths(kept)[k] == p;
    }
    if p in Paths(kept) {
      var k :| 0 <= k < |kept| && Paths(kept)[k] == p;
      DoclingPipeline.FilterMembers(listing, NonEmptyPdf, kept[k]);
    }
  }

  /**
   * Every worker converts every PDF: when the listing holds at least two non-empty PDFs
   * and `num_workers` is at least 2, there are at least two splits, and each split's
   * worker is handed the whole listing, so every document is converted and inserted
   * once per worker.
   */
  lemma EveryWorkerConvertsEverything(listing: seq<Entry>, k: int, i: nat)
    requires forall j :: 0 <= j < |listing| ==> NonEmptyPdf(listing[j]) && DoclingPipeline.IsPdfPath(listing[j].path)
    requires k >= 2 && |listing| >= 2
    ensures var splits := DoclingPipeline.CreatePdfSplits(Paths(listing), k);
      && |splits| >= 2
      && (i < |splits| ==> ConvertInputs(listing, splits[i]) == Success(Paths(listing)))
  {
    var names := Paths(listing);
    DoclingPipeline.FilterAll(names, DoclingPipeline.IsPdfPath);
    DoclingPipeline.FilterAll(listing, NonEmptyPdf);
    DoclingPipeline.RoundRobinShape(names, k);
  }

  /** A plain name ending in ".PDF" is split off as a PDF but never globbed by its worker. */
  lemma UpperCasePdfNotGlobbed(n: string)
    requires '/' !in n && |n| >= 5 && n[|n| - 4..] == ".PDF"
    ensures DoclingPipeline.IsPdfPath(n) && !GlobPdf(n)
  {
    DoclingPipeline.BaseNameNoSlash(n);
    DoclingPipeline.PdfSuffix(n);
    var l := LowerAscii(n[|n| - 4..]);
    assert l[0] == '.' && l[1] == 'p' && l[2] == 'd' && l[3] == 'f';
  }

  /** A file named just ".pdf" is globbed and converted but never split off, having no suffix. */
  lemma BareSuffixNotSplit(n: string)
    requires n == ".pdf"
    ensures !DoclingPipeline.IsPdfPath(n) && GlobPdf(n)
  {
    DoclingPipeline.BaseNameNoSlash(n);
    DoclingPipeline.PdfSuffix(n);
  }

  /**
   * The inputs a worker would convert if it honoured its split: the non-empty listed
   * files whose relative path is in the split, in listing order.
   */
  predicate InSplitNonEmpty(split: seq<string>, e: Entry) {
    e.path in split && e.size > 0
  }

  function SplitInputs(listing: seq<Entry>, pdfSplit: seq<string>): (r: Result<seq<string>, string>)
    ensures r.Success? ==> r.value != []
  {
    var inputs := Paths(DoclingPipeline.Filter(listing, e => InSplitNonEmpty(pdfSplit, e)));
    if inputs == [] then Failure(NoValidPdfs) else Success(inputs)
  }

  lemma SplitInputsMembers(listing: seq<Entry>, pdfSplit: seq<string>, p: string)
    ensures (SplitInputs(listing, pdfSplit).Success? && p in SplitInputs(listing, pdfSplit).value)
        <==> p in pdfSplit && exists e :: e in listing && e.path == p && e.size > 0
  {
    var keep := (e: Entry) => InSplitNonEmpty(pdfSplit, e);
    var kept := DoclingPipeline.Filter(listing, keep);
    forall e | e in listing && e.path == p && p in pdfSplit && e.size > 0
      ensures p in Paths(kept)
    {
      DoclingPipeline.FilterMembers(listing, keep, e);
      var k :| 0 <= k < |kept| && kept[k] == e;
      assert Paths(kept)[k] == p;
    }
    if p in Paths(kept) {
      var k :| 0 <= k < |kept| && Paths(kept)[k] == p;
      DoclingPipeline.FilterMembers(listing, keep, kept[k]);
    }
  }

  lemma {:induction false} FilterDistinct<T>(xs: seq<T>, keep: T -> bool)
    requires DoclingPipeline.Distinct(xs)
    ensures DoclingPipeline.Distinct(DoclingPipeline.Filter(xs, keep))
    decreases |xs|
  {
    if xs != [] {
      var prefix := xs[..|xs| - 1];
      var last := xs[|xs| - 1];
      FilterDistinct(prefix, keep);
      if keep(last) {
        DoclingPipeline.FilterMembers(prefix, keep, last);
      }
    }
  }

  lemma PositionOf<T>(xs: seq<T>, x: T) returns (p: nat)
    requires x in xs
    ensures p < |xs| && xs[p] == x
  {
    p :| 0 <= p < |xs| && xs[p] == x;
  }

  /** The worker raises its `RuntimeError` exactly when no listed entry is a non-empty `*.pdf`. */
  lemma NoValidPdfsIff(listing: seq<Entry>, pdfSplit: seq<string>)
    ensures ConvertInputs(listing, pdfSplit).Failure? <==> forall e :: e in listing ==> !NonEmptyPdf(e)
  {
    var kept := DoclingPipeline.Filter(listing, NonEmptyPdf);
    if kept != [] {
      DoclingPipeline.FilterMembers(listing, NonEmptyPdf, kept[0]);
    }
    forall e | e in listing && NonEmptyPdf(e)
      ensures kept != []
    {
      DoclingPipeline.FilterMembers(listing, NonEmptyPdf, e);
    }
  }

  /** A listed PDF sits in the split round-robin assigns it to. */
  lemma AssignedSplit(listing: seq<Entry>, k: int, e: Entry) returns (w: nat, u: nat)
    requires k >= 1 && e in listing && DoclingPipeline.IsPdfPath(e.path)
    ensures var splits := DoclingPipeline.CreatePdfSplits(Paths(listing), k);
      w < |splits| && u < |splits[w]| && splits[w][u] == e.path
  {
    var names := Paths(listing);
    var xs := DoclingPipeline.DiscoveredPdfs(names);
    assert e.path in names;
    DoclingPipeline.FilterMembers(names, DoclingPipeline.IsPdfPath, e.path);
    var p := PositionOf(xs, e.path);
    DoclingPipeline.RoundRobinPosition(xs, k, p);
    w, u := DivMod(p, k);
  }

  lemma DivMod(p: nat, k: int) returns (w: nat, u: nat)
    requires k >= 1
    ensures w == p % k && u == p / k
  {
    w, u := p % k, p / k;
  }

  /** With distinct listed paths, a path is in no split but its own. */
  lemma OnlyAssignedSplit(listing: seq<Entry>, k: int, w: nat, u: nat, i: nat)
    requires k >= 1 && DoclingPipeline.Distinct(Paths(listing))
    requires var splits := DoclingPipeline.CreatePdfSplits(Paths(listing), k);
      w < |splits| && u < |splits[w]| && i < |splits| && splits[w][u] in splits[i]
    ensures i == w
  {
    var names := Paths(listing);
    var xs := DoclingPipeline.DiscoveredPdfs(names);
    var splits := DoclingPipeline.CreatePdfSplits(names, k);
    FilterDistinct(names, DoclingPipeline.IsPdfPath);
    var v := PositionOf(splits[i], splits[w][u]);
    DoclingPipeline.RoundRobinDisjoint(xs, k, i, w, v, u);
  }

  /**
   * With workers honouring their splits, every non-empty PDF of a listing with distinct
   * paths is converted by exactly one worker: the one round-robin assigns it to.
   */
  lemma SplitWorkersConvertEachOnce(listing: seq<Entry>, k: int, e: Entry) returns (w: nat)
    requires k >= 1 && DoclingPipeline.Distinct(Paths(listing))
    requires e in listing && DoclingPipeline.IsPdfPath(e.path) && e.size > 0
    ensures var splits := DoclingPipeline.CreatePdfSplits(Paths(listing), k);
      && w < |splits|
      && SplitInputs(listing, splits[w]).Success? && e.path in SplitInputs(listing, splits[w]).value
      && forall i :: 0 <= i < |splits| && i != w ==>
           !(SplitInputs(listing, splits[i]).Success? && e.path in SplitInputs(listing, splits[i]).value)
  {
    var splits := DoclingPipeline.CreatePdfSplits(Paths(listing), k);
    var u;
    w, u := AssignedSplit(listing, k, e);
    SplitInputsMembers(listing, splits[w], e.path);
    forall i | 0 <= i < |splits| && i != w
      ensures !(SplitInputs(listing, splits[i]).Success? && e.path in SplitInputs(listing, splits[i]).value)
    {
      SplitInputsMembers(listing, splits[i], e.path);
      if e.path in splits[i] {
        OnlyAssignedSplit(listing, k, w, u, i);
      }
    }
  }

  // ----- the per-document loop -----

  /** Docling's `ConversionStatus`. */
  datatype ConversionStatus = Pending | Started | StatusFailure | StatusSuccess | PartialSuccess | StatusSkipped

  /**
   * A conversion result: the stem of its input file, its status, and its document as the
   * chunker splits it — `None` for a null chunk, else the chunk's contextualised text.
   */
  datatype ConvResult = ConvResult(stem: string, status: ConversionStatus, document: Option<seq<Option<string>>>)

  /** One step of iterating `convert_all(..., raises_on_error=True)`: a result, or the error it raises. */
  datatype ConvItem = Converted(result: ConvResult) | ConversionError(message: string)

  /**
   * The collaborators: `embed` is the normalised embedding of a text (`None` when encoding
   * raises), `countTokens` the tokenizer's count, `newId(n)` the `n`-th `uuid4` drawn by the
   * worker, and `embeddingDim` the local model's sentence-embedding dimension.
   */
  datatype Oracles = Oracles(embed: string -> Option<seq<real>>, countTokens: string -> nat,
                             newId: nat -> string, embeddingDim: nat)

  /** `metadata_obj`; the stored chunk's `chunk_metadata` and `metadata` are this one dict. */
  datatype Metadata = Metadata(chunkId: string, documentId: string, fileName: string, tokenCount: nat,
                               metadataTokenCount: nat)

  datatype StoredChunk = StoredChunk(chunkId: string, content: string, mimeType: string, embedding: seq<real>,
                                     metadata: Metadata)

  datatype InsertCall = InsertCall(vectorDbId: string, chunks: seq<StoredChunk>)

  const MimeType: string := "text/markdown"

  /**
   * `json.dumps` of the metadata before its own token count is added: the four keys in
   * insertion order, written with the default separators.
   */
  function MetadataJson(chunkId: string, fileName: string, tokenCount: nat): string {
    KeyChunkId + Quote(chunkId) + KeyDocumentId + Quote(fileName)
      + KeyFileName + Quote(fileName) + KeyTokenCount + NatToString(tokenCount) + CloseBrace
  }

  /** The fixed text of `MetadataJson` around its three values. */
  const KeyChunkId: string := "{\"chunk_id\": "
  const KeyDocumentId: string := ", \"document_id\": "
  const KeyFileName: string := ", \"file_name\": "
  const KeyTokenCount: string := ", \"token_count\": "
  const CloseBrace: string := "}"

  lemma FixedTextAscii()
    ensures AllPrintableAscii(KeyChunkId) && AllPrintableAscii(KeyDocumentId) && AllPrintableAscii(KeyFileName)
    ensures AllPrintableAscii(KeyTokenCount) && AllPrintableAscii(CloseBrace)
  {
  }

  /** With `ensure_ascii` the metadata text is printable ASCII, whatever the stem holds. */
  lemma MetadataJsonAscii(chunkId: string, fileName: string, tokenCount: nat)
    ensures AllPrintableAscii(MetadataJson(chunkId, fileName, tokenCount))
  {
    var q1, q2, n := Quote(chunkId), Quote(fileName), NatToString(tokenCount);
    NatToStringAscii(tokenCount);
    QuoteAscii(chunkId);
    QuoteAscii(fileName);
    FixedTextAscii();
    AsciiConcat(KeyChunkId, q1);
    var a := KeyChunkId + q1;
    AsciiConcat(a, KeyDocumentId);
    AsciiConcat(a + KeyDocumentId, q2);
    var b := a + KeyDocumentId + q2;
    AsciiConcat(b, KeyFileName);
    AsciiConcat(b + KeyFileName, q2);
    var c := b + KeyFileName + q2;
    AsciiConcat(c, KeyTokenCount);
    AsciiConcat(c + KeyTokenCount, n);
    AsciiConcat(c + KeyTokenCount + n, CloseBrace);
  }

  /** A chunk is kept when it is not null, its text is not blank, and it embeds to a vector of the model's dimension. */
  predicate Keeps(o: Oracles, c: Option<string>) {
    c.Some? && !AllSpace(c.value) && o.embed(c.value).Some? && |o.embed(c.value).value| == o.embeddingDim
  }

  /** The record appended for a kept chunk. */
  function MakeChunk(o: Oracles, fileName: string, text: string, id: string): StoredChunk
    requires o.embed(text).Some?
  {
    var n := o.countTokens(text);
    StoredChunk(id, text, MimeType, o.embed(text).value,
                Metadata(id, fileName, fileName, n, o.countTokens(MetadataJson(id, fileName, n))))
  }

  /** `chunks_with_embedding` for one document, its ids drawn from `newId(next)` on. */
  function ChunksWithEmbedding(o: Oracles, fileName: string, chunks: seq<Option<string>>, next: nat): seq<StoredChunk>
  {
    if chunks == [] then []
    else
      var prev := ChunksWithEmbedding(o, fileName, chunks[..|chunks| - 1], next);
      var c := chunks[|chunks| - 1];
      if Keeps(o, c) then prev + [MakeChunk(o, fileName, c.value, o.newId(next + |prev|))] else prev
  }

  /** The texts of the chunks `Keeps` accepts, in order. */
  function KeptTexts(o: Oracles, chunks: seq<Option<string>>): seq<string> {
    if chunks == [] then []
    else
      var c := chunks[|chunks| - 1];
      KeptTexts(o, chunks[..|chunks| - 1]) + (if Keeps(o, c) then [c.value] else [])
  }

  /** The sanity check of lines 234-241 for one record. */
  predicate IsValidChunk(o: Oracles, c: StoredChunk) {
    |c.embedding| == o.embeddingDim && !AllSpace(c.content)
  }

  function ValidChunks(o: Oracles, cs: seq<StoredChunk>): seq<StoredChunk> {
    DoclingPipeline.Filter(cs, c => IsValidChunk(o, c))
  }

  /** The worker's running state: documents counted, insert calls made, ids drawn. */
  datatype WorkerState = WorkerState(processedDocs: nat, inserts: seq<InsertCall>, idsDrawn: nat)

  /** The state after the loop, and the conversion error that ended it early, if one did. */
  datatype WorkerRun = WorkerRun(state: WorkerState, error: Option<string>)

  predicate Usable(r: ConvResult) {
    r.status == StatusSuccess && r.document.Some?
  }

  /** One iteration of the outer loop on a result. */
  function Step(o: Oracles, vectorDbId: string, st: WorkerState, r: ConvResult): WorkerState {
    if !Usable(r) then st
    else
      var kept := ChunksWithEmbedding(o, r.stem, r.document.value, st.idsDrawn);
      var valid := ValidChunks(o, kept);
      WorkerState(st.processedDocs + 1,
                  if valid == [] then st.inserts else st.inserts + [InsertCall(vectorDbId, valid)],
                  st.idsDrawn + |kept|)
  }

  /** `process_and_insert_embeddings` over the items the converter yields. */
  function Run(o: Oracles, vectorDbId: string, items: seq<ConvItem>): WorkerRun {
    if items == [] then WorkerRun(WorkerState(0, [], 0), None)
    else
      var prev := Run(o, vectorDbId, items[..|items| - 1]);
      if prev.error.Some? then prev
      else
        match items[|items| - 1]
        case ConversionError(m) => WorkerRun(prev.state, Some(m))
        case Converted(r) => WorkerRun(Step(o, vectorDbId, prev.state, r), None)
  }

  /** One more chunk: the records so far, and one more when `Keeps` accepts it. */
  lemma ChunksStep(o: Oracles, fileName: string, chunks: seq<Option<string>>, i: nat, next: nat)
    requires i < |chunks|
    ensures var prev := ChunksWithEmbedding(o, fileName, chunks[..i], next);
      ChunksWithEmbedding(o, fileName, chunks[..i + 1], next)
        == if Keeps(o, chunks[i]) then prev + [MakeChunk(o, fileName, chunks[i].value, o.newId(next + |prev|))] else prev
  {
    assert chunks[..i + 1][..i] == chunks[..i];
  }

  /** The inner loop of lines 188-231. */
  method ChunkDocument(o: Oracles, fileName: string, chunks: seq<Option<string>>, next: nat)
    returns (kept: seq<StoredChunk>)
    ensures kept == ChunksWithEmbedding(o, fileName, chunks, next)
  {
    kept := [];
    for i := 0 to |chunks|
      invariant kept == ChunksWithEmbedding(o, fileName, chunks[..i], next)
    {
      ChunksStep(o, fileName, chunks, i, next);
      var c := chunks[i];
      if c.None? {
        continue;
      }
      var rawChunk := c.value;
      if rawChunk == [] || AllSpace(rawChunk) {
        continue;
      }
      var embedding := o.embed(rawChunk);
      if embedding.None? {
        continue;
      }
      if |embedding.value| != o.embeddingDim {
        continue;
      }
      var chunkId := o.newId(next + |kept|);
      kept := kept + [MakeChunk(o, fileName, rawChunk, chunkId)];
    }
    assert chunks[..|chunks|] == chunks;
  }

  /**
   * `process_and_insert_embeddings`, with `insertRaises(n)` saying whether the `n`-th insert
   * call raises. A raised insert is only logged, so the run is the same whatever the store
   * does; `failedInserts` lists the calls that raised.
   */
  method ProcessAndInsertEmbeddings(o: Oracles, vectorDbId: string, items: seq<ConvItem>, insertRaises: nat -> bool)
    returns (run: WorkerRun, failedInserts: seq<nat>)
    ensures run == Run(o, vectorDbId, items)
    ensures forall n: nat :: n in failedInserts <==> n < |run.state.inserts| && insertRaises(n)
  {
    var processedDocs: nat := 0;
    var inserts: seq<InsertCall> := [];
    var idsDrawn: nat := 0;
    failedInserts := [];
    var i := 0;
    while i < |items|
      invariant i <= |items|
      invariant Run(o, vectorDbId, items[..i]) == WorkerRun(WorkerState(processedDocs, inserts, idsDrawn), None)
      invariant forall n: nat :: n in failedInserts <==> n < |inserts| && insertRaises(n)
    {
      assert items[..i + 1][..i] == items[..i];
      match items[i]
      case ConversionError(m) =>
        run := WorkerRun(WorkerState(processedDocs, inserts, idsDrawn), Some(m));
        ProcessedPrefixStops(o, vectorDbId, items, i + 1);
        return;
      case Converted(r) =>
        if r.status != StatusSuccess || r.document.None? {
          i := i + 1;
          continue;
        }
        processedDocs := processedDocs + 1;
        var kept := ChunkDocument(o, r.stem, r.document.value, idsDrawn);
        idsDrawn := idsDrawn + |kept|;
        var valid := ValidChunks(o, kept);
        if valid != [] {
          if insertRaises(|inserts|) {
            failedInserts := failedInserts + [|inserts|];
          }
          inserts := inserts + [InsertCall(vectorDbId, valid)];
        }
      i := i + 1;
    }
    run := WorkerRun(WorkerState(processedDocs, inserts, idsDrawn), None);
    assert items[..|items|] == items;
  }

  /** Once an error has ended the run, later items change nothing. */
  lemma {:induction false} ProcessedPrefixStops(o: Oracles, vectorDbId: string, items: seq<ConvItem>, n: nat)
    requires n <= |items| && Run(o, vectorDbId, items[..n]).error.Some?
    ensures Run(o, vectorDbId, items) == Run(o, vectorDbId, items[..n])
    decreases |items| - n
  {
    if n < |items| {
      assert items[..n + 1][..n] == items[..n];
      ProcessedPrefixStops(o, vectorDbId, items, n + 1);
    } else {
      assert items[..n] == items;
    }
  }

  // ----- what the loop guarantees -----

  /** The k-th record of a document is built from the k-th accepted text with the id `newId(next + k)`. */
  lemma {:induction false} ChunksAreKeptTexts(o: Oracles, fileName: string, chunks: seq<Option<string>>, next: nat)
    ensures var kept := ChunksWithEmbedding(o, fileName, chunks, next); var texts := KeptTexts(o, chunks);
      && |kept| == |texts|
      && forall k :: 0 <= k < |texts| ==>
           Keeps(o, Some(texts[k])) && kept[k] == MakeChunk(o, fileName, texts[k], o.newId(next + k))
    decreases |chunks|
  {
    if chunks != [] {
      ChunksAreKeptTexts(o, fileName, chunks[..|chunks| - 1], next);
    }
  }

  /** A text is accepted exactly when the document has a chunk with that text that `Keeps` accepts. */
  lemma {:induction false} KeptTextsMembers(o: Oracles, chunks: seq<Option<string>>, t: string)
    ensures t in KeptTexts(o, chunks) <==> Some(t) in chunks && Keeps(o, Some(t))
    decreases |chunks|
  {
    if chunks != [] {
      var prefix := chunks[..|chunks| - 1];
      KeptTextsMembers(o, prefix, t);
      assert chunks == prefix + [chunks[|chunks| - 1]];
    }
  }

  /**
   * Every record kept for a document carries an embedding of the model's dimension and a
   * non-blank text, and its metadata repeats its id, names the document's stem as both
   * document id and file name, counts the text's tokens, and counts the tokens of the
   * metadata's JSON taken before that last count was added.
   */
  lemma KeptChunkFields(o: Oracles, fileName: string, chunks: seq<Option<string>>, next: nat, k: nat)
    requires k < |ChunksWithEmbedding(o, fileName, chunks, next)|
    ensures var c := ChunksWithEmbedding(o, fileName, chunks, next)[k]; var m := c.metadata;
      && |c.embedding| == o.embeddingDim && !AllSpace(c.content) && c.mimeType == MimeType
      && o.embed(c.content) == Some(c.embedding)
      && c.chunkId == o.newId(next + k) && m.chunkId == c.chunkId
      && m.documentId == fileName && m.fileName == fileName
      && m.tokenCount == o.countTokens(c.content)
      && m.metadataTokenCount == o.countTokens(MetadataJson(c.chunkId, fileName, m.tokenCount))
  {
    ChunksAreKeptTexts(o, fileName, chunks, next);
  }

  /** The sanity filter of lines 234-241 removes nothing: every record already passed those checks. */
  lemma SanityFilterKeepsAll(o: Oracles, fileName: string, chunks: seq<Option<string>>, next: nat)
    ensures var kept := ChunksWithEmbedding(o, fileName, chunks, next); ValidChunks(o, kept) == kept
  {
    var kept := ChunksWithEmbedding(o, fileName, chunks, next);
    forall k | 0 <= k < |kept|
      ensures IsValidChunk(o, kept[k])
    {
      KeptChunkFields(o, fileName, chunks, next, k);
    }
    DoclingPipeline.FilterAll(kept, c => IsValidChunk(o, c));
  }

  /** A result that failed to convert, or converted to no document, changes nothing, not even the count. */
  lemma RunSkipsUnusable(o: Oracles, vectorDbId: string, items: seq<ConvItem>, r: ConvResult)
    requires !Usable(r)
    ensures Run(o, vectorDbId, items + [Converted(r)]) == Run(o, vectorDbId, items)
  {
    assert (items + [Converted(r)])[..|items|] == items;
  }

  /**
   * A usable result is counted; it draws one id per accepted chunk; and it makes exactly
   * one insert call, of all its records, when it has any and none otherwise.
   */
  lemma RunUsableDocument(o: Oracles, vectorDbId: string, items: seq<ConvItem>, r: ConvResult)
    requires Usable(r) && Run(o, vectorDbId, items).error.None?
    ensures var st := Run(o, vectorDbId, items).state;
      var st' := Run(o, vectorDbId, items + [Converted(r)]).state;
      var kept := ChunksWithEmbedding(o, r.stem, r.document.value, st.idsDrawn);
      && Run(o, vectorDbId, items + [Converted(r)]).error.None?
      && st'.processedDocs == st.processedDocs + 1
      && |kept| == |KeptTexts(o, r.document.value)|
      && st'.idsDrawn == st.idsDrawn + |kept|
      && st'.inserts == if kept == [] then st.inserts else st.inserts + [InsertCall(vectorDbId, kept)]
  {
    var st := Run(o, vectorDbId, items).state;
    assert (items + [Converted(r)])[..|items|] == items;
    SanityFilterKeepsAll(o, r.stem, r.document.value, st.idsDrawn);
    ChunksAreKeptTexts(o, r.stem, r.document.value, st.idsDrawn);
  }

  /** A conversion error ends the run: later results are never looked at, and the state is the one before the error. */
  lemma RunStopsAtError(o: Oracles, vectorDbId: string, items: seq<ConvItem>, m: string, more: seq<ConvItem>)
    requires Run(o, vectorDbId, items).error.None?
    ensures Run(o, vectorDbId, items + [ConversionError(m)] + more) == WorkerRun(Run(o, vectorDbId, items).state, Some(m))
  {
    var all := items + [ConversionError(m)] + more;
    var n := |items| + 1;
    assert all[..n] == items + [ConversionError(m)];
    assert all[..n][..n - 1] == items;
    ProcessedPrefixStops(o, vectorDbId, all, n);
  }

  /** Every record of every insert call, in call order. */
  function Inserted(calls: seq<InsertCall>): seq<StoredChunk> {
    if calls == [] then [] else Inserted(calls[..|calls| - 1]) + calls[|calls| - 1].chunks
  }

  /** The records inserted so far carry the ids `newId(0)`, `newId(1)`, ... in order, one per id drawn. */
  predicate IdsInOrder(o: Oracles, st: WorkerState) {
    var all := Inserted(st.inserts);
    |all| == st.idsDrawn && forall j :: 0 <= j < |all| ==> all[j].chunkId == o.newId(j)
  }

  /** The k-th record of a document has the id `newId(next + k)`. */
  lemma KeptIds(o: Oracles, fileName: string, chunks: seq<Option<string>>, next: nat)
    ensures var kept := ChunksWithEmbedding(o, fileName, chunks, next);
      forall k :: 0 <= k < |kept| ==> kept[k].chunkId == o.newId(next + k)
  {
    ChunksAreKeptTexts(o, fileName, chunks, next);
  }

  lemma AppendIds(o: Oracles, all: seq<StoredChunk>, kept: seq<StoredChunk>)
    requires forall j :: 0 <= j < |all| ==> all[j].chunkId == o.newId(j)
    requires forall k :: 0 <= k < |kept| ==> kept[k].chunkId == o.newId(|all| + k)
    ensures forall j :: 0 <= j < |all + kept| ==> (all + kept)[j].chunkId == o.newId(j)
  {
    forall j | |all| <= j < |all + kept|
      ensures (all + kept)[j].chunkId == o.newId(j)
    {
      assert (all + kept)[j] == kept[j - |all|];
    }
  }

  lemma StepKeepsIdsInOrder(o: Oracles, vectorDbId: string, st: WorkerState, r: ConvResult)
    requires IdsInOrder(o, st)
    ensures IdsInOrder(o, Step(o, vectorDbId, st, r))
  {
    if Usable(r) {
      var kept := ChunksWithEmbedding(o, r.stem, r.document.value, st.idsDrawn);
      SanityFilterKeepsAll(o, r.stem, r.document.value, st.idsDrawn);
      KeptIds(o, r.stem, r.document.value, st.idsDrawn);
      if kept != [] {
        var calls := st.inserts + [InsertCall(vectorDbId, kept)];
        assert calls[..|calls| - 1] == st.inserts;
        AppendIds(o, Inserted(st.inserts), kept);
      }
    }
  }

  /**
   * The records inserted over the whole run carry the ids `newId(0)`, `newId(1)`, ... in
   * order, one per id drawn: no id is drawn for a record that is not inserted.
   */
  lemma {:induction false} InsertedIds(o: Oracles, vectorDbId: string, items: seq<ConvItem>)
    ensures IdsInOrder(o, Run(o, vectorDbId, items).state)
    decreases |items|
  {
    if items != [] {
      var prefix := items[..|items| - 1];
      InsertedIds(o, vectorDbId, prefix);
      var prev := Run(o, vectorDbId, prefix);
      if prev.error.None? && items[|items| - 1].Converted? {
        StepKeepsIdsInOrder(o, vectorDbId, prev.state, items[|items| - 1].result);
      }
    }
  }

  /** With a `uuid4` that never repeats itself, no two inserted records share an id. */
  lemma InsertedIdsDistinct(o: Oracles, vectorDbId: string, items: seq<ConvItem>, i: nat, j: nat)
    requires forall a: nat, b: nat :: a != b ==> o.newId(a) != o.newId(b)
    requires var all := Inserted(Run(o, vectorDbId, items).state.inserts); i < j < |all|
    ensures var all := Inserted(Run(o, vectorDbId, items).state.inserts); all[i].chunkId != all[j].chunkId
  {
    InsertedIds(o, vectorDbId, items);
  }

  /**
   * `docling_convert` as a whole: the `RuntimeError` when there is nothing to convert,
   * otherwise the worker loop over what the converter yields for the inputs, which ends
   * in the converter's error when one is raised.
   */
  function DoclingConvertRun(o: Oracles, vectorDbId: string, listing: seq<Entry>, pdfSplit: seq<string>,
                             convert: seq<string> -> seq<ConvItem>): (r: Result<WorkerRun, string>)
    ensures r.Failure? <==> forall e :: e in listing ==> !NonEmptyPdf(e)
    ensures r.Failure? ==> r.error == NoValidPdfs
  {
    NoValidPdfsIff(listing, pdfSplit);
    match ConvertInputs(listing, pdfSplit)
    case Failure(e) => Failure(e)
    case Success(inputs) => Success(Run(o, vectorDbId, convert(inputs)))
  }

  /**
   * `docling_convert` with the worker honouring its split: the same loop over what the
   * converter yields for `SplitInputs`, so each worker converts only its own PDFs.
   */
  function SplitConvertRun(o: Oracles, vectorDbId: string, listing: seq<Entry>, pdfSplit: seq<string>,
                           convert: seq<string> -> seq<ConvItem>): (r: Result<WorkerRun, string>)
    ensures r.Failure? <==> forall e :: e in listing ==> !InSplitNonEmpty(pdfSplit, e)
    ensures r.Failure? ==> r.error == NoValidPdfs
  {
    SplitInputsFailure(listing, pdfSplit);
    match SplitInputs(listing, pdfSplit)
    case Failure(e) => Failure(e)
    case Success(inputs) => Success(Run(o, vectorDbId, convert(inputs)))
  }

  /** A worker honouring its split raises exactly when none of its split's files is a non-empty listed file. */
  lemma SplitInputsFailure(listing: seq<Entry>, pdfSplit: seq<string>)
    ensures SplitInputs(listing, pdfSplit).Failure? <==> forall e :: e in listing ==> !InSplitNonEmpty(pdfSplit, e)
  {
    var keep := (e: Entry) => InSplitNonEmpty(pdfSplit, e);
    var kept := DoclingPipeline.Filter(listing, keep);
    if kept != [] {
      DoclingPipeline.FilterMembers(listing, keep, kept[0]);
    }
    forall e | e in listing && keep(e)
      ensures kept != []
    {
      DoclingPipeline.FilterMembers(listing, keep, e);
    }
  }
}
