/** The offline ingestion script, scripts/ingest_sops.py: load every PDF and
    DOCX file of the raw-SOP directory, split the documents into chunks, and
    rebuild the persisted vector store from scratch with them. The directory
    listing, the two loaders and the text splitter are parameters; the
    embedding-model check is a flag saying whether it succeeded (when it does
    not, the process exits). */
module Ingestion {
  import opened Wrappers
  import opened Text
  import opened Documents

  const RawSopPath := "data/raw_sops/"
  const ChunkSize := 500
  const ChunkOverlap := 100

  /** The two LangChain loaders the script dispatches to. */
  datatype Loader = PdfLoader | DocxLoader

  /** How the script ended: the embedding model was unreachable (`exit(1)`),
      there was nothing to ingest, or the store was rebuilt. */
  datatype IngestOutcome = ModelUnavailable | NoDocuments | Ingested(documentCount: nat, chunkCount: nat)

  /** The store operations, in the order they were performed. */
  datatype StoreEvent = Removed | Opened | Added(chunks: seq<Document>) | Persisted

  /** The extension dispatch: `.pdf`, else `.docx`, else skipped. The test is
      case-sensitive. */
  function LoaderFor(filename: string): (loader: Option<Loader>)
    ensures loader.Some? ==> EndsWith(filename, ".pdf") || EndsWith(filename, ".docx")
  {
    if EndsWith(filename, ".pdf") then Some(PdfLoader)
    else if EndsWith(filename, ".docx") then Some(DocxLoader)
    else None
  }

  /** `os.path.join(directory, filename)` on POSIX paths. */
  function PathJoin(directory: string, filename: string): string
  {
    if |filename| > 0 && filename[0] == '/' then filename
    else if directory == "" || directory[|directory| - 1] == '/' then directory + filename
    else directory + "/" + filename
  }

  /** The joined path names the file: it ends with the file name, an absolute
      file name replaces the directory, and a relative one is placed under it. */
  lemma PathJoinKeepsName(directory: string, filename: string)
    ensures EndsWith(PathJoin(directory, filename), filename)
    ensures |filename| > 0 && filename[0] == '/' ==> PathJoin(directory, filename) == filename
    ensures !(|filename| > 0 && filename[0] == '/') ==> directory <= PathJoin(directory, filename)
  {
    var path := PathJoin(directory, filename);
    assert path[|path| - |filename|..] == filename;
  }

  /** What one directory entry contributes: its loader's output, or nothing. */
  function FileDocuments(directory: string, filename: string,
                         load: (Loader, string) -> seq<Document>): seq<Document>
  {
    match LoaderFor(filename)
    case None => []
    case Some(loader) => load(loader, PathJoin(directory, filename))
  }

  /** The documents of a whole listing, in listing order. */
  function LoadedDocuments(directory: string, listing: seq<string>,
                           load: (Loader, string) -> seq<Document>): seq<Document>
  {
    if |listing| == 0 then []
    else FileDocuments(directory, listing[0], load) + LoadedDocuments(directory, listing[1..], load)
  }

  /** `split_documents`: the splitter, called with the configured chunk size
      and overlap. */
  function SplitDocuments(documents: seq<Document>,
                          split: (seq<Document>, nat, nat) -> seq<Document>): seq<Document>
  {
    split(documents, ChunkSize, ChunkOverlap)
  }

  /** A file goes to the PDF loader exactly when its name ends in `.pdf`, to
      the DOCX loader exactly when it ends in `.docx`, and is skipped exactly
      when it ends in neither. */
  lemma LoaderDispatch(filename: string)
    ensures LoaderFor(filename) == Some(PdfLoader) <==> EndsWith(filename, ".pdf")
    ensures LoaderFor(filename) == Some(DocxLoader) <==> EndsWith(filename, ".docx")
    ensures LoaderFor(filename) == None <==> !EndsWith(filename, ".pdf") && !EndsWith(filename, ".docx")
  {
    if EndsWith(filename, ".pdf") {
      PdfIsNotDocx(filename);
    }
  }

  /** No name ends in both extensions. */
  lemma PdfIsNotDocx(filename: string)
    requires EndsWith(filename, ".pdf")
    ensures !EndsWith(filename, ".docx")
  {
    assert filename[|filename| - 1] == filename[|filename| - 4..][3] == 'f';
    assert |filename| >= 5 ==> filename[|filename| - 5..][4] == 'f';
  }

  /** The suffix test is case-sensitive: upper-case extensions are skipped. */
  lemma UpperCaseExtensionsAreSkipped()
    ensures LoaderFor("X.PDF") == None && LoaderFor("X.DOCX") == None
    ensures LoaderFor("X.pdf") == Some(PdfLoader) && LoaderFor("X.docx") == Some(DocxLoader)
  {
    assert "X.PDF"[2..] != ".pdf" by { assert "X.PDF"[4] == 'F'; }
    assert "X.DOCX"[2..] != ".docx" by { assert "X.DOCX"[5] == 'X'; }
    assert "X.PDF"[1..] != ".docx";
    assert "X.DOCX"[2..] != ".pdf";
    assert "X.pdf"[1..] == ".pdf";
    assert "X.docx"[1..] == ".docx";
  }

  /** Loading a listing made of two parts loads each part in turn. */
  lemma {:induction false} LoadedDocumentsAppend(directory: string, a: seq<string>, b: seq<string>,
                                                 load: (Loader, string) -> seq<Document>)
    ensures LoadedDocuments(directory, a + b, load)
         == LoadedDocuments(directory, a, load) + LoadedDocuments(directory, b, load)
  {
    if |a| == 0 {
      assert a + b == b;
    } else {
      var ab := a + b;
      assert ab[0] == a[0];
      assert ab[1..] == a[1..] + b;
      LoadedDocumentsAppend(directory, a[1..], b, load);
      var first := FileDocuments(directory, a[0], load);
      assert LoadedDocuments(directory, ab, load) == first + LoadedDocuments(directory, a[1..] + b, load);
      assert LoadedDocuments(directory, a, load) == first + LoadedDocuments(directory, a[1..], load);
      AppendAssoc(first, LoadedDocuments(directory, a[1..], load), LoadedDocuments(directory, b, load));
    }
  }

  /** An unsupported file contributes nothing wherever it stands in the listing. */
  lemma SkippedFileContributesNothing(directory: string, a: seq<string>, filename: string,
                                      b: seq<string>, load: (Loader, string) -> seq<Document>)
    requires LoaderFor(filename) == None
    ensures LoadedDocuments(directory, a + [filename] + b, load) == LoadedDocuments(directory, a + b, load)
  {
    LoadedDocumentsAppend(directory, a + [filename], b, load);
    LoadedDocumentsAppend(directory, a, [filename], load);
    LoadedDocumentsAppend(directory, a, b, load);
    assert LoadedDocuments(directory, [filename], load) == [];
  }

  /** A document is loaded exactly when it is among what some entry of the
      listing contributes. */
  lemma {:induction false} LoadedDocumentsMembership(directory: string, listing: seq<string>,
                                                     load: (Loader, string) -> seq<Document>,
                                                     doc: Document)
    ensures doc in LoadedDocuments(directory, listing, load) <==>
            exists k :: 0 <= k < |listing| && doc in FileDocuments(directory, listing[k], load)
  {
    if listing != [] {
      LoadedDocumentsMembership(directory, listing[1..], load, doc);
      if doc in LoadedDocuments(directory, listing[1..], load) {
        var k :| 0 <= k < |listing[1..]| && doc in FileDocuments(directory, listing[1..][k], load);
        assert listing[k + 1] == listing[1..][k];
      }
      forall k | 0 <= k < |listing| && doc in FileDocuments(directory, listing[k], load)
        ensures doc in LoadedDocuments(directory, listing, load)
      {
        if k > 0 {
          assert listing[1..][k - 1] == listing[k];
        }
      }
    }
  }

  /** A listing without a single PDF or DOCX file loads nothing. */
  lemma {:induction false} NoSupportedFileLoadsNothing(directory: string, listing: seq<string>,
                                                       load: (Loader, string) -> seq<Document>)
    requires forall k :: 0 <= k < |listing| ==> LoaderFor(listing[k]) == None
    ensures LoadedDocuments(directory, listing, load) == []
  {
    if listing != [] {
      assert LoaderFor(listing[0]) == None;
      NoSupportedFileLoadsNothing(directory, listing[1..], load);
    }
  }

  /** A one-entry listing loads what the extension dispatch picks for it. */
  lemma OneEntry(directory: string, filename: string, load: (Loader, string) -> seq<Document>)
    ensures LoadedDocuments(directory, [filename], load)
         == if EndsWith(filename, ".pdf") then load(PdfLoader, PathJoin(directory, filename))
            else if EndsWith(filename, ".docx") then load(DocxLoader, PathJoin(directory, filename))
            else []
  {
    assert [filename][1..] == [];
  }

  /** `load_documents_from_directory`: walks the listing, extending the
      document list with each supported file's documents. */
  method LoadDocumentsFromDirectory(directory: string, listing: seq<string>,
                                    load: (Loader, string) -> seq<Document>)
    returns (documents: seq<Document>)
    ensures documents == LoadedDocuments(directory, listing, load)
  {
    documents := [];
    var i := 0;
    while i < |listing|
      invariant 0 <= i <= |listing|
      invariant documents == LoadedDocuments(directory, listing[..i], load)
    {
      var filename := listing[i];
      var path := PathJoin(directory, filename);
      if EndsWith(filename, ".pdf") {
        documents := documents + load(PdfLoader, path);
      } else if EndsWith(filename, ".docx") {
        documents := documents + load(DocxLoader, path);
      }
      OneEntry(directory, filename, load);
      LoadedDocumentsAppend(directory, listing[..i], [filename], load);
      assert listing[..i + 1] == listing[..i] + [filename];
      i := i + 1;
    }
    assert listing[..i] == listing;
  }

  /** The persisted Chroma store at the vector-store path: whether its
      directory exists, the chunks it holds, and whether they have been
      flushed since the last change. */
  class VectorStore {
    var onDisk: bool
    var chunks: seq<Document>
    var persisted: bool
    ghost var events: seq<StoreEvent>

    /** Without its directory the store holds nothing. */
    ghost predicate Valid()
      reads this
    {
      !onDisk ==> chunks == [] && !persisted
    }

    constructor (onDisk: bool, chunks: seq<Document>, persisted: bool)
      requires !onDisk ==> chunks == [] && !persisted
      ensures Valid()
      ensures this.onDisk == onDisk && this.chunks == chunks && this.persisted == persisted
      ensures events == []
    {
      this.onDisk := onDisk;
      this.chunks := chunks;
      this.persisted := persisted;
      events := [];
    }

    /** `shutil.rmtree`: the directory and everything in it go. */
    method Remove()
      requires Valid() && onDisk
      modifies this
      ensures Valid()
      ensures !onDisk && chunks == [] && !persisted
      ensures events == old(events) + [Removed]
    {
      onDisk, chunks, persisted := false, [], false;
      events := events + [Removed];
    }

    /** `get_vector_store()`: opens the store, creating an empty one when the
        directory does not exist and keeping what is there when it does. */
    method Open()
      requires Valid()
      modifies this
      ensures Valid() && onDisk
      ensures old(onDisk) ==> chunks == old(chunks) && persisted == old(persisted)
      ensures !old(onDisk) ==> chunks == [] && !persisted
      ensures events == old(events) + [Opened]
    {
      onDisk := true;
      events := events + [Opened];
    }

    /** `add_documents`: the chunks are appended and not yet flushed. */
    method AddDocuments(docs: seq<Document>)
      requires Valid() && onDisk
      modifies this
      ensures Valid() && onDisk
      ensures chunks == old(chunks) + docs && !persisted
      ensures events == old(events) + [Added(docs)]
    {
      chunks := chunks + docs;
      persisted := false;
      events := events + [Added(docs)];
    }

    /** `persist`: the chunks are flushed to the directory. */
    method Persist()
      requires Valid() && onDisk
      modifies this
      ensures Valid() && onDisk
      ensures chunks == old(chunks) && persisted
      ensures events == old(events) + [Persisted]
    {
      persisted := true;
      events := events + [Persisted];
    }
  }

  /** `main`: check the embedding model, load, split, and rebuild the store.
      `modelReadyAtStart` is the first `get_embedding_model()` check and
      `modelReadyAtOpen` the one `get_vector_store()` repeats after the old
      store was removed; a failed check exits the process. */
  method Ingest(store: VectorStore, listing: seq<string>,
                load: (Loader, string) -> seq<Document>,
                split: (seq<Document>, nat, nat) -> seq<Document>,
                modelReadyAtStart: bool, modelReadyAtOpen: bool)
    returns (outcome: IngestOutcome)
    requires store.Valid()
    modifies store
    ensures store.Valid()
    ensures var raw := LoadedDocuments(RawSopPath, listing, load);
            var rebuilt := modelReadyAtStart && raw != [];
            && (!rebuilt ==> unchanged(store))
            && (!modelReadyAtStart ==> outcome == ModelUnavailable)
            && (modelReadyAtStart && raw == [] ==> outcome == NoDocuments)
            && (rebuilt && !modelReadyAtOpen ==>
                  && outcome == ModelUnavailable
                  && !store.onDisk && store.chunks == []
                  && store.events == old(store.events) + (if old(store.onDisk) then [Removed] else []))
            && (rebuilt && modelReadyAtOpen ==>
                  var chunks := split(raw, ChunkSize, ChunkOverlap);
                  && outcome == Ingested(|raw|, |chunks|)
                  && store.onDisk && store.chunks == chunks && store.persisted
                  && store.events == old(store.events) + (if old(store.onDisk) then [Removed] else [])
                                     + [Opened, Added(chunks), Persisted])
  {
    if !modelReadyAtStart {
      return ModelUnavailable;
    }
    var raw := LoadDocumentsFromDirectory(RawSopPath, listing, load);
    if raw == [] {
      return NoDocuments;
    }
    var chunks := SplitDocuments(raw, split);
    if store.onDisk {
      store.Remove();
    }
    if !modelReadyAtOpen {
      return ModelUnavailable;
    }
    store.Open();
    store.AddDocuments(chunks);
    store.Persist();
    outcome := Ingested(|raw|, |chunks|);
  }

  /** Re-ingestion is a full rebuild: after a second successful run the store
      holds the second corpus's chunks and nothing of the first. */
  method ReingestionReplacesCorpus(store: VectorStore,
                                   listing1: seq<string>, listing2: seq<string>,
                                   load: (Loader, string) -> seq<Document>,
                                   split: (seq<Document>, nat, nat) -> seq<Document>)
    requires store.Valid()
    requires LoadedDocuments(RawSopPath, listing1, load) != []
    requires LoadedDocuments(RawSopPath, listing2, load) != []
    modifies store
    ensures store.Valid() && store.persisted
    ensures store.chunks == split(LoadedDocuments(RawSopPath, listing2, load), ChunkSize, ChunkOverlap)
  {
    var first := Ingest(store, listing1, load, split, true, true);
    assert store.onDisk;
    var second := Ingest(store, listing2, load, split, true, true);
  }
}
