/** Building the page list on first start: every file of the data folder is
    handed to the loader its extension selects, and the pages of all loaded
    files are concatenated in listing order. */
module Ingestion {
  import opened Util
  import opened Retrieval

  const DATA_FOLDER: string := "data"

  datatype Loader = PdfLoader | DocxLoader

  /** What startup does with the vector store: reopen the persisted one, or
      build a new one from the ingested pages. */
  datatype IndexPlan = OpenPersisted | BuildFrom(pages: seq<Document>)

  lemma PdfIsNotDocx(file: string)
    ensures EndsWith(file, ".docx") ==> !EndsWith(file, ".pdf")
  {
    if EndsWith(file, ".docx") {
      assert file[|file| - 4] == ".docx"[1];
    }
  }

  /** The loader a file name selects: `.pdf` before `.docx`; any other name
      selects none. */
  function LoaderFor(file: string): (r: Option<Loader>)
    ensures r.None? <==> !EndsWith(file, ".pdf") && !EndsWith(file, ".docx")
  {
    if EndsWith(file, ".pdf") then Some(PdfLoader)
    else if EndsWith(file, ".docx") then Some(DocxLoader)
    else None
  }

  /** Each recognised extension selects its own loader and nothing else
      selects one. */
  lemma LoaderForCases(file: string)
    ensures LoaderFor(file) == Some(PdfLoader) <==> EndsWith(file, ".pdf")
    ensures LoaderFor(file) == Some(DocxLoader) <==> EndsWith(file, ".docx")
    ensures LoaderFor(file) == None <==> !EndsWith(file, ".pdf") && !EndsWith(file, ".docx")
  {
    PdfIsNotDocx(file);
  }

  /** The pages one listed file contributes; `load` stands for the loader
      libraries, applied to the path under the data folder. */
  function FilePages(file: string, load: (Loader, string) -> seq<Document>): seq<Document>
  {
    match LoaderFor(file)
    case None => []
    case Some(loader) => load(loader, DATA_FOLDER + "/" + file)
  }

  /** The page lists of the listed files, one per file, in listing order. */
  function FileBlocks(files: seq<string>, load: (Loader, string) -> seq<Document>): (r: seq<seq<Document>>)
    ensures |r| == |files|
    ensures forall i :: 0 <= i < |files| ==> r[i] == FilePages(files[i], load)
  {
    seq(|files|, i requires 0 <= i < |files| => FilePages(files[i], load))
  }

  /** The pages of all listed files, concatenated in listing order. */
  function IngestedPages(files: seq<string>, load: (Loader, string) -> seq<Document>): seq<Document>
  {
    Flatten(FileBlocks(files, load))
  }

  /** The directory loop: skip unrecognised names, extend with loaded pages. */
  method LoadDirectory(files: seq<string>, load: (Loader, string) -> seq<Document>)
    returns (docs: seq<Document>)
    ensures docs == IngestedPages(files, load)
  {
    docs := [];
    for i := 0 to |files|
      invariant docs == IngestedPages(files[..i], load)
    {
      assert FileBlocks(files[..i + 1], load) == FileBlocks(files[..i], load) + [FilePages(files[i], load)];
      FlattenSnoc(FileBlocks(files[..i], load), FilePages(files[i], load));
      var file := files[i];
      var loader: Loader;
      if EndsWith(file, ".pdf") {
        loader := PdfLoader;
      } else if EndsWith(file, ".docx") {
        loader := DocxLoader;
      } else {
        continue;
      }
      var pages := load(loader, DATA_FOLDER + "/" + file);
      docs := docs + pages;
    }
    assert files[..|files|] == files;
  }

  /** Startup: an existing `.db` directory is reopened and nothing is loaded;
      otherwise the data folder is ingested for a new store. */
  method PrepareIndex(dbExists: bool, files: seq<string>, load: (Loader, string) -> seq<Document>)
    returns (plan: IndexPlan)
    ensures dbExists ==> plan == OpenPersisted
    ensures !dbExists ==> plan == BuildFrom(IngestedPages(files, load))
  {
    if dbExists {
      plan := OpenPersisted;
    } else {
      var docs := LoadDirectory(files, load);
      plan := BuildFrom(docs);
    }
  }

  lemma FileBlocksAppend(a: seq<string>, b: seq<string>, load: (Loader, string) -> seq<Document>)
    ensures FileBlocks(a + b, load) == FileBlocks(a, load) + FileBlocks(b, load)
  {
  }

  lemma FileBlocksAt(files: seq<string>, k: nat, load: (Loader, string) -> seq<Document>)
    requires k < |files|
    ensures FileBlocks(files, load) ==
      FileBlocks(files[..k], load) + ([FilePages(files[k], load)] + FileBlocks(files[k + 1..], load))
  {
  }

  /** Ingesting two listings one after the other concatenates their pages. */
  lemma IngestedAppend(a: seq<string>, b: seq<string>, load: (Loader, string) -> seq<Document>)
    ensures IngestedPages(a + b, load) == IngestedPages(a, load) + IngestedPages(b, load)
  {
    FileBlocksAppend(a, b, load);
    FlattenAppend(FileBlocks(a, load), FileBlocks(b, load));
  }

  /** Every listed file's pages sit, as one block, between the pages of the
      files listed before it and those listed after it; a file whose name
      selects no loader contributes nothing. */
  lemma FileBlock(files: seq<string>, k: nat, load: (Loader, string) -> seq<Document>)
    requires k < |files|
    ensures IngestedPages(files, load) ==
      IngestedPages(files[..k], load) + FilePages(files[k], load) + IngestedPages(files[k + 1..], load)
    ensures LoaderFor(files[k]).None? ==> FilePages(files[k], load) == []
  {
    var x, y := FileBlocks(files[..k], load), FileBlocks(files[k + 1..], load);
    var b := FilePages(files[k], load);
    FileBlocksAt(files, k, load);
    FlattenAppend(x, [b] + y);
    FlattenAppend([b], y);
    assert Flatten([b]) == b by {
      FlattenSnoc([], b);
      assert [] + [b] == [b];
    }
    assert IngestedPages(files, load) == Flatten(x + ([b] + y));
    assert Flatten(x + ([b] + y)) == Flatten(x) + (b + Flatten(y));
  }

  lemma {:induction false} FlattenMember(blocks: seq<seq<Document>>, d: Document)
    requires d in Flatten(blocks)
    ensures exists k :: 0 <= k < |blocks| && d in blocks[k]
  {
    var p := blocks[..|blocks| - 1];
    assert blocks == p + [blocks[|blocks| - 1]];
    FlattenSnoc(p, blocks[|blocks| - 1]);
    if d in Flatten(p) {
      FlattenMember(p, d);
      var k :| 0 <= k < |p| && d in p[k];
      assert blocks[k] == p[k];
    }
  }

  lemma IngestedProvenance(files: seq<string>, load: (Loader, string) -> seq<Document>, d: Document)
    requires d in IngestedPages(files, load)
    ensures exists k :: (0 <= k < |files| && LoaderFor(files[k]).Some? &&
      d in load(LoaderFor(files[k]).value, DATA_FOLDER + "/" + files[k]))
  {
    FlattenMember(FileBlocks(files, load), d);
    var k :| 0 <= k < |files| && d in FileBlocks(files, load)[k];
    assert d in FilePages(files[k], load);
  }
}
