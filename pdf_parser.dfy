/**
 * The PDF parser: mapping a loader's chunk list to paragraph chunks, and the older
 * page-by-page parser that groups text lines into paragraphs and adds one chunk per
 * image. The loader's output, the page texts and the image counts are inputs; file
 * access, MD5 checksums and the loader factory are outside the model.
 */
module PdfParsing {
  import opened Common
  import opened Strings
  import opened Json

  /**
   * `ParagraphChunk`. The three fields the loader fills from its own output
   * (page number, index text, content) keep the value the loader gave.
   */
  datatype Chunk = Chunk(
    title: string,
    documentChecksum: string,
    isChart: bool,
    pageNumber: Json,
    index: string,
    textContent: Json,
    embeddingModel: string,
    pdfLoader: string,
    embedding: Option<seq<real>>)

  /**
   * The dataclass constructor: every field up to `pdf_loader` is required, only
   * `embedding` has a default; leaving out `pdf_loader` raises a TypeError.
   */
  function NewChunk(title: string, checksum: string, isChart: bool, pageNumber: Json, index: string,
                    textContent: Json, model: string, pdfLoader: Option<string>): (r: Result<Chunk, Exception>)
    ensures r.Err? <==> pdfLoader.None?
    ensures r.Err? ==> r.error == TypeError
    ensures r.Ok? ==> r.value.title == title && r.value.documentChecksum == checksum && r.value.isChart == isChart
    ensures r.Ok? ==> r.value.pageNumber == pageNumber && r.value.index == index && r.value.textContent == textContent
    ensures r.Ok? ==> r.value.embeddingModel == model && r.value.pdfLoader == pdfLoader.value && r.value.embedding.None?
  {
    if pdfLoader.None? then Err(TypeError)
    else Ok(Chunk(title, checksum, isChart, pageNumber, index, textContent, model, pdfLoader.value, None))
  }

  // ---------------------------------------------------------------------------
  // `parse_pdf`: the loader's chunks
  // ---------------------------------------------------------------------------

  /** `doc_data['pages'][0]`, with the exception each kind of value raises. */
  function FirstPage(docData: Json): (r: Result<Json, Exception>)
    ensures docData.JObject? && Lookup(docData.fields, "pages").None? ==> r == Err(KeyError)
    ensures r.Ok? ==> docData.JObject? && Lookup(docData.fields, "pages").Some?
    ensures docData.JObject? && Lookup(docData.fields, "pages") == Some(JArray([])) ==> r == Err(IndexError)
    ensures forall ps :: docData.JObject? && Lookup(docData.fields, "pages") == Some(JArray(ps)) && |ps| > 0 ==> r == Ok(ps[0])
  {
    if !docData.JObject? then Err(TypeError)
    else
      match Lookup(docData.fields, "pages")
      case None => Err(KeyError)
      case Some(pages) =>
        match pages
        case JArray(ps) => if |ps| == 0 then Err(IndexError) else Ok(ps[0])
        case JString(s) => if |s| == 0 then Err(IndexError) else Ok(JString([s[0]]))
        case JObject(_) => Err(KeyError)
        case _ => Err(TypeError)
  }

  /** `page.get('chunks', [])` on the first page, iterated. */
  function LoaderEntries(docData: Json): Result<seq<Json>, Exception>
  {
    match FirstPage(docData)
    case Err(e) => Err(e)
    case Ok(page) =>
      if !page.JObject? then Err(AttributeError)
      else Iterate(GetOr(page.fields, "chunks", JArray([])))
  }

  predicate IsChartType(fields: seq<(string, Json)>)
  {
    Lookup(fields, "type") == Some(JString("table")) || Lookup(fields, "type") == Some(JString("image"))
  }

  /** The chunk for one loader entry; `str()` of the entry's `chunk_index` is `pyStr`. */
  function LoaderChunk(title: string, checksum: string, fields: seq<(string, Json)>, model: string, loader: string,
                       pyStr: Json -> string): Chunk
  {
    Chunk(title, checksum, IsChartType(fields), GetOr(fields, "offset", JNumber(0.0)),
          pyStr(GetOr(fields, "chunk_index", JNull)), GetOr(fields, "content", JNull), model, loader, None)
  }

  /** The chunks of `parse_pdf`: one per entry when every entry is a dict; otherwise `.get` raises. */
  function LoaderChunks(title: string, checksum: string, docData: Json, model: string, loader: string,
                        pyStr: Json -> string): Result<seq<Chunk>, Exception>
  {
    match LoaderEntries(docData)
    case Err(e) => Err(e)
    case Ok(entries) => EntryChunks(title, checksum, entries, model, loader, pyStr)
  }

  /** One chunk per entry when every entry is a dict; otherwise `.get` raises. */
  function EntryChunks(title: string, checksum: string, entries: seq<Json>, model: string, loader: string,
                       pyStr: Json -> string): Result<seq<Chunk>, Exception>
  {
    if forall i :: 0 <= i < |entries| ==> entries[i].JObject? then
      Ok(seq(|entries|, i requires 0 <= i < |entries| && entries[i].JObject? =>
               LoaderChunk(title, checksum, entries[i].fields, model, loader, pyStr)))
    else Err(AttributeError)
  }

  /** The loop of `parse_pdf` over the first page's entries. */
  method ChunkEntries(title: string, checksum: string, entries: seq<Json>, model: string, loader: string,
                      pyStr: Json -> string) returns (r: Result<seq<Chunk>, Exception>)
    ensures r == EntryChunks(title, checksum, entries, model, loader, pyStr)
  {
    var chunks: seq<Chunk> := [];
    var i := 0;
    while i < |entries|
      invariant 0 <= i <= |entries|
      invariant |chunks| == i
      invariant forall k :: 0 <= k < i ==>
        entries[k].JObject? && chunks[k] == LoaderChunk(title, checksum, entries[k].fields, model, loader, pyStr)
    {
      var chunkData := entries[i];
      if !chunkData.JObject? {
        assert !(forall k :: 0 <= k < |entries| ==> entries[k].JObject?);
        return Err(AttributeError);
      }
      var chunk := Chunk(
        title,
        checksum,
        Lookup(chunkData.fields, "type") == Some(JString("table")) || Lookup(chunkData.fields, "type") == Some(JString("image")),
        GetOr(chunkData.fields, "offset", JNumber(0.0)),
        pyStr(GetOr(chunkData.fields, "chunk_index", JNull)),
        GetOr(chunkData.fields, "content", JNull),
        model,
        loader,
        None);
      chunks := chunks + [chunk];
      i := i + 1;
    }
    assert forall k :: 0 <= k < |entries| ==> entries[k].JObject?;
    assert chunks == EntryChunks(title, checksum, entries, model, loader, pyStr).value;
    r := Ok(chunks);
  }

  /**
   * What every loader chunk carries: one per entry, in entry order, with the file
   * name and checksum, `is_chart` exactly for tables and images, the entry's
   * offset as page number (0 when absent) and `str(chunk_index)` as index.
   */
  lemma LoaderChunkFields(title: string, checksum: string, docData: Json, model: string, loader: string,
                          pyStr: Json -> string, i: nat)
    requires LoaderChunks(title, checksum, docData, model, loader, pyStr).Ok?
    ensures LoaderEntries(docData).Ok?
    ensures |LoaderChunks(title, checksum, docData, model, loader, pyStr).value| == |LoaderEntries(docData).value|
    ensures i < |LoaderEntries(docData).value| ==>
      var c := LoaderChunks(title, checksum, docData, model, loader, pyStr).value[i];
      var e := LoaderEntries(docData).value[i];
      && e.JObject?
      && c.title == title && c.documentChecksum == checksum
      && (c.isChart <==> Lookup(e.fields, "type") in {Some(JString("table")), Some(JString("image"))})
      && (Lookup(e.fields, "offset").None? ==> c.pageNumber == JNumber(0.0))
      && (Lookup(e.fields, "offset").Some? ==> c.pageNumber == Lookup(e.fields, "offset").value)
      && c.index == pyStr(GetOr(e.fields, "chunk_index", JNull))
      && c.textContent == GetOr(e.fields, "content", JNull)
      && c.embeddingModel == model && c.pdfLoader == loader && c.embedding.None?
  {
  }

  /** A non-dict entry anywhere in the list makes the whole parse raise. */
  lemma LoaderChunksReject(title: string, checksum: string, docData: Json, model: string, loader: string,
                           pyStr: Json -> string, i: nat)
    requires LoaderEntries(docData).Ok? && i < |LoaderEntries(docData).value|
    requires !LoaderEntries(docData).value[i].JObject?
    ensures LoaderChunks(title, checksum, docData, model, loader, pyStr) == Err(AttributeError)
  {
  }

  // ---------------------------------------------------------------------------
  // `parse_pdf_old`: paragraphs of a page's text
  // ---------------------------------------------------------------------------

  /** The lines of a page's text, each stripped. */
  function Lines(text: string): (r: seq<string>)
    ensures |r| == |Split(text, '\n')|
  {
    StripAll(Split(text, '\n'))
  }

  /** `[line.strip() for line in raw]`. */
  function StripAll(raw: seq<string>): (r: seq<string>)
    ensures |r| == |raw|
  {
    if |raw| == 0 then [] else StripAll(raw[..|raw| - 1]) + [Strip(Python, raw[|raw| - 1])]
  }

  lemma {:induction false} StripAllAt(raw: seq<string>, k: nat)
    requires k < |raw|
    ensures StripAll(raw)[k] == Strip(Python, raw[k])
  {
    if k < |raw| - 1 {
      StripAllAt(raw[..|raw| - 1], k);
    }
  }

  /**
   * The state of the paragraph loop after some lines: the runs of non-empty lines
   * already closed by an empty line, and the run still open.
   */
  datatype Grouping = Grouping(closed: seq<seq<string>>, open: seq<string>)

  /** The loop state after the lines `ls`: a non-empty line joins the open run, an empty one closes it. */
  function Group(ls: seq<string>): (g: Grouping)
    ensures forall i :: 0 <= i < |g.closed| ==> |g.closed[i]| > 0
    ensures forall i, j :: 0 <= i < |g.closed| && 0 <= j < |g.closed[i]| ==> |g.closed[i][j]| > 0
    ensures forall j :: 0 <= j < |g.open| ==> |g.open[j]| > 0
    ensures |g.open| > 0 <==> |ls| > 0 && |ls[|ls| - 1]| > 0
  {
    if |ls| == 0 then Grouping([], [])
    else
      var g := Group(ls[..|ls| - 1]);
      var l := ls[|ls| - 1];
      if |l| > 0 then Grouping(g.closed, g.open + [l])
      else if |g.open| > 0 then Grouping(g.closed + [g.open], [])
      else g
  }

  /** The maximal runs of consecutive non-empty lines, each run in order: the closed ones, then the open one. */
  function Runs(ls: seq<string>): (r: seq<seq<string>>)
    ensures forall i :: 0 <= i < |r| ==> |r[i]| > 0
    ensures forall i, j :: 0 <= i < |r| && 0 <= j < |r[i]| ==> |r[i][j]| > 0
  {
    var g := Group(ls);
    g.closed + (if |g.open| > 0 then [g.open] else [])
  }

  /** `' '.join` of each run. */
  function JoinRuns(rs: seq<seq<string>>): (r: seq<string>)
    ensures |r| == |rs| && forall i :: 0 <= i < |rs| ==> r[i] == Join(rs[i], " ")
  {
    seq(|rs|, i requires 0 <= i < |rs| => Join(rs[i], " "))
  }

  /** The paragraphs of a page: its runs of non-blank lines, each joined by single spaces. */
  function Paragraphs(text: string): seq<string>
  {
    JoinRuns(Runs(Lines(text)))
  }

  /** `[p for p in paragraphs if p.strip()]`. */
  function NonBlank(ps: seq<string>): (r: seq<string>)
    ensures forall i :: 0 <= i < |r| ==> !AllSpace(Python, r[i])
  {
    if |ps| == 0 then []
    else
      var rest := NonBlank(ps[..|ps| - 1]);
      if !AllSpace(Python, ps[|ps| - 1]) then rest + [ps[|ps| - 1]] else rest
  }

  function Flatten(rs: seq<seq<string>>): seq<string>
  {
    if |rs| == 0 then [] else Flatten(rs[..|rs| - 1]) + rs[|rs| - 1]
  }

  /** `ls` without its empty lines. */
  function NonEmptyLines(ls: seq<string>): seq<string>
  {
    if |ls| == 0 then []
    else NonEmptyLines(ls[..|ls| - 1]) + (if |ls[|ls| - 1]| > 0 then [ls[|ls| - 1]] else [])
  }

  /** The number of lines that open a paragraph: non-empty, and first or after an empty line. */
  function Openings(ls: seq<string>): nat
  {
    if |ls| == 0 then 0
    else
      var front := ls[..|ls| - 1];
      Openings(front) + (if |ls[|ls| - 1]| > 0 && (|front| == 0 || |front[|front| - 1]| == 0) then 1 else 0)
  }

  lemma FlattenSnoc(rs: seq<seq<string>>, run: seq<string>)
    ensures Flatten(rs + [run]) == Flatten(rs) + run
  {
    assert (rs + [run])[..|rs|] == rs;
  }

  lemma {:induction false} GroupKeepsLines(ls: seq<string>)
    ensures Flatten(Group(ls).closed) + Group(ls).open == NonEmptyLines(ls)
  {
    if |ls| > 0 {
      var front := ls[..|ls| - 1];
      var g := Group(front);
      GroupKeepsLines(front);
      if |ls[|ls| - 1]| == 0 && |g.open| > 0 {
        FlattenSnoc(g.closed, g.open);
      }
    }
  }

  /** Paragraph grouping loses and reorders nothing: the runs, read in order, are the non-empty lines. */
  lemma RunsKeepLines(ls: seq<string>)
    ensures Flatten(Runs(ls)) == NonEmptyLines(ls)
  {
    var g := Group(ls);
    GroupKeepsLines(ls);
    if |g.open| > 0 {
      FlattenSnoc(g.closed, g.open);
    } else {
      assert g.closed + [] == g.closed;
    }
  }

  lemma {:induction false} GroupCount(ls: seq<string>)
    ensures |Group(ls).closed| + (if |Group(ls).open| > 0 then 1 else 0) == Openings(ls)
  {
    if |ls| > 0 {
      GroupCount(ls[..|ls| - 1]);
    }
  }

  /** A blank line ends a paragraph: there is one paragraph per opening line. */
  lemma RunsCount(ls: seq<string>)
    ensures |Runs(ls)| == Openings(ls)
  {
    GroupCount(ls);
  }

  /** Every line of every run is one of the given lines. */
  lemma {:induction false} GroupFromLines(ls: seq<string>)
    ensures forall i, j :: 0 <= i < |Group(ls).closed| && 0 <= j < |Group(ls).closed[i]| ==> Group(ls).closed[i][j] in ls
    ensures forall j :: 0 <= j < |Group(ls).open| ==> Group(ls).open[j] in ls
  {
    if |ls| > 0 {
      GroupFromLines(ls[..|ls| - 1]);
      assert forall x :: x in ls[..|ls| - 1] ==> x in ls;
    }
  }

  lemma RunsFromLines(ls: seq<string>)
    ensures forall i, j :: 0 <= i < |Runs(ls)| && 0 <= j < |Runs(ls)[i]| ==> Runs(ls)[i][j] in ls
  {
    GroupFromLines(ls);
  }

  /** Runs of stripped lines make non-blank paragraphs, so the final filter keeps them all. */
  lemma ParagraphsNonBlank(text: string)
    ensures NonBlank(Paragraphs(text)) == Paragraphs(text)
    ensures forall i :: 0 <= i < |Paragraphs(text)| ==> !AllSpace(Python, Paragraphs(text)[i])
  {
    var raw := Split(text, '\n');
    var ls := Lines(text);
    var rs := Runs(ls);
    RunsFromLines(ls);
    forall i | 0 <= i < |rs|
      ensures !AllSpace(Python, Join(rs[i], " "))
    {
      var first := rs[i][0];
      assert first in ls && |first| > 0;
      var k :| 0 <= k < |ls| && ls[k] == first;
      StripAllAt(raw, k);
      JoinStartsWith(rs[i], " ");
    }
    NonBlankKeepsAll(JoinRuns(rs));
  }

  lemma {:induction false} JoinStartsWith(parts: seq<string>, sep: string)
    requires |parts| > 0 && |parts[0]| > 0
    ensures |Join(parts, sep)| > 0 && Join(parts, sep)[0] == parts[0][0]
  {
  }

  lemma {:induction false} NonBlankKeepsAll(ps: seq<string>)
    requires forall i :: 0 <= i < |ps| ==> !AllSpace(Python, ps[i])
    ensures NonBlank(ps) == ps
  {
    if |ps| > 0 {
      NonBlankKeepsAll(ps[..|ps| - 1]);
      assert ps == ps[..|ps| - 1] + [ps[|ps| - 1]];
    }
  }

  /** One more line advances the loop state as the loop body does. */
  lemma GroupStep(ls: seq<string>, i: nat)
    requires i < |ls|
    ensures Group(ls[..i + 1]) ==
      var g := Group(ls[..i]);
      if |ls[i]| > 0 then Grouping(g.closed, g.open + [ls[i]])
      else if |g.open| > 0 then Grouping(g.closed + [g.open], [])
      else g
  {
    assert ls[..i + 1][..i] == ls[..i];
  }

  /**
   * The paragraph loop of `parse_pdf_old` over a page's stripped lines: a non-empty
   * line joins the open paragraph, an empty one closes it, and the last one is
   * closed at the end.
   */
  method GroupLines(lines: seq<string>) returns (paragraphs: seq<string>)
    ensures paragraphs == JoinRuns(Runs(lines))
  {
    ghost var done: seq<seq<string>> := [];
    var current: seq<string> := [];
    paragraphs := [];
    var i := 0;
    while i < |lines|
      invariant 0 <= i <= |lines|
      invariant Group(lines[..i]) == Grouping(done, current)
      invariant |paragraphs| == |done| && forall k :: 0 <= k < |done| ==> paragraphs[k] == Join(done[k], " ")
    {
      var line := lines[i];
      GroupStep(lines, i);
      if |line| > 0 {
        current := current + [line];
      } else if |current| > 0 {
        paragraphs := paragraphs + [Join(current, " ")];
        done := done + [current];
        current := [];
      }
      i := i + 1;
    }
    assert lines[..i] == lines;
    if |current| > 0 {
      paragraphs := paragraphs + [Join(current, " ")];
      done := done + [current];
    }
    assert Runs(lines) == done;
  }

  /** The paragraphs of one page's text: split at newlines, strip, group, then drop blank ones. */
  method SplitParagraphs(text: string) returns (paragraphs: seq<string>)
    ensures paragraphs == Paragraphs(text)
  {
    paragraphs := GroupLines(Lines(text));
    ParagraphsNonBlank(text);
    paragraphs := NonBlank(paragraphs);
  }

  // ---------------------------------------------------------------------------
  // `parse_pdf_old`: chunks of the pages
  // ---------------------------------------------------------------------------

  /** A page as the old parser reads it: its text and the number of images on it. */
  datatype PdfPage = PdfPage(text: string, images: nat)

  /** What the old parser makes of a page: its paragraphs and its image count. */
  datatype PageContent = PageContent(paragraphs: seq<string>, images: nat)

  function Content(page: PdfPage): PageContent
  {
    PageContent(Paragraphs(page.text), page.images)
  }

  /** Every page as the old parser reads it. */
  function Contents(pages: seq<PdfPage>): (r: seq<PageContent>)
    ensures |r| == |pages|
  {
    if |pages| == 0 then [] else Contents(pages[..|pages| - 1]) + [Content(pages[|pages| - 1])]
  }

  lemma {:induction false} ContentsAt(pages: seq<PdfPage>, i: nat)
    requires i < |pages|
    ensures Contents(pages)[i] == Content(pages[i])
  {
    if i < |pages| - 1 {
      ContentsAt(pages[..|pages| - 1], i);
    }
  }

  function ChartText(pageNum: nat): string
  {
    "Chart or figure found on page " + NatToString(pageNum)
  }

  function TextChunks(title: string, checksum: string, pageNum: nat, ps: seq<string>, model: string, loader: string): (r: seq<Chunk>)
    ensures |r| == |ps|
  {
    seq(|ps|, i requires 0 <= i < |ps| =>
      Chunk(title, checksum, false, JNumber(pageNum as real), "p" + NatToString(i), JString(ps[i]), model, loader, None))
  }

  function ChartChunks(title: string, checksum: string, pageNum: nat, images: nat, model: string, loader: string): (r: seq<Chunk>)
    ensures |r| == images
  {
    seq(images, i requires 0 <= i < images =>
      Chunk(title, checksum, true, JNumber(pageNum as real), "chart-" + NatToString(i), JString(ChartText(pageNum)), model, loader, None))
  }

  /** The chunks of page `pageNum`: its paragraphs `p0, p1, ...`, then its images `chart-0, chart-1, ...`. */
  function PageChunks(title: string, checksum: string, pageNum: nat, page: PageContent, model: string, loader: string): seq<Chunk>
  {
    TextChunks(title, checksum, pageNum, page.paragraphs, model, loader)
      + ChartChunks(title, checksum, pageNum, page.images, model, loader)
  }

  /** The chunks of the whole document, pages numbered from 1, once every chunk gets a loader name. */
  function OldChunks(title: string, checksum: string, pages: seq<PageContent>, model: string, loader: string): seq<Chunk>
  {
    if |pages| == 0 then []
    else
      OldChunks(title, checksum, pages[..|pages| - 1], model, loader)
        + PageChunks(title, checksum, |pages|, pages[|pages| - 1], model, loader)
  }

  /** A page with neither a paragraph nor an image. */
  predicate BlankPage(page: PageContent)
  {
    |page.paragraphs| == 0 && page.images == 0
  }

  /** The document yields no chunk exactly when no page has a paragraph or an image. */
  lemma {:induction false} OldChunksEmptyIff(title: string, checksum: string, pages: seq<PageContent>, model: string, loader: string)
    ensures |OldChunks(title, checksum, pages, model, loader)| == 0 <==> forall i :: 0 <= i < |pages| ==> BlankPage(pages[i])
  {
    if |pages| > 0 {
      var front := pages[..|pages| - 1];
      var last := pages[|pages| - 1];
      OldChunksEmptyIff(title, checksum, front, model, loader);
      var pc := PageChunks(title, checksum, |pages|, last, model, loader);
      assert |pc| == 0 <==> BlankPage(last);
      assert |OldChunks(title, checksum, pages, model, loader)| == |OldChunks(title, checksum, front, model, loader)| + |pc|;
      assert forall i :: 0 <= i < |front| ==> front[i] == pages[i];
      if forall i :: 0 <= i < |pages| ==> BlankPage(pages[i]) {
        assert forall i :: 0 <= i < |front| ==> BlankPage(front[i]);
      }
    }
  }

  /** Every chunk's page number is one of 1 .. the page count. */
  lemma {:induction false} OldChunkPages(title: string, checksum: string, pages: seq<PageContent>, model: string, loader: string)
    ensures forall c :: c in OldChunks(title, checksum, pages, model, loader) ==>
      c.pageNumber.JNumber? && 1.0 <= c.pageNumber.n <= |pages| as real
  {
    if |pages| > 0 {
      var front := pages[..|pages| - 1];
      OldChunkPages(title, checksum, front, model, loader);
      var n := |pages|;
      var texts := TextChunks(title, checksum, n, pages[n - 1].paragraphs, model, loader);
      var charts := ChartChunks(title, checksum, n, pages[n - 1].images, model, loader);
      forall c | c in OldChunks(title, checksum, pages, model, loader)
        ensures c.pageNumber.JNumber? && 1.0 <= c.pageNumber.n <= n as real
      {
        if c in texts {
          var k :| 0 <= k < |texts| && texts[k] == c;
        } else if c in charts {
          var k :| 0 <= k < |charts| && charts[k] == c;
        } else {
          assert c in OldChunks(title, checksum, front, model, loader);
        }
      }
    }
  }

  /** Within a page every text chunk comes before every chart chunk. */
  lemma TextBeforeCharts(title: string, checksum: string, pageNum: nat, page: PageContent, model: string, loader: string, i: nat, j: nat)
    requires i < j < |PageChunks(title, checksum, pageNum, page, model, loader)|
    requires PageChunks(title, checksum, pageNum, page, model, loader)[i].isChart
    ensures PageChunks(title, checksum, pageNum, page, model, loader)[j].isChart
  {
  }

  /** Earlier pages' chunks are a prefix of the document's chunks. */
  lemma {:induction false} OldChunksPrefix(title: string, checksum: string, pages: seq<PageContent>, n: nat, model: string, loader: string)
    requires n <= |pages|
    ensures OldChunks(title, checksum, pages[..n], model, loader) <= OldChunks(title, checksum, pages, model, loader)
  {
    if n < |pages| {
      assert pages[..|pages| - 1][..n] == pages[..n];
      OldChunksPrefix(title, checksum, pages[..|pages| - 1], n, model, loader);
    } else {
      assert pages[..n] == pages;
    }
  }

  /** The state the parser keeps between calls: the last document parsed. */
  class PdfParser {
    var currentDocumentId: Option<string>
    var currentChecksum: Option<string>

    constructor ()
      ensures currentDocumentId.None? && currentChecksum.None?
    {
      currentDocumentId := None;
      currentChecksum := None;
    }

    /**
     * `parse_pdf`, given the loader's output for the file and the loader type:
     * records the file name and checksum, then maps the first page's entries.
     */
    method ParsePdf(fileName: string, checksum: string, docData: Json, loaderType: string, model: string,
                    pyStr: Json -> string) returns (r: Result<seq<Chunk>, Exception>)
      modifies this
      ensures currentDocumentId == Some(fileName) && currentChecksum == Some(checksum)
      ensures r == LoaderChunks(fileName, checksum, docData, model, loaderType, pyStr)
    {
      currentDocumentId := Some(fileName);
      currentChecksum := Some(checksum);
      var entries := LoaderEntries(docData);
      if entries.Err? {
        return Err(entries.error);
      }
      r := ChunkEntries(fileName, checksum, entries.value, model, loaderType, pyStr);
    }

    /**
     * `parse_pdf_old` on the pages' texts and image counts. As written the chunk
     * constructor gets no `pdf_loader` (`pdfLoader == None`); with a loader name the
     * chunks are those of `OldChunks`.
     */
    method ParsePdfOld(fileName: string, checksum: string, pages: seq<PdfPage>, model: string, pdfLoader: Option<string>)
      returns (r: Result<seq<Chunk>, Exception>)
      modifies this
      ensures currentDocumentId == Some(fileName) && currentChecksum == Some(checksum)
      ensures pdfLoader.Some? ==> r == Ok(OldChunks(fileName, checksum, Contents(pages), model, pdfLoader.value))
      ensures pdfLoader.None? ==> r == (if |OldChunks(fileName, checksum, Contents(pages), model, "")| == 0 then Ok([]) else Err(TypeError))
    {
      currentDocumentId := Some(fileName);
      currentChecksum := Some(checksum);
      r := ChunkPages(fileName, checksum, pages, model, pdfLoader);
    }
  }

  /** The page loop of `parse_pdf_old`. */
  method ChunkPages(title: string, checksum: string, pages: seq<PdfPage>, model: string, pdfLoader: Option<string>)
    returns (r: Result<seq<Chunk>, Exception>)
    ensures pdfLoader.Some? ==> r == Ok(OldChunks(title, checksum, Contents(pages), model, pdfLoader.value))
    ensures pdfLoader.None? ==> r == (if |OldChunks(title, checksum, Contents(pages), model, "")| == 0 then Ok([]) else Err(TypeError))
  {
    ghost var loader := if pdfLoader.Some? then pdfLoader.value else "";
    ghost var contents := Contents(pages);
    var chunks: seq<Chunk> := [];
    var i := 0;
    while i < |pages|
      invariant 0 <= i <= |pages|
      invariant chunks == OldChunks(title, checksum, contents[..i], model, loader)
      invariant pdfLoader.None? ==> chunks == []
    {
      var pageChunks := OldPageChunks(title, checksum, pages, i, model, pdfLoader);
      if pageChunks.Err? {
        OldChunksNonEmpty(title, checksum, contents, i, model);
        return Err(pageChunks.error);
      }
      OldChunksStep(title, checksum, contents, i, model, loader);
      if pdfLoader.None? {
        BlankPageChunks(title, checksum, i + 1, contents[i], model, loader);
      }
      chunks := chunks + pageChunks.value;
      i := i + 1;
    }
    assert contents[..i] == contents;
    if pdfLoader.None? {
      OldChunksLoaderFree(title, checksum, contents, model, loader);
    }
    r := Ok(chunks);
  }

  /** One iteration of the page loop of `parse_pdf_old`: page `i`'s paragraphs, then its chunks. */
  method OldPageChunks(title: string, checksum: string, pages: seq<PdfPage>, i: nat, model: string,
                       pdfLoader: Option<string>) returns (r: Result<seq<Chunk>, Exception>)
    requires i < |pages|
    ensures pdfLoader.Some? ==> r == Ok(PageChunks(title, checksum, i + 1, Contents(pages)[i], model, pdfLoader.value))
    ensures pdfLoader.None? ==> r == if BlankPage(Contents(pages)[i]) then Ok([]) else Err(TypeError)
  {
    var paragraphs := SplitParagraphs(pages[i].text);
    var page := PageContent(paragraphs, pages[i].images);
    ContentsAt(pages, i);
    r := PageChunksOf(title, checksum, i + 1, page, model, pdfLoader);
  }

  /**
   * The two inner loops of `parse_pdf_old` for page `pageNum`: one chunk per
   * paragraph, then one per image. Without a loader name the first chunk raises.
   */
  method PageChunksOf(title: string, checksum: string, pageNum: nat, page: PageContent, model: string,
                      pdfLoader: Option<string>) returns (r: Result<seq<Chunk>, Exception>)
    ensures pdfLoader.Some? ==> r == Ok(PageChunks(title, checksum, pageNum, page, model, pdfLoader.value))
    ensures pdfLoader.None? ==> r == if BlankPage(page) then Ok([]) else Err(TypeError)
  {
    ghost var loader := if pdfLoader.Some? then pdfLoader.value else "";
    ghost var texts := TextChunks(title, checksum, pageNum, page.paragraphs, model, loader);
    var chunks: seq<Chunk> := [];
    var idx := 0;
    while idx < |page.paragraphs|
      invariant 0 <= idx <= |page.paragraphs|
      invariant chunks == texts[..idx]
      invariant pdfLoader.None? ==> chunks == []
    {
      var chunk := NewChunk(title, checksum, false, JNumber(pageNum as real), "p" + NatToString(idx),
                            JString(page.paragraphs[idx]), model, pdfLoader);
      if chunk.Err? {
        return Err(chunk.error);
      }
      chunks := chunks + [chunk.value];
      idx := idx + 1;
    }
    assert texts[..idx] == texts;
    ghost var charts := ChartChunks(title, checksum, pageNum, page.images, model, loader);
    var imgIdx := 0;
    while imgIdx < page.images
      invariant 0 <= imgIdx <= page.images
      invariant chunks == texts + charts[..imgIdx]
      invariant pdfLoader.None? ==> chunks == []
    {
      var chunk := NewChunk(title, checksum, true, JNumber(pageNum as real), "chart-" + NatToString(imgIdx),
                            JString(ChartText(pageNum)), model, pdfLoader);
      if chunk.Err? {
        return Err(chunk.error);
      }
      chunks := chunks + [chunk.value];
      imgIdx := imgIdx + 1;
    }
    assert charts[..imgIdx] == charts;
    r := Ok(chunks);
  }

  /** One more page appends that page's chunks. */
  lemma OldChunksStep(title: string, checksum: string, pages: seq<PageContent>, i: nat, model: string, loader: string)
    requires i < |pages|
    ensures OldChunks(title, checksum, pages[..i + 1], model, loader)
         == OldChunks(title, checksum, pages[..i], model, loader) + PageChunks(title, checksum, i + 1, pages[i], model, loader)
  {
    assert pages[..i + 1][..i] == pages[..i] && pages[..i + 1][i] == pages[i];
  }

  /** A blank page yields no chunk. */
  lemma BlankPageChunks(title: string, checksum: string, pageNum: nat, page: PageContent, model: string, loader: string)
    requires BlankPage(page)
    ensures PageChunks(title, checksum, pageNum, page, model, loader) == []
  {
  }

  /** Whether the document yields chunks does not depend on the loader name. */
  lemma OldChunksLoaderFree(title: string, checksum: string, pages: seq<PageContent>, model: string, loader: string)
    ensures (|OldChunks(title, checksum, pages, model, loader)| == 0) == (|OldChunks(title, checksum, pages, model, "")| == 0)
  {
    OldChunksEmptyIff(title, checksum, pages, model, loader);
    OldChunksEmptyIff(title, checksum, pages, model, "");
  }

  /** A page with a paragraph or an image makes the document yield a chunk. */
  lemma OldChunksNonEmpty(title: string, checksum: string, pages: seq<PageContent>, i: nat, model: string)
    requires i < |pages| && !BlankPage(pages[i])
    ensures |OldChunks(title, checksum, pages, model, "")| > 0
  {
    OldChunksEmptyIff(title, checksum, pages, model, "");
  }

  /**
   * As written, `parse_pdf_old` raises a TypeError on the first paragraph or image
   * it meets: its chunk constructor never receives the required `pdf_loader`. A
   * single page holding one image is enough.
   */
  lemma OldParserRaises(title: string, checksum: string, model: string)
    ensures NewChunk(title, checksum, true, JNumber(1.0), "chart-0", JString(ChartText(1)), model, None) == Err(TypeError)
    ensures |OldChunks(title, checksum, Contents([PdfPage("", 1)]), model, "")| > 0
  {
    OldChunksNonEmpty(title, checksum, Contents([PdfPage("", 1)]), 0, model);
  }
}
