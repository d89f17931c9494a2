/** services/etl.py: DOI normalisation, the bioRxiv PDF address, the choice
    of fields from a metadata record, the page-text accumulation and the
    clean-up of the chunks the text splitter returns.

    Everything that crosses the network or the file system is an input
    here: the metadata JSON, the PDF response's Content-Type header and
    the text of each PDF page arrive in a `Fetched` record, and the text
    splitter is a function parameter. */
module Etl {
  import opened Common
  import opened PyText

  // ---------------------------------------------------------------------
  // DOI normalisation
  // ---------------------------------------------------------------------

  const HttpsResolver := "https://doi.org/"
  const HttpResolver := "http://doi.org/"
  const DoiScheme := "doi:"

  /** `re.sub(r'^https?://doi\.org/', '', s)`: the pattern is anchored at
      the start, so it matches at most once. */
  function DropResolver(s: string): (r: string)
    ensures IsSuffix(r, s)
    ensures r == s <==> !StartsWith(s, HttpsResolver) && !StartsWith(s, HttpResolver)
    ensures r != s ==> s == HttpsResolver + r || s == HttpResolver + r
  {
    if StartsWith(s, HttpsResolver) then s[|HttpsResolver|..]
    else if StartsWith(s, HttpResolver) then s[|HttpResolver|..]
    else s
  }

  /** `re.sub(r'^doi:', '', s)`. */
  function DropDoiScheme(s: string): (r: string)
    ensures IsSuffix(r, s)
    ensures r == s <==> !StartsWith(s, DoiScheme)
    ensures r != s ==> s == DoiScheme + r
  {
    if StartsWith(s, DoiScheme) then s[|DoiScheme|..] else s
  }

  lemma SuffixTransitive(r: string, s: string, t: string)
    requires IsSuffix(r, s) && IsSuffix(s, t)
    ensures IsSuffix(r, t)
  {
    assert t[|t| - |r|..] == t[|t| - |s|..][|s| - |r|..];
  }

  lemma SuffixOfLower(r: string, s: string)
    requires IsSuffix(r, s) && IsLower(s)
    ensures IsLower(r)
  {
    forall i | 0 <= i < |r| ensures !('A' <= r[i] <= 'Z') {
      assert r[i] == s[|s| - |r| + i];
    }
  }

  /** `extract_biorxiv_suffix`: strip, lower-case, then drop one leading
      resolver address and, after that, one leading `doi:`. */
  function ExtractBiorxivSuffix(rawDoi: string): (doi: string)
    ensures IsSuffix(doi, Lower(Strip(rawDoi)))
    ensures IsLower(doi)
    ensures var n := Lower(Strip(rawDoi));
      !StartsWith(n, HttpsResolver) && !StartsWith(n, HttpResolver) && !StartsWith(n, DoiScheme)
      ==> doi == n
  {
    var n := Lower(Strip(rawDoi));
    var doi := DropDoiScheme(DropResolver(n));
    SuffixTransitive(doi, DropResolver(n), n);
    SuffixOfLower(doi, n);
    doi
  }

  lemma NotStartsWithByFirst(s: string, p: string)
    requires p != [] && s != [] && s[0] != p[0]
    ensures !StartsWith(s, p)
  {
    if |p| <= |s| { assert s[..|p|][0] == s[0]; }
  }

  lemma NotStartsWithAt(s: string, p: string, i: nat)
    requires i < |p| && i < |s| && s[i] != p[i]
    ensures !StartsWith(s, p)
  {
    if |p| <= |s| { assert s[..|p|][i] == s[i]; }
  }

  lemma DropResolverHttps(t: string)
    ensures DropResolver(HttpsResolver + t) == t
  {
    PrefixOfConcat(HttpsResolver, t);
  }

  lemma DropResolverHttp(t: string)
    ensures DropResolver(HttpResolver + t) == t
  {
    NotStartsWithAt(HttpResolver + t, HttpsResolver, 4);
    PrefixOfConcat(HttpResolver, t);
  }

  lemma DropResolverScheme(t: string)
    ensures DropResolver(DoiScheme + t) == DoiScheme + t
  {
    NotStartsWithByFirst(DoiScheme + t, HttpsResolver);
    NotStartsWithByFirst(DoiScheme + t, HttpResolver);
  }

  lemma DropSchemeOfScheme(t: string)
    ensures DropDoiScheme(DoiScheme + t) == t
  {
    PrefixOfConcat(DoiScheme, t);
  }

  /** A leading `doi:` (in any case, after any surrounding whitespace) is
      removed once and nothing after it is touched. */
  lemma {:induction false} DoiSchemeRemovedOnce(raw: string, t: string)
    requires Lower(Strip(raw)) == DoiScheme + t
    ensures ExtractBiorxivSuffix(raw) == t
  {
    DropResolverScheme(t);
    DropSchemeOfScheme(t);
  }

  /** A leading `https://doi.org/` (in any case, after any surrounding
      whitespace) is removed once; a `doi:` right after it is then removed
      as well. */
  lemma {:induction false} HttpsResolverRemovedOnce(raw: string, t: string)
    requires Lower(Strip(raw)) == HttpsResolver + t
    ensures ExtractBiorxivSuffix(raw) == DropDoiScheme(t)
  {
    DropResolverHttps(t);
  }

  /** The same for `http://doi.org/`. */
  lemma {:induction false} HttpResolverRemovedOnce(raw: string, t: string)
    requires Lower(Strip(raw)) == HttpResolver + t
    ensures ExtractBiorxivSuffix(raw) == DropDoiScheme(t)
  {
    DropResolverHttp(t);
  }

  lemma StripPasted()
    ensures Strip(" HTTPS://DOI.ORG/10.1101/X\n") == "HTTPS://DOI.ORG/10.1101/X"
  {
    var raw, r := " HTTPS://DOI.ORG/10.1101/X\n", "HTTPS://DOI.ORG/10.1101/X";
    assert raw == " " + r + "\n";
    assert raw[..1] == " " && raw[1..1 + |r|] == r && raw[1 + |r|..] == "\n";
    assert TrimmedAt(raw, r, 1);
    StripUnique(raw, r, 1);
  }

  lemma LowerPasted()
    ensures Lower("HTTPS://DOI.ORG/10.1101/X") == HttpsResolver + "10.1101/x"
  {
  }

  /** A DOI pasted with surrounding blanks and an upper-case resolver
      address comes out as the bare lower-case DOI. */
  lemma MixedCaseResolver()
    ensures ExtractBiorxivSuffix(" HTTPS://DOI.ORG/10.1101/X\n") == "10.1101/x"
  {
    StripPasted();
    LowerPasted();
    HttpsResolverRemovedOnce(" HTTPS://DOI.ORG/10.1101/X\n", "10.1101/x");
    NotStartsWithByFirst("10.1101/x", DoiScheme);
  }

  /** The address of bioRxiv's details API for a DOI
      (`get_biorxiv_metadata`, without the HTTP request). */
  const DetailsApi := "https://api.biorxiv.org/details/biorxiv/"
  const DetailsFormat := "/na/json"

  function MetadataUrl(rawDoi: string): (url: string)
    ensures |url| == |DetailsApi| + |ExtractBiorxivSuffix(rawDoi)| + |DetailsFormat|
    ensures StartsWith(url, DetailsApi) && IsSuffix(DetailsFormat, url)
    ensures url[|DetailsApi|..|url| - |DetailsFormat|] == ExtractBiorxivSuffix(rawDoi)
  {
    SliceMiddle(DetailsApi, ExtractBiorxivSuffix(rawDoi), DetailsFormat);
    DetailsApi + ExtractBiorxivSuffix(rawDoi) + DetailsFormat
  }

  // ---------------------------------------------------------------------
  // Metadata and the PDF address
  // ---------------------------------------------------------------------

  /** The metadata JSON: only its "collection" list is read; `None` when
      the key is missing. */
  datatype Metadata = Metadata(collection: Option<seq<Dict>>)

  /** `metadata.get("collection", {})[-1]`. */
  function LastEntry(m: Metadata): (r: Result<Dict, PyError>)
    ensures r.Ok? <==> m.collection.Some? && m.collection.value != []
    ensures m.collection.None? ==> r == Err(KeyError)
    ensures m.collection == Some([]) ==> r == Err(IndexError)
    ensures r.Ok? ==> (m.collection.Some? && |m.collection.value| > 0
                       && r.value == m.collection.value[|m.collection.value| - 1])
  {
    match m.collection
    case None => Err(KeyError)
    case Some(entries) => if entries == [] then Err(IndexError) else Ok(entries[|entries| - 1])
  }

  /** `metadata.get("collection", {})[0]`. */
  function FirstEntry(m: Metadata): (r: Result<Dict, PyError>)
    ensures r.Ok? <==> m.collection.Some? && m.collection.value != []
    ensures m.collection.None? ==> r == Err(KeyError)
    ensures m.collection == Some([]) ==> r == Err(IndexError)
    ensures r.Ok? ==> (m.collection.Some? && |m.collection.value| > 0
                       && r.value == m.collection.value[0])
  {
    match m.collection
    case None => Err(KeyError)
    case Some(entries) => if entries == [] then Err(IndexError) else Ok(entries[0])
  }

  const ContentBase := "https://www.biorxiv.org/content"
  const PdfSuffix := ".full.pdf"

  function PdfUrlOf(doi: string, version: string): string {
    ContentBase + "/" + doi + "v" + version + PdfSuffix
  }

  /** `construct_pdf_url`: the address built from the last collection entry,
      with doi defaulting to "" and version to "1"; the lookup `[-1]`
      raises when there is no collection or it is empty. */
  function ConstructPdfUrl(metadata: Metadata): (url: Result<string, PyError>)
    ensures url.Ok? <==> metadata.collection.Some? && metadata.collection.value != []
    ensures metadata.collection.None? ==> url == Err(KeyError)
    ensures metadata.collection == Some([]) ==> url == Err(IndexError)
    ensures url.Ok? ==> var entries := metadata.collection.value; var last := entries[|entries| - 1];
      url.value == PdfUrlOf(GetOr(last, "doi", ""), GetOr(last, "version", "1"))
  {
    match LastEntry(metadata)
    case Err(e) => Err(e)
    case Ok(last) => Ok(PdfUrlOf(GetOr(last, "doi", ""), GetOr(last, "version", "1")))
  }

  /** The index of the last occurrence of `c` in `s`. */
  function LastIndexOf(s: string, c: char): (r: Option<nat>)
    ensures r.None? ==> c !in s
    ensures r.Some? ==> r.value < |s| && s[r.value] == c && c !in s[r.value + 1..]
  {
    if s == [] then None
    else if s[|s| - 1] == c then Some(|s| - 1)
    else
      var r := LastIndexOf(s[..|s| - 1], c);
      assert s == s[..|s| - 1] + [s[|s| - 1]];
      if r.Some? then assert s[r.value + 1..] == s[..|s| - 1][r.value + 1..] + [s[|s| - 1]]; r
      else r
  }

  /** Reads a PDF address back into (doi, version), splitting at the last `v`. */
  function PdfUrlParts(url: string): Option<(string, string)> {
    var head := ContentBase + "/";
    if StartsWith(url, head) && |head| + |PdfSuffix| <= |url| && IsSuffix(PdfSuffix, url) then
      var middle := url[|head|..|url| - |PdfSuffix|];
      match LastIndexOf(middle, 'v')
      case None => None
      case Some(k) => Some((middle[..k], middle[k + 1..]))
    else None
  }

  lemma LastVersionMark(doi: string, version: string)
    requires 'v' !in version
    ensures LastIndexOf(doi + "v" + version, 'v') == Some(|doi|)
  {
    var middle := doi + "v" + version;
    var k := LastIndexOf(middle, 'v');
    assert middle[|doi|] == 'v';
    assert middle[|doi| + 1..] == version;
  }

  /** The PDF address loses nothing: when the version holds no `v` (bioRxiv
      versions are numbers), the doi and version are read back from it. */
  lemma {:induction false} PdfUrlRoundTrip(doi: string, version: string)
    requires 'v' !in version
    ensures PdfUrlParts(PdfUrlOf(doi, version)) == Some((doi, version))
  {
    var head := ContentBase + "/";
    var middle := doi + "v" + version;
    assert PdfUrlOf(doi, version) == head + middle + PdfSuffix;
    SliceMiddle(head, middle, PdfSuffix);
    LastVersionMark(doi, version);
    assert middle[..|doi|] == doi;
    assert middle[|doi| + 1..] == version;
  }

  /** The PDF address depends only on the last collection entry. */
  lemma PdfUrlUsesLastEntry(earlier: seq<Dict>, earlier': seq<Dict>, last: Dict)
    ensures ConstructPdfUrl(Metadata(Some(earlier + [last])))
         == ConstructPdfUrl(Metadata(Some(earlier' + [last])))
  {
  }

  // ---------------------------------------------------------------------
  // Text extraction
  // ---------------------------------------------------------------------

  /** What the network returned for one DOI: the metadata JSON, the
      Content-Type header of the PDF response (`None` when absent) and the
      text pdfplumber extracted from each page. */
  datatype Fetched = Fetched(metadata: Metadata, contentType: Option<string>, pages: seq<string>)

  /** The dictionary `extract_pdf_text` returns. */
  datatype Paper = Paper(text: string, url: string, doi: string, title: string)

  const PdfContentType := "application/pdf"

  /** The pages' texts one after another. */
  function Concat(pages: seq<string>): string {
    if pages == [] then "" else Concat(pages[..|pages| - 1]) + pages[|pages| - 1]
  }

  /** `all_text += page.extract_text()` over the pages, in order. */
  method ConcatPages(pages: seq<string>) returns (allText: string)
    ensures allText == Concat(pages)
  {
    allText := "";
    var i := 0;
    while i < |pages|
      invariant 0 <= i <= |pages|
      invariant allText == Concat(pages[..i])
    {
      assert pages[..i + 1][..i] == pages[..i];
      allText := allText + pages[i];
      i := i + 1;
    }
    assert pages[..i] == pages;
  }

  /** The result of `extract_pdf_text`: the title from the last collection
      entry and the doi from the first; a response that is not a PDF gives
      empty text, doi and title; a missing or empty collection raises. */
  function PaperOf(fetched: Fetched): (r: Result<Paper, PyError>)
    ensures r.Ok? <==> fetched.metadata.collection.Some? && fetched.metadata.collection.value != []
    ensures fetched.metadata.collection.None? ==> r == Err(KeyError)
    ensures fetched.metadata.collection == Some([]) ==> r == Err(IndexError)
    ensures r.Ok? ==> r.value.url == ConstructPdfUrl(fetched.metadata).value
    ensures r.Ok? && fetched.contentType != Some(PdfContentType) ==>
      r.value.text == "" && r.value.doi == "" && r.value.title == ""
    ensures r.Ok? && fetched.contentType == Some(PdfContentType) ==>
      var entries := fetched.metadata.collection.value;
      && r.value.text == Concat(fetched.pages)
      && r.value.title == GetOr(entries[|entries| - 1], "title", "")
      && r.value.doi == GetOr(entries[0], "doi", "")
  {
    match LastEntry(fetched.metadata)
    case Err(e) => Err(e)
    case Ok(last) =>
      var url := ConstructPdfUrl(fetched.metadata).value;
      if fetched.contentType != Some(PdfContentType) then Ok(Paper("", url, "", ""))
      else Ok(Paper(Concat(fetched.pages), url,
                    GetOr(FirstEntry(fetched.metadata).value, "doi", ""),
                    GetOr(last, "title", "")))
  }

  /** When the collection lists several versions, the title comes from the
      newest (last) entry while the doi comes from the oldest (first). */
  lemma TitleFromLastDoiFromFirst(first: Dict, middle: seq<Dict>, last: Dict, pages: seq<string>)
    ensures var r := PaperOf(Fetched(Metadata(Some([first] + middle + [last])), Some(PdfContentType), pages));
      r.Ok? && r.value.title == GetOr(last, "title", "") && r.value.doi == GetOr(first, "doi", "")
  {
    var entries := [first] + middle + [last];
    assert entries[0] == first && entries[|entries| - 1] == last;
  }

  /** `extract_pdf_text` after the downloads. */
  method ExtractPdfText(fetched: Fetched) returns (r: Result<Paper, PyError>)
    ensures r == PaperOf(fetched)
  {
    var lastEntry := LastEntry(fetched.metadata);
    if lastEntry.Err? {
      return Err(lastEntry.error);
    }
    var title := GetOr(lastEntry.value, "title", "");
    var pdfUrl := ConstructPdfUrl(fetched.metadata).value;
    if fetched.contentType != Some(PdfContentType) {
      return Ok(Paper("", pdfUrl, "", ""));
    }
    var allText := ConcatPages(fetched.pages);
    r := Ok(Paper(allText, pdfUrl, GetOr(FirstEntry(fetched.metadata).value, "doi", ""), title));
  }

  // ---------------------------------------------------------------------
  // Chunks
  // ---------------------------------------------------------------------

  /** `chunk.replace("\n", " ").strip()`. */
  function CleanChunk(chunk: string): (r: string)
    ensures '\n' !in r
    ensures IsStripped(r)
    ensures |r| <= |chunk|
    ensures var spaced := ReplaceChar(chunk, '\n', ' ');
      exists i :: TrimmedAt(spaced, r, i)
  {
    var spaced := ReplaceChar(chunk, '\n', ' ');
    StripKeepsAbsent(spaced, '\n');
    StripPiece(spaced);
    assert TrimmedAt(spaced, Strip(spaced), LeadingSpaces(spaced));
    Strip(spaced)
  }

  /** The clean chunk is determined: any stripped string that is left once
      whitespace is cut off both ends of the spaced chunk is the clean one. */
  lemma CleanChunkUnique(chunk: string, r: string, i: nat)
    requires TrimmedAt(ReplaceChar(chunk, '\n', ' '), r, i) && IsStripped(r)
    ensures r == CleanChunk(chunk)
  {
    StripUnique(ReplaceChar(chunk, '\n', ' '), r, i);
  }

  /** A chunk is left as it is exactly when it is already clean, so
      cleaning twice is cleaning once. */
  lemma CleanChunkFixpoints(chunk: string)
    ensures CleanChunk(chunk) == chunk <==> '\n' !in chunk && IsStripped(chunk)
    ensures CleanChunk(CleanChunk(chunk)) == CleanChunk(chunk)
  {
    if '\n' !in chunk {
      assert ReplaceChar(chunk, '\n', ' ') == chunk;
      StripUnchangedIff(chunk);
    }
    var c := CleanChunk(chunk);
    assert ReplaceChar(c, '\n', ' ') == c;
    StripUnchangedIff(c);
  }

  /** The list comprehension of `get_biorxiv_chunks`: one clean chunk per
      chunk, in the same order. */
  function CleanChunks(chunks: seq<string>): (r: seq<string>)
    ensures |r| == |chunks|
    ensures forall k :: 0 <= k < |r| ==> r[k] == CleanChunk(chunks[k])
    ensures forall k :: 0 <= k < |r| ==> '\n' !in r[k] && IsStripped(r[k])
  {
    seq(|chunks|, k requires 0 <= k < |chunks| => CleanChunk(chunks[k]))
  }

  /** The dictionary `get_biorxiv_chunks` returns: the paper as
      `extract_pdf_text` gave it, plus the "chunks" key. */
  datatype ChunkedPaper = ChunkedPaper(paper: Paper, chunks: seq<string>)

  const DefaultChunkSize := 1000
  const DefaultChunkOverlap := 100

  /** Lines 77-82 of `get_biorxiv_chunks`: split the text with the given
      sizes (the splitter is langchain's, an input here) and clean each
      chunk; the other fields are kept. */
  function WithChunks(data: Paper, splitter: (string, nat, nat) -> seq<string>,
                      chunkSize: nat, chunkOverlap: nat): (r: ChunkedPaper)
    ensures r.paper == data
    ensures r.chunks == CleanChunks(splitter(data.text, chunkSize, chunkOverlap))
  {
    ChunkedPaper(data, CleanChunks(splitter(data.text, chunkSize, chunkOverlap)))
  }

  function ChunkedPaperOf(fetched: Fetched, splitter: (string, nat, nat) -> seq<string>,
                          chunkSize: nat, chunkOverlap: nat): Result<ChunkedPaper, PyError>
  {
    match PaperOf(fetched)
    case Err(e) => Err(e)
    case Ok(data) => Ok(WithChunks(data, splitter, chunkSize, chunkOverlap))
  }

  /** `get_biorxiv_chunks`, with its defaults of 1000 and 100. */
  method GetBiorxivChunks(fetched: Fetched, splitter: (string, nat, nat) -> seq<string>,
                          chunkSize: nat := DefaultChunkSize,
                          chunkOverlap: nat := DefaultChunkOverlap)
    returns (r: Result<ChunkedPaper, PyError>)
    ensures r.Err? <==> PaperOf(fetched).Err?
    ensures r.Err? ==> r.error == PaperOf(fetched).error
    ensures r.Ok? ==> r.value.paper == PaperOf(fetched).value
    ensures r.Ok? ==> var raw := splitter(r.value.paper.text, chunkSize, chunkOverlap);
      |r.value.chunks| == |raw| && forall k :: 0 <= k < |raw| ==> r.value.chunks[k] == CleanChunk(raw[k])
    ensures r == ChunkedPaperOf(fetched, splitter, chunkSize, chunkOverlap)
  {
    var data := ExtractPdfText(fetched);
    if data.Err? {
      return Err(data.error);
    }
    r := Ok(WithChunks(data.value, splitter, chunkSize, chunkOverlap));
  }
}
