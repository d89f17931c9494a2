# ScholarDigestAI: a Dafny model of its string and collection rules

ScholarDigestAI is a Streamlit page that answers questions about bioRxiv
papers. Given one DOI it fetches the paper's full text and sends it to a
language model. Given several, it hands every DOI to `add_doi_embeddings`,
which is meant to store the paper's chunks with their embeddings in a
chromadb collection. That function is not part of this model. It
presumably resembles `process_biorxiv` in services/embeddings.py, with one
known difference: the page expects it to return None when a fetch fails
(app.py:92), while `process_biorxiv` raises.
The page then means to send the model the chunks the collection finds for
the question. As written it never does: see "## Findings", where the ask
step is shown never to retrieve sections.

Most of the program is glue around outside libraries. This project models
the rules that remain, one module per source file:

- `Etl` (services/etl.py): DOI normalisation, the bioRxiv PDF address,
  which metadata entry gives the title and which the doi, the page-text
  accumulation, and the clean-up of the chunks the text splitter returns.
- `Embeddings` (services/embeddings.py): the record id `"{i}_{doi}"`, the
  upsert loop of `add_embeddings_to_db` over a collection modelled as a
  map from id to record, the post-processing of a query result, and
  `process_biorxiv`.
- `Llm` (services/llm.py): the system prompt and the two-message
  conversation of `explain_paper`.
- `App` (app.py): parsing the DOI box, the single- versus multi-DOI load
  strategy, the ask guards and the retrieval size `top_k`, on a `Session`
  object that holds `current_dois` and the `st.session_state` keys.
- `PyText` and `Common` hold the pieces of Python's `str` and `dict` that
  the services use (`strip`, `lower`, `split`, `join`, `replace`, `str(n)`,
  `dict.get`), and the `Option` and `Result` types.

Everything that crosses the network, the file system or an outside
library is an input. The metadata JSON, the PDF response's Content-Type
and the page texts arrive in an `Etl.Fetched` record. The text splitter,
the sentence encoder, chromadb's ranking (`collection.query`), the
`search_fn` callback, `extract_doi_text` and `add_doi_embeddings` are
function parameters. Embedding vectors are opaque values.

The main results:

- `extract_biorxiv_suffix` returns a lower-case suffix of the stripped,
  lower-cased input. It removes a leading resolver address at most once,
  then a leading `doi:` at most once. So `doi:https://doi.org/x` gives
  `https://doi.org/x`.
- Record ids are injective in (index, doi). So ingest writes exactly one
  record per (chunk, embedding) pair. It leaves every other id untouched.
  Ingesting the same data again changes nothing.
- Ingesting `get_biorxiv_chunks` output keeps a clean collection clean:
  every stored document stays one line with no surrounding whitespace. So
  a non-empty query result drawn from a clean collection, once joined with
  newlines, splits back into the retrieved chunks. An empty result joins
  to "", which splits to one empty string, not to no chunks.
- The DOI list keeps the input order, and each DOI is a non-empty stripped
  line. A box of whitespace alone is refused, and then nothing changes.
- One DOI fetches its text and leaves the collection alone. Several DOIs
  are ingested in order. The dataset counts as loaded even if every fetch
  failed. In a multi-DOI load the article text and title from an earlier
  single-DOI load are kept and handed to the new assistant.
- `top_k` is at most 15 and at most a fifth of the record count.

## Model

| member | source | states |
|---|---|---|
| `Etl.DropResolver` | services/etl.py:14 | the input is returned unchanged exactly when it starts with neither resolver address; otherwise it is one resolver address followed by the result |
| `Etl.DropDoiScheme` | services/etl.py:15 | the input is returned unchanged exactly when it does not start with `doi:`; otherwise it is `doi:` followed by the result |
| `Etl.ExtractBiorxivSuffix` | services/etl.py:11-15 | the DOI is lower-case and a suffix of the stripped, lower-cased input, and equals it when no prefix is present |
| `Etl.DoiSchemeRemovedOnce` | services/etl.py:13-15 | any input that strips and lower-cases to `doi:` + t gives exactly t, so `doi:https://doi.org/x` keeps its resolver and `doi:doi:x` keeps one `doi:` |
| `Etl.HttpsResolverRemovedOnce` | services/etl.py:13-15 | any input that strips and lower-cases to `https://doi.org/` + t gives t with one leading `doi:` removed |
| `Etl.HttpResolverRemovedOnce` | services/etl.py:13-15 | any input that strips and lower-cases to `http://doi.org/` + t gives t with one leading `doi:` removed |
| `Etl.MixedCaseResolver` | services/etl.py:13-15 | `" HTTPS://DOI.ORG/10.1101/X\n"` gives `10.1101/x` |
| `Etl.MetadataUrl` | services/etl.py:18-21 | the details-API address is the fixed prefix, the normalised DOI, then `/na/json` |
| `Etl.LastEntry` | services/etl.py:30 | `collection[-1]` succeeds exactly for a non-empty collection and gives the last entry; KeyError without a collection, IndexError when it is empty |
| `Etl.FirstEntry` | services/etl.py:59 | `collection[0]` succeeds exactly for a non-empty collection and gives the first entry; KeyError without a collection, IndexError when it is empty |
| `Etl.ConstructPdfUrl` | services/etl.py:27-32 | succeeds exactly for a non-empty collection (KeyError without one, IndexError when empty); the address from the last entry's doi (default "") and version (default "1") |
| `Etl.PdfUrlRoundTrip` | services/etl.py:29-32 | the doi and version can be read back from the PDF address when the version holds no `v` |
| `Etl.PdfUrlUsesLastEntry` | services/etl.py:30-31 | entries before the last one do not affect the PDF address |
| `Etl.ConcatPages` | services/etl.py:49-52 | the `+=` loop over the pages yields their concatenation in page order |
| `Etl.PaperOf` | services/etl.py:35-61 | succeeds exactly for a non-empty collection (KeyError without one, IndexError when empty); a non-PDF response gives empty text, doi and title; otherwise the page text, the title of the last entry and the doi of the first |
| `Etl.TitleFromLastDoiFromFirst` | services/etl.py:38-59 | with several versions listed, the title comes from the last entry and the doi from the first |
| `Etl.ExtractPdfText` | services/etl.py:35-61 | the method's result is `PaperOf` of what was fetched |
| `Etl.CleanChunk` | services/etl.py:82 | the cleaned chunk is what is left of the chunk with newlines turned into spaces once only whitespace is cut from its two ends; it has no newline and no whitespace at either end |
| `Etl.CleanChunkUnique` | services/etl.py:82 | any stripped string left by cutting whitespace off both ends of the spaced chunk is the cleaned chunk |
| `Etl.CleanChunkFixpoints` | services/etl.py:82 | cleaning leaves a chunk as it is exactly when it is already clean, so cleaning is idempotent |
| `Etl.CleanChunks` | services/etl.py:82 | one clean chunk per chunk, in the same order |
| `Etl.WithChunks` | services/etl.py:76-82 | the paper's other fields are kept and `chunks` is the cleaned splitter output for its text |
| `Etl.GetBiorxivChunks` | services/etl.py:74-83 | defaults 1000 and 100; fetch errors pass through; otherwise the paper as fetched plus the cleaned chunks, count and order kept |
| `Embeddings.ChunkKeyInjective` | services/embeddings.py:29 | equal ids `"{i}_{doi}"` have equal index and equal doi |
| `Embeddings.ChunkKeysCount` | services/embeddings.py:27-29 | the ids of n chunks of one doi are n distinct strings |
| `Embeddings.ApplyFrame` | services/embeddings.py:28-33 | upserts of other ids leave an id's presence and record unchanged |
| `Embeddings.ApplyStores` | services/embeddings.py:28-33 | with distinct ids, each upserted record is what its id holds afterwards |
| `Embeddings.Upserts` | services/embeddings.py:27-33 | min(len(chunks), len(embeddings)) upserts; the i-th writes chunk i, embedding i and {id: i, title, doi} under `"{i}_{doi}"` |
| `Embeddings.UpsertsDistinct` | services/embeddings.py:29 | no two upserts of one ingest share an id |
| `Embeddings.IngestStoresEveryChunk` | services/embeddings.py:27-33 | after ingest, `"{i}_{doi}"` holds chunk i, embedding i and {id: i, title, doi} for every zipped index |
| `Embeddings.IngestLeavesOtherKeys` | services/embeddings.py:27-33 | every id that is not `"{i}_{doi}"` for an index in range keeps its presence and record |
| `Embeddings.IngestLeavesOtherPapers` | services/embeddings.py:27-33 | the records of every other doi are untouched |
| `Embeddings.IngestKeys` | services/embeddings.py:27-33 | the ids after ingest are the ids before plus one id per zipped pair |
| `Embeddings.IngestCountFromEmpty` | services/embeddings.py:27-33 | ingesting into an empty collection gives exactly min(len(chunks), len(embeddings)) records |
| `Embeddings.ReingestIdempotent` | services/embeddings.py:27-33 | ingesting the same data again leaves the collection, and so its count, as it was |
| `Embeddings.IngestKeepsDocumentsClean` | services/embeddings.py:30 | ingesting chunks cleaned by `get_biorxiv_chunks` keeps every stored document one line and stripped |
| `Embeddings.ResultText` | services/embeddings.py:43-46 | the first query's texts joined with newlines when "documents" is present and non-empty, else "" |
| `Embeddings.ResultTextSplitsIntoRetrieved` | services/embeddings.py:43-44 | when a non-empty list of texts are documents of a clean collection, the joined answer splits back into exactly those texts, in order |
| `Embeddings.Collection.constructor` | services/embeddings.py:17 | a new collection has no records and has received no upserts |
| `Embeddings.Collection.Upsert` | services/embeddings.py:28-33 | insert or overwrite the one record under its id; nothing else changes |
| `Embeddings.Collection.Count` | app.py:119 | the number of records in the collection |
| `Embeddings.Collection.SearchDatabase` | services/embeddings.py:36-46 | the text is the post-processed result of the ranking for the encoded query with the given `top_k` (default 25) |
| `Embeddings.AddEmbeddingsToDb` | services/embeddings.py:21-33 | the collection ends as `Ingest` of its old contents, after exactly the `Upserts` sequence in index order |
| `Embeddings.ProcessBiorxiv` | services/embeddings.py:49-56 | fetch and chunk with the defaults, then ingest; on a fetch error the collection is unchanged |
| `Llm.PromptBackground` | services/llm.py:30 | the background is empty exactly when the article text is falsy |
| `Llm.BuildSystemPrompt` | services/llm.py:20-35 | the prompt starts with the instructions, `"\nTechnical Level: "`, the level and a blank line; the rest is empty for falsy text, else the labelled text |
| `Llm.PromptBackgroundInjective` | services/llm.py:30 | equal backgrounds come from equally truthy texts, and from the same text when truthy |
| `Llm.PromptDeterminesInputs` | services/llm.py:31-35 | for one-line levels, the prompt determines the level and the article text |
| `Llm.ExplainBackground` | services/llm.py:63-72 | truthy article text gives `"Here is the article text: "` + text; otherwise the lead-in followed by `search_fn(question)`, or by nothing without `search_fn` |
| `Llm.ExplainConversation` | services/llm.py:74-89 | two messages, system then user; the system message is the instructions then the background; the user message is the question then the level request |
| `Llm.UserMessageDeterminesInputs` | services/llm.py:85-88 | for one-line levels (the app's selectbox choices), the user message determines the question, which may span several lines, and the level |
| `Llm.ArticleTextBypassesSearch` | services/llm.py:63-68 | with truthy article text the conversation is the same whatever `search_fn` is |
| `App.StrippedNonBlankClean` | app.py:68 | at most one DOI per line; each DOI is non-empty and stripped, and has no newline when no line has one |
| `App.ParseDois` | app.py:68 | every parsed DOI is non-empty, stripped and one line |
| `App.StrippedNonBlankConcat` | app.py:68 | the DOIs of two blocks of lines are those of the first followed by those of the second, so input order is kept |
| `App.StrippedNonBlankOne` | app.py:68 | a line yields its stripped self exactly when it is not blank |
| `App.StrippedNonBlankOfClean` | app.py:68 | lines that already are clean DOIs come back unchanged |
| `App.ParseDoisRoundTrip` | app.py:68 | DOIs written one per line parse back to the same list, the empty list included |
| `App.StrippedNonBlankEmpty` | app.py:68-69 | no DOI is found exactly when every line is blank |
| `App.ParseDoisEmptyIff` | app.py:68-71 | the load is refused exactly when the box holds only whitespace |
| `App.TopK` | app.py:119 | at most 15 and at most count / 5; below 15 it is exactly the largest k with 5k <= count |
| `App.TopKZeroBelowFive` | app.py:119 | fewer than five records give `top_k` 0 |
| `App.TopKMonotone` | app.py:119 | more records never give a smaller `top_k` |
| `App.ReportOf` | app.py:84-95 | one report for the DOI, a warning exactly when nothing was returned |
| `App.EmbedAllReports` | app.py:81-95 | the multi-DOI loop reports once per DOI, in DOI order |
| `App.EmbedAllSnoc` | app.py:90-95 | each further DOI is ingested into the collection the earlier ones left |
| `App.FetchedField` | app.py:83-88 | a failed fetch keeps the old value; a successful one sets the field, defaulting to "" |
| `App.Session.constructor` | app.py:18 | a new session has no DOIs, no dataset loaded, and no text, title or assistant |
| `App.Session.FetchFullText` | app.py:83-89 | the single-DOI fetch sets text and title only on success and reports the outcome |
| `App.Session.Load` | app.py:67-100 | with no DOI: refused, session and collection unchanged; otherwise `Loads` holds |
| `App.Session.LoadDois` | app.py:73-100 | current DOIs set, dataset loaded whatever the fetches gave, assistant built with the article text; one DOI fetches its text and leaves the collection alone; several are ingested in order, leaving text and title alone |
| `App.Session.Ask` | app.py:105-122 | refused exactly when nothing is loaded, or else when the question is blank; otherwise sections are retrieved with `TopK(count)` exactly when more than one DOI is loaded |
| `App.AskUsesSearchDatabase` | app.py:114-120 | with `search_database` as the search, an ask on several loaded DOIs passes on `ResultText` of chromadb's ranking for `TopK(count)` records |
| `App.Session.Run` | app.py:66-130 | one page run with `current_dois` kept between runs: without a load nothing changes; a load with no DOI changes nothing; a load with DOIs leaves the state `Loads` describes; then the ask step unless the load found no DOI |
| `App.Session.ScriptRun` | app.py:17-122 | one page run as Streamlit executes the script: the same load and ask steps, but `current_dois` starts empty, so a run without a load keeps the session keys, has no DOIs and never retrieves sections |
| `App.AskAfterLoad` | app.py:66-122 | a load of several DOIs followed by an ask, with `current_dois` kept between runs, retrieves sections |
| `App.AskAfterScriptedLoad` | app.py:17-122 | the same two runs as Streamlit executes the script never retrieve sections |

## Left out

- `App.ReportOf`: a `Success` report carries the DOI, while the page's success messages show the paper's title and word count (app.py:89, 95). Only the warnings name the DOI (app.py:85, 93). Titles and word counts are display text and are not modelled.
- Network, PDF and file I/O: the HTTP requests and their `raise_for_status`, pdfplumber's page extraction and the temp-file write and delete are outside the model. Their results are inputs.
- `chunk_text` is langchain's RecursiveCharacterTextSplitter, an input function here. Chunk size and overlap guarantees belong to that library.
- `model.encode` vectors are opaque values. chromadb's `collection.query` ranking is an input function, so no similarity, ordering or tie-breaking is modelled. What chromadb does with `n_results` 0 is not modelled either.
- `init_chroma_db`, the SentenceTransformer construction and the module-level OpenAI client and environment set-up are library set-up. A collection is modelled as starting empty. Persistence across restarts is not modelled.
- The LLM calls (`get_llm_response` and the completion handling in `explain_paper`) are outside the model.
- `extract_doi_text`, `add_doi_embeddings` and `ScholarDigestAI` are used by app.py but not defined in the modelled files. They are function parameters or a record holding only the article text.
- The Streamlit widgets, spinners and messages are left out. The success and warning messages are reduced to `App.Report`.
- `Etl.ExtractBiorxivSuffix`: `lower` is modelled for ASCII letters only. Python's full Unicode case mapping is not modelled.
- `App.TopK`: `min(int(count * 0.2), 15)` is modelled as `min(count / 5, 15)` in integer arithmetic. Floating-point rounding of `count * 0.2` is not modelled.
- `Etl.GetBiorxivChunks` returns a new record rather than adding the `chunks` key to the `data` dictionary in place. Nothing else holds that dictionary, so no aliasing is lost.
- Exceptions raised inside the outside collaborators are not modelled. The only errors modelled are the KeyError and IndexError of the `collection` lookups.

## Findings

| source | as written | input that shows it | evidently intended | confidence | as-written member | corrected member |
|---|---|---|---|---|---|---|
| app.py:18 | `current_dois = []` is module-level code, and Streamlit re-executes the whole script on every interaction, so the list is empty again on the run that handles "Ask AI" | load two DOIs in one run, then press "Ask AI" in the next run | the DOIs of the last load decide the ask step, so several DOIs retrieve sections from the collection | medium, not executed | `App.AskAfterScriptedLoad` | `App.AskAfterLoad` |
