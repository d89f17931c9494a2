/** app.py: the control rules of the Streamlit page. It parses the DOI box,
    loads the DOIs by one of two strategies, guards the ask step and sizes
    retrieval. `st.session_state` and the module-level `current_dois` become
    the fields of a `Session`. The chroma collection is passed in and out as
    a `Store` value. `extract_doi_text` and `add_doi_embeddings`, which the
    page imports but which are not part of this model, are function
    parameters. So is `search_database`, which `Embeddings` models: the ask
    step takes it as a parameter, and `AskUsesSearchDatabase` instantiates
    it with `Embeddings.ResultText` over the encoder and chromadb's ranking. */
module App {
  import opened Common
  import opened PyText
  import opened Embeddings

  // ---------------------------------------------------------------------
  // DOI parsing
  // ---------------------------------------------------------------------

  /** What one line contributes: itself stripped, unless it is blank. */
  function Kept(line: string): seq<string> {
    if Strip(line) != "" then [Strip(line)] else []
  }

  /** `[d.strip() for d in lines if d.strip()]`. */
  function StrippedNonBlank(lines: seq<string>): seq<string> {
    if lines == [] then [] else Kept(lines[0]) + StrippedNonBlank(lines[1..])
  }

  /** Every element is a possible DOI: non-empty, no surrounding whitespace. */
  predicate AllClean(xs: seq<string>) {
    forall k :: 0 <= k < |xs| ==> xs[k] != "" && IsStripped(xs[k])
  }

  predicate NoNewlines(xs: seq<string>) {
    forall k :: 0 <= k < |xs| ==> '\n' !in xs[k]
  }

  lemma ConcatClean(a: seq<string>, b: seq<string>)
    ensures AllClean(a) && AllClean(b) ==> AllClean(a + b)
    ensures NoNewlines(a) && NoNewlines(b) ==> NoNewlines(a + b)
  {
    assert forall k :: |a| <= k < |a + b| ==> (a + b)[k] == b[k - |a|];
  }

  lemma KeptClean(line: string)
    ensures AllClean(Kept(line))
    ensures '\n' !in line ==> NoNewlines(Kept(line))
  {
    StripKeepsAbsent(line, '\n');
  }

  /** Every DOI kept is non-empty and stripped, and holds no newline when no
      line does. */
  lemma {:induction false} StrippedNonBlankClean(lines: seq<string>)
    ensures var dois := StrippedNonBlank(lines);
      && |dois| <= |lines|
      && AllClean(dois)
      && (NoNewlines(lines) ==> NoNewlines(dois))
  {
    if lines != [] {
      var rest := lines[1..];
      StrippedNonBlankClean(rest);
      KeptClean(lines[0]);
      assert NoNewlines(lines) ==> NoNewlines(rest) by {
        assert forall j :: 0 <= j < |rest| ==> rest[j] == lines[j + 1];
      }
      ConcatClean(Kept(lines[0]), StrippedNonBlank(rest));
    }
  }

  /** The DOI list of the text box: its lines, stripped, blank lines dropped. */
  function ParseDois(input: string): (dois: seq<string>)
    ensures forall k :: 0 <= k < |dois| ==> dois[k] != "" && IsStripped(dois[k]) && '\n' !in dois[k]
  {
    StrippedNonBlankClean(Split(input, '\n'));
    StrippedNonBlank(Split(input, '\n'))
  }

  /** The clean-up works line by line: the DOIs of two blocks of lines are
      the DOIs of the first block followed by those of the second, so the
      input order is kept. */
  lemma {:induction false} StrippedNonBlankConcat(xs: seq<string>, ys: seq<string>)
    ensures StrippedNonBlank(xs + ys) == StrippedNonBlank(xs) + StrippedNonBlank(ys)
  {
    if xs != [] {
      StrippedNonBlankConcat(xs[1..], ys);
      StrippedNonBlankConcatStep(xs, ys);
    } else {
      assert xs + ys == ys;
      assert StrippedNonBlank(xs) + StrippedNonBlank(ys) == StrippedNonBlank(ys);
    }
  }

  lemma StrippedNonBlankConcatStep(xs: seq<string>, ys: seq<string>)
    requires xs != []
    requires StrippedNonBlank(xs[1..] + ys) == StrippedNonBlank(xs[1..]) + StrippedNonBlank(ys)
    ensures StrippedNonBlank(xs + ys) == StrippedNonBlank(xs) + StrippedNonBlank(ys)
  {
    assert (xs + ys)[0] == xs[0] && (xs + ys)[1..] == xs[1..] + ys;
    var head, a, b := Kept(xs[0]), StrippedNonBlank(xs[1..]), StrippedNonBlank(ys);
    assert StrippedNonBlank(xs + ys) == head + (a + b);
    assert head + (a + b) == (head + a) + b;
  }

  /** A line is kept, stripped, exactly when it is not blank. */
  lemma StrippedNonBlankOne(line: string)
    ensures StrippedNonBlank([line]) == if AllSpace(line) then [] else [Strip(line)]
  {
    assert [line][1..] == [];
    assert StrippedNonBlank([line]) == Kept(line);
    StripBlankIff(line);
  }

  /** Lines that are already clean DOIs come back unchanged. */
  lemma {:induction false} StrippedNonBlankOfClean(dois: seq<string>)
    requires forall k :: 0 <= k < |dois| ==> dois[k] != "" && IsStripped(dois[k])
    ensures StrippedNonBlank(dois) == dois
  {
    if dois != [] {
      StrippedNonBlankOfClean(dois[1..]);
      StripUnchangedIff(dois[0]);
      assert dois == [dois[0]] + dois[1..];
    }
  }

  /** Writing DOIs one per line and parsing the box gives them back. */
  lemma ParseDoisRoundTrip(dois: seq<string>)
    requires forall k :: 0 <= k < |dois| ==> dois[k] != "" && IsStripped(dois[k]) && '\n' !in dois[k]
    ensures ParseDois(Join(dois, '\n')) == dois
  {
    if dois == [] {
      StrippedNonBlankOne("");
    } else {
      SplitJoin(dois, '\n');
      StrippedNonBlankOfClean(dois);
    }
  }

  /** No DOI is found exactly when every line is blank. */
  lemma {:induction false} StrippedNonBlankEmpty(lines: seq<string>)
    ensures StrippedNonBlank(lines) == [] <==> forall j :: 0 <= j < |lines| ==> AllSpace(lines[j])
  {
    if lines != [] {
      var rest := lines[1..];
      StrippedNonBlankEmpty(rest);
      assert StrippedNonBlank(lines) == Kept(lines[0]) + StrippedNonBlank(rest);
      StripBlankIff(lines[0]);
      assert forall j :: 1 <= j < |lines| ==> lines[j] == rest[j - 1];
    }
  }

  /** Joined with a separator that is itself whitespace, the pieces are all
      blank exactly when the whole is. */
  lemma {:induction false} AllSpaceJoin(xs: seq<string>, sep: char)
    requires IsSpace(sep)
    ensures AllSpace(Join(xs, sep)) <==> forall j :: 0 <= j < |xs| ==> AllSpace(xs[j])
  {
    if |xs| >= 2 {
      AllSpaceJoin(xs[1..], sep);
      var rest := Join(xs[1..], sep);
      var s := xs[0] + [sep] + rest;
      assert forall k :: 0 <= k < |xs[0]| ==> s[k] == xs[0][k];
      assert forall k :: 0 <= k < |rest| ==> s[|xs[0]| + 1 + k] == rest[k];
      assert forall j :: 1 <= j < |xs| ==> xs[j] == xs[1..][j - 1];
    }
  }

  /** The load is refused exactly when the box holds only whitespace. */
  lemma ParseDoisEmptyIff(input: string)
    ensures ParseDois(input) == [] <==> AllSpace(input)
  {
    var lines := Split(input, '\n');
    StrippedNonBlankEmpty(lines);
    AllSpaceJoin(lines, '\n');
    JoinSplit(input, '\n');
  }

  // ---------------------------------------------------------------------
  // Retrieval size
  // ---------------------------------------------------------------------

  const MaxTopK := 15

  /** `min(int(count * 0.2), 15)`: for a count of records, one fifth rounded
      down, at most 15. */
  function TopK(count: nat): (k: nat)
    ensures k <= MaxTopK && 5 * k <= count
    ensures k == MaxTopK || count < 5 * (k + 1)
  {
    Min(count / 5, MaxTopK)
  }

  /** Fewer than five records give no retrieved chunk at all. */
  lemma TopKZeroBelowFive(count: nat)
    requires count < 5
    ensures TopK(count) == 0
  {
  }

  /** A larger store never retrieves fewer chunks. */
  lemma TopKMonotone(m: nat, n: nat)
    requires m <= n
    ensures TopK(m) <= TopK(n)
  {
  }

  // ---------------------------------------------------------------------
  // Loading
  // ---------------------------------------------------------------------

  /** The message shown for one DOI: fetched or ingested, or a warning. */
  datatype Report = Success(doi: string) | Warning(doi: string)

  function ReportOf(doi: string, data: Option<Dict>): (report: Report)
    ensures report.doi == doi
    ensures report.Warning? <==> data.None?
  {
    if data.None? then Warning(doi) else Success(doi)
  }

  /** What `add_doi_embeddings` returns (the paper's dictionary, or `None`
      when the text could not be fetched) and the collection after it. */
  datatype EmbedReply = EmbedReply(data: Option<Dict>, store: Store)

  /** The collection after a run of `add_doi_embeddings`, and its reports. */
  datatype Ingested = Ingested(store: Store, reports: seq<Report>)

  /** The embedding strategy: every DOI, in order, goes through
      `add_doi_embeddings`, each one seeing the store the previous left. */
  function EmbedAll(store: Store, dois: seq<string>, embedDoi: (string, Store) -> EmbedReply): Ingested {
    if dois == [] then Ingested(store, [])
    else
      var before := EmbedAll(store, dois[..|dois| - 1], embedDoi);
      var doi := dois[|dois| - 1];
      var reply := embedDoi(doi, before.store);
      Ingested(reply.store, before.reports + [ReportOf(doi, reply.data)])
  }

  /** There is one report per DOI, in the order of the DOIs. */
  lemma {:induction false} EmbedAllReports(store: Store, dois: seq<string>, embedDoi: (string, Store) -> EmbedReply)
    ensures var reports := EmbedAll(store, dois, embedDoi).reports;
      && |reports| == |dois|
      && forall k :: 0 <= k < |dois| ==> reports[k].doi == dois[k]
  {
    if dois != [] {
      var init := dois[..|dois| - 1];
      EmbedAllReports(store, init, embedDoi);
      assert forall k :: 0 <= k < |init| ==> init[k] == dois[k];
    }
  }

  /** One more DOI is one more call on the store the others left. */
  lemma EmbedAllSnoc(store: Store, dois: seq<string>, doi: string, embedDoi: (string, Store) -> EmbedReply)
    ensures var before := EmbedAll(store, dois, embedDoi);
      var reply := embedDoi(doi, before.store);
      EmbedAll(store, dois + [doi], embedDoi) == Ingested(reply.store, before.reports + [ReportOf(doi, reply.data)])
  {
    assert (dois + [doi])[..|dois|] == dois;
  }

  /** The text fetch of the single-DOI strategy sets the article text and
      title from the fetched dictionary, each defaulting to "". */
  function FetchedField(previous: Option<string>, data: Option<Dict>, key: string): (field: Option<string>)
    ensures data.None? ==> field == previous
    ensures data.Some? && key in data.value ==> field == Some(data.value[key])
    ensures data.Some? && key !in data.value ==> field == Some("")
  {
    if data.None? then previous else Some(GetOr(data.value, key, ""))
  }

  datatype LoadOutcome =
    | NoDois                    // "Please enter at least one DOI."
    | Loaded(reports: seq<Report>)

  /** The `ScholarDigestAI` object, known here only by the article text it
      was built with. */
  datatype Assistant = Assistant(articleText: Option<string>)

  // ---------------------------------------------------------------------
  // Asking
  // ---------------------------------------------------------------------

  datatype AskOutcome =
    | NotLoaded                 // "Please load data before asking questions."
    | BlankQuestion             // "Please enter a question."
    | Consult(assistant: Assistant, question: string, technicalLevel: string, model: string,
              relevantSections: Option<string>)

  /** The page state that survives between runs: the module-level
      `current_dois` and the session keys `dataset_loaded`, `full_text`,
      `title` and `scholar_ai`. A missing key is `None` (or `false`). */
  class Session {
    var currentDois: seq<string>
    var datasetLoaded: bool
    var fullText: Option<string>
    var title: Option<string>
    var assistant: Option<Assistant>

    /** A loaded dataset always comes with an assistant to ask. */
    ghost predicate Valid()
      reads this
    {
      datasetLoaded ==> assistant.Some?
    }

    /** A fresh session: nothing loaded yet. */
    constructor ()
      ensures Valid()
      ensures currentDois == [] && !datasetLoaded
      ensures fullText == None && title == None && assistant == None
    {
      currentDois := [];
      datasetLoaded := false;
      fullText := None;
      title := None;
      assistant := None;
    }

    /** The single-DOI strategy for one DOI: fetch its text and, when the
        fetch succeeds, keep the text and the title. */
    method FetchFullText(doi: string, extractDoiText: string -> Option<Dict>) returns (report: Report)
      modifies this`fullText, this`title
      ensures var data := extractDoiText(doi);
        && report == ReportOf(doi, data)
        && fullText == FetchedField(old(fullText), data, "text")
        && title == FetchedField(old(title), data, "title")
    {
      var docData := extractDoiText(doi);
      if docData.Some? {
        fullText := Some(GetOr(docData.value, "text", ""));
        title := Some(GetOr(docData.value, "title", ""));
      }
      report := ReportOf(doi, docData);
    }

    /** The "Load Data" button. `extractDoiText` and `embedDoi` stand for
        `extract_doi_text` and `add_doi_embeddings`; `store` is the
        collection before the load and `newStore` the collection after. */
    method Load(doisInput: string, extractDoiText: string -> Option<Dict>,
                embedDoi: (string, Store) -> EmbedReply, store: Store)
      returns (outcome: LoadOutcome, newStore: Store)
      requires Valid()
      modifies this
      ensures Valid()
      ensures var dois := ParseDois(doisInput);
        && (dois == [] ==> outcome == NoDois && newStore == store && unchanged(this))
        && (dois != [] ==> Loads(dois, extractDoiText, embedDoi, store, old(fullText), old(title), outcome, newStore))
    {
      var rawDois := ParseDois(doisInput);
      if rawDois == [] {
        return NoDois, store;
      }
      outcome, newStore := LoadDois(rawDois, extractDoiText, embedDoi, store);
    }

    /** What loading a non-empty DOI list leaves: the list as the current
        DOIs, the dataset loaded even when every fetch failed, an assistant
        built with the article text, and then per strategy: with one DOI the
        text fetch only, the store untouched; with several, every DOI
        ingested in order, the article text and title untouched. */
    ghost predicate Loads(dois: seq<string>, extractDoiText: string -> Option<Dict>,
                          embedDoi: (string, Store) -> EmbedReply, store: Store,
                          oldFullText: Option<string>, oldTitle: Option<string>,
                          outcome: LoadOutcome, newStore: Store)
      requires dois != []
      reads this
    {
      && outcome.Loaded? && currentDois == dois && datasetLoaded
      && assistant == Some(Assistant(fullText))
      && (|dois| == 1 ==>
            var data := extractDoiText(dois[0]);
            && newStore == store
            && outcome.reports == [ReportOf(dois[0], data)]
            && fullText == FetchedField(oldFullText, data, "text")
            && title == FetchedField(oldTitle, data, "title"))
      && (|dois| > 1 ==>
            && Ingested(newStore, outcome.reports) == EmbedAll(store, dois, embedDoi)
            && fullText == oldFullText && title == oldTitle)
    }

    /** The loop over the parsed DOIs. */
    method LoadDois(rawDois: seq<string>, extractDoiText: string -> Option<Dict>,
                    embedDoi: (string, Store) -> EmbedReply, store: Store)
      returns (outcome: LoadOutcome, newStore: Store)
      requires rawDois != []
      modifies this
      ensures Loads(rawDois, extractDoiText, embedDoi, store, old(fullText), old(title), outcome, newStore)
    {
      currentDois := rawDois;
      datasetLoaded := false;
      newStore := store;
      var reports := [];
      var i := 0;
      while i < |rawDois|
        invariant 0 <= i <= |rawDois|
        invariant currentDois == rawDois && !datasetLoaded
        invariant |rawDois| > 1 ==> Ingested(newStore, reports) == EmbedAll(store, rawDois[..i], embedDoi)
                                    && fullText == old(fullText) && title == old(title)
        invariant |rawDois| == 1 ==> newStore == store
        invariant |rawDois| == 1 && i == 0 ==> reports == [] && fullText == old(fullText) && title == old(title)
        invariant |rawDois| == 1 && i == 1 ==>
          var data := extractDoiText(rawDois[0]);
          && reports == [ReportOf(rawDois[0], data)]
          && fullText == FetchedField(old(fullText), data, "text")
          && title == FetchedField(old(title), data, "title")
      {
        var doi := rawDois[i];
        if |rawDois| == 1 {
          var report := FetchFullText(doi, extractDoiText);
          reports := reports + [report];
        } else {
          EmbedAllSnoc(store, rawDois[..i], doi, embedDoi);
          assert rawDois[..i + 1] == rawDois[..i] + [doi];
          var data := embedDoi(doi, newStore);
          newStore := data.store;
          reports := reports + [ReportOf(doi, data.data)];
        }
        i := i + 1;
      }
      assert rawDois[..i] == rawDois;
      datasetLoaded := true;
      assistant := Some(Assistant(fullText));
      outcome := Loaded(reports);
    }

    /** The "Ask AI" button, up to the call of the assistant: refused while
        nothing is loaded or when the question is blank; otherwise the
        question goes to the assistant, with retrieved sections only when
        several DOIs are loaded. `search` stands for `search_database` with
        the page's encoder; `store` is the collection, so its size is
        `collection.count()`. */
    function Ask(question: string, technicalLevel: string, model: string, store: Store,
                 search: (Store, string, nat) -> string): (outcome: AskOutcome)
      requires Valid()
      reads this
      ensures outcome == NotLoaded <==> !datasetLoaded
      ensures outcome == BlankQuestion <==> datasetLoaded && AllSpace(question)
      ensures outcome.Consult? ==>
        && outcome.assistant == assistant.value
        && outcome.question == question
        && outcome.technicalLevel == technicalLevel
        && outcome.model == model
        && (outcome.relevantSections.Some? <==> |currentDois| > 1)
        && (outcome.relevantSections.Some? ==>
              outcome.relevantSections.value == search(store, question, TopK(|store|)))
    {
      StripBlankIff(question);
      if !datasetLoaded then NotLoaded
      else if Strip(question) == "" then BlankQuestion
      else
        var relevantSections := if |currentDois| > 1 then Some(search(store, question, TopK(|store|))) else None;
        Consult(assistant.value, question, technicalLevel, model, relevantSections)
    }

    /** One run of the page: the load step when its button was pressed, then
        the ask step when its button was pressed, unless the load step
        returned early for want of a DOI. Here the DOIs of the last load are
        kept from run to run, as the ask step's retrieval test intends (see
        `ScriptRun` for the script as it behaves). */
    method Run(loadPressed: bool, doisInput: string, askPressed: bool,
               question: string, technicalLevel: string, model: string,
               extractDoiText: string -> Option<Dict>, embedDoi: (string, Store) -> EmbedReply,
               search: (Store, string, nat) -> string, store: Store)
      returns (load: Option<LoadOutcome>, ask: Option<AskOutcome>, newStore: Store)
      requires Valid()
      modifies this
      ensures Valid()
      ensures !loadPressed ==> load == None && newStore == store && unchanged(this)
      ensures loadPressed ==> load.Some? && (load.value == NoDois <==> ParseDois(doisInput) == [])
      ensures loadPressed && ParseDois(doisInput) == [] ==> newStore == store && unchanged(this)
      ensures loadPressed && ParseDois(doisInput) != [] ==>
        Loads(ParseDois(doisInput), extractDoiText, embedDoi, store, old(fullText), old(title), load.value, newStore)
      ensures load == Some(NoDois) ==> ask == None
      ensures !askPressed ==> ask == None
      ensures askPressed && load != Some(NoDois) ==>
        ask == Some(Ask(question, technicalLevel, model, newStore, search))
    {
      load, ask, newStore := None, None, store;
      if loadPressed {
        var outcome;
        outcome, newStore := Load(doisInput, extractDoiText, embedDoi, store);
        load := Some(outcome);
        if outcome == NoDois {
          return;
        }
      }
      if askPressed {
        ask := Some(Ask(question, technicalLevel, model, newStore, search));
      }
    }

    /** One run of the script as Streamlit executes it: every interaction
        runs the script module afresh, so line 18 sets `current_dois` back
        to [] before the buttons are read, while `st.session_state`
        survives. A run caused by "Ask AI" alone therefore never retrieves
        sections, whatever the previous run loaded. */
    method ScriptRun(loadPressed: bool, doisInput: string, askPressed: bool,
                     question: string, technicalLevel: string, model: string,
                     extractDoiText: string -> Option<Dict>, embedDoi: (string, Store) -> EmbedReply,
                     search: (Store, string, nat) -> string, store: Store)
      returns (load: Option<LoadOutcome>, ask: Option<AskOutcome>, newStore: Store)
      requires Valid()
      modifies this
      ensures Valid()
      ensures !loadPressed ==> load == None && currentDois == [] && newStore == store
      ensures !loadPressed ==>
        && datasetLoaded == old(datasetLoaded) && assistant == old(assistant)
        && fullText == old(fullText) && title == old(title)
      ensures loadPressed ==> load.Some? && (load.value == NoDois <==> ParseDois(doisInput) == [])
      ensures loadPressed && ParseDois(doisInput) == [] ==>
        && newStore == store && currentDois == []
        && datasetLoaded == old(datasetLoaded) && assistant == old(assistant)
        && fullText == old(fullText) && title == old(title)
      ensures loadPressed && ParseDois(doisInput) != [] ==>
        Loads(ParseDois(doisInput), extractDoiText, embedDoi, store, old(fullText), old(title), load.value, newStore)
      ensures load == Some(NoDois) ==> ask == None
      ensures !askPressed ==> ask == None
      ensures askPressed && load != Some(NoDois) ==>
        ask == Some(Ask(question, technicalLevel, model, newStore, search))
      ensures !loadPressed && ask.Some? && ask.value.Consult? ==> ask.value.relevantSections == None
    {
      currentDois := [];
      load, ask, newStore := Run(loadPressed, doisInput, askPressed, question, technicalLevel, model,
                                 extractDoiText, embedDoi, search, store);
    }
  }

  /** Two runs of the page, "Load Data" with the DOIs in `doisInput` and
      then "Ask AI" with `question`, with `currentDois` kept between runs:
      a load of several DOIs makes the ask step retrieve sections. */
  method AskAfterLoad(doisInput: string, question: string, technicalLevel: string, model: string,
                      extractDoiText: string -> Option<Dict>, embedDoi: (string, Store) -> EmbedReply,
                      search: (Store, string, nat) -> string, store: Store)
    returns (ask: AskOutcome)
    requires |ParseDois(doisInput)| > 1
    requires !AllSpace(question)
    ensures ask.Consult? && ask.question == question && ask.relevantSections.Some?
  {
    var session := new Session();
    var load, asked, afterLoad := session.Run(true, doisInput, false, question, technicalLevel, model,
                                              extractDoiText, embedDoi, search, store);
    assert session.datasetLoaded && |session.currentDois| > 1;
    load, asked, afterLoad := session.Run(false, "", true, question, technicalLevel, model,
                                          extractDoiText, embedDoi, search, afterLoad);
    assert session.datasetLoaded && |session.currentDois| > 1;
    ask := asked.value;
  }

  /** The same two runs as Streamlit executes the script: line 18 empties
      `current_dois` again before the ask step, so no section is ever
      retrieved, however many DOIs were loaded. */
  method AskAfterScriptedLoad(doisInput: string, question: string, technicalLevel: string, model: string,
                              extractDoiText: string -> Option<Dict>, embedDoi: (string, Store) -> EmbedReply,
                              search: (Store, string, nat) -> string, store: Store)
    returns (ask: AskOutcome)
    requires |ParseDois(doisInput)| > 1
    requires !AllSpace(question)
    ensures ask.Consult? && ask.question == question && ask.relevantSections.None?
  {
    var session := new Session();
    var load, asked, afterLoad := session.ScriptRun(true, doisInput, false, question, technicalLevel, model,
                                                    extractDoiText, embedDoi, search, store);
    assert session.datasetLoaded;
    load, asked, afterLoad := session.ScriptRun(false, "", true, question, technicalLevel, model,
                                                extractDoiText, embedDoi, search, afterLoad);
    assert session.datasetLoaded && session.currentDois == [];
    ask := asked.value;
  }

  /** With `search_database` as the search (the encoded question ranked by
      chromadb, its texts joined by `ResultText`), an ask on several loaded
      DOIs sends the assistant the joined texts of the `TopK(count)` best
      records. */
  lemma AskUsesSearchDatabase(session: Session, question: string, technicalLevel: string, model: string,
                              store: Store, encode: string -> Embedding,
                              rank: (Store, Embedding, int) -> Option<QueryResult>)
    requires session.Valid() && session.datasetLoaded && |session.currentDois| > 1
    requires !AllSpace(question)
    ensures var outcome := session.Ask(question, technicalLevel, model, store,
                                       (s, q, k) => ResultText(rank(s, encode(q), k)));
      outcome.Consult? && outcome.relevantSections == Some(ResultText(rank(store, encode(question), TopK(|store|))))
  {
  }
}
