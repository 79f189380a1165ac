/** The two answer modes' content builders. Document search suggests the
    top-ranked document's file and page, then the other files among the
    retrieved documents; contact mode keeps the chain's answer and cites
    every retrieved file once. */
module Answers {
  import opened Util
  import opened Retrieval

  const MAIN_MESSAGE: string := "入力内容のテーマに関する情報は、以下のファイルに存在する可能性が高いです。"
  const SUB_MESSAGE: string := "その他、候補を提示します。"
  const SOURCES_HEADING: string := "情報源"

  /** A suggested file and the page of the document it was taken from. */
  datatype Candidate = Candidate(source: string, page: Option<int>)

  /** The content dictionary of an assistant turn, one variant per
      `message_type`. An absent `main_page_number` or `page_number` key is
      `None`. */
  datatype Content =
    | DocumentSearch(mainMessage: string, mainChoice: string, mainPage: Option<int>,
                     subMessage: string, subChoices: seq<Candidate>)
    | Contact(answer: string, message: string, filePaths: seq<string>)

  function CandidateSource(c: Candidate): string
  {
    c.source
  }

  /** The sub-candidates among the documents ranked after the first, read in
      rank order: a document is kept when no earlier one in `rest` has its
      source and its source is not the main choice. */
  function SubCandidates(rest: seq<Document>, main: string): (subs: seq<Candidate>)
    ensures |subs| <= |rest|
    ensures forall k :: 0 <= k < |subs| ==> subs[k].source != main && subs[k].source in Sources(rest)
  {
    if rest == [] then []
    else
      var p, d := rest[..|rest| - 1], rest[|rest| - 1];
      if d.source in Sources(p) || d.source == main then SubCandidates(p, main)
      else SubCandidates(p, main) + [Candidate(d.source, d.page)]
  }

  lemma SubCandidatesSnoc(p: seq<Document>, d: Document, main: string)
    ensures SubCandidates(p + [d], main) ==
      if d.source in Sources(p) || d.source == main then SubCandidates(p, main)
      else SubCandidates(p, main) + [Candidate(d.source, d.page)]
  {
    assert (p + [d])[..|p|] == p;
  }

  /** The sub-choice loop: `seen` is the duplicate check list, which records
      a source before the main-choice test. */
  method BuildSubChoices(rest: seq<Document>, main: string) returns (subs: seq<Candidate>)
    ensures subs == SubCandidates(rest, main)
  {
    subs := [];
    var seen: seq<string> := [];
    for i := 0 to |rest|
      invariant seen == Dedup(Sources(rest[..i]))
      invariant subs == SubCandidates(rest[..i], main)
    {
      assert rest[..i + 1] == rest[..i] + [rest[i]];
      SourcesSnoc(rest[..i], rest[i]);
      DedupSnoc(Sources(rest[..i]), rest[i].source);
      SubCandidatesSnoc(rest[..i], rest[i], main);
      var path := rest[i].source;
      if path in seen {
        continue;
      }
      seen := seen + [path];
      if path == main {
        continue;
      }
      subs := subs + [Candidate(path, rest[i].page)];
    }
    assert rest[..|rest|] == rest;
  }

  /** The content of a document-search turn for the ranked documents `docs`. */
  function DocumentSearchContent(docs: seq<Document>): (c: Content)
    requires |docs| > 0
    ensures c.DocumentSearch? && c.mainMessage == MAIN_MESSAGE
    ensures c.mainChoice == docs[0].source && c.mainPage == docs[0].page
    ensures c.subMessage == SUB_MESSAGE <==> c.subChoices != []
    ensures c.subMessage == "" <==> c.subChoices == []
  {
    var subs := SubCandidates(docs[1..], docs[0].source);
    DocumentSearch(MAIN_MESSAGE, docs[0].source, docs[0].page,
                   if subs != [] then SUB_MESSAGE else "", subs)
  }

  /** Each sub-candidate is a source of `rest` carrying the page of that
      source's first document, and the sub-candidates are in the order of
      those first documents. */
  ghost predicate TakenAtFirstOccurrence(rest: seq<Document>, subs: seq<Candidate>)
  {
    (forall k :: 0 <= k < |subs| ==>
      subs[k].source in Sources(rest) &&
      subs[k].page == rest[FirstIndex(Sources(rest), subs[k].source)].page) &&
    (forall i, j :: 0 <= i < j < |subs| ==>
      FirstIndex(Sources(rest), subs[i].source) < FirstIndex(Sources(rest), subs[j].source))
  }

  /** A later document changes neither the first occurrences nor the pages
      of the sources already seen. */
  lemma TakenExtend(p: seq<Document>, d: Document, subs: seq<Candidate>)
    requires TakenAtFirstOccurrence(p, subs)
    ensures TakenAtFirstOccurrence(p + [d], subs)
    ensures forall k :: 0 <= k < |subs| ==> FirstIndex(Sources(p + [d]), subs[k].source) < |p|
  {
    SourcesSnoc(p, d);
    var s := Sources(p);
    forall k | 0 <= k < |subs|
      ensures FirstIndex(s + [d.source], subs[k].source) == FirstIndex(s, subs[k].source) < |p|
      ensures (p + [d])[FirstIndex(s + [d.source], subs[k].source)] == p[FirstIndex(s, subs[k].source)]
    {
      FirstIndexSnoc(s, d.source, subs[k].source);
    }
  }

  /** A document whose source is new may be taken as the next candidate. */
  lemma TakenAppend(p: seq<Document>, d: Document, subs: seq<Candidate>)
    requires TakenAtFirstOccurrence(p, subs)
    requires d.source !in Sources(p)
    ensures TakenAtFirstOccurrence(p + [d], subs + [Candidate(d.source, d.page)])
  {
    TakenExtend(p, d, subs);
    SourcesSnoc(p, d);
    FirstIndexSnoc(Sources(p), d.source, d.source);
    var s' := Sources(p + [d]);
    assert FirstIndex(s', d.source) == |p|;
    var subs' := subs + [Candidate(d.source, d.page)];
    forall k | 0 <= k < |subs'|
      ensures subs'[k].source in s'
      ensures subs'[k].page == (p + [d])[FirstIndex(s', subs'[k].source)].page
    {
      if k < |subs| {
        assert subs'[k] == subs[k];
      }
    }
    forall i, j | 0 <= i < j < |subs'|
      ensures FirstIndex(s', subs'[i].source) < FirstIndex(s', subs'[j].source)
    {
      assert subs'[i] == subs[i];
      if j < |subs| {
        assert subs'[j] == subs[j];
      }
    }
  }

  lemma TakenStep(p: seq<Document>, d: Document, main: string)
    requires TakenAtFirstOccurrence(p, SubCandidates(p, main))
    ensures TakenAtFirstOccurrence(p + [d], SubCandidates(p + [d], main))
  {
    SubCandidatesSnoc(p, d, main);
    if d.source in Sources(p) || d.source == main {
      TakenExtend(p, d, SubCandidates(p, main));
    } else {
      TakenAppend(p, d, SubCandidates(p, main));
    }
  }

  lemma {:induction false} SubCandidatesFirstOccurrence(rest: seq<Document>, main: string)
    ensures TakenAtFirstOccurrence(rest, SubCandidates(rest, main))
  {
    if rest != [] {
      var p := rest[..|rest| - 1];
      assert rest == p + [rest[|rest| - 1]];
      SubCandidatesFirstOccurrence(p, main);
      TakenStep(p, rest[|rest| - 1], main);
    }
  }

  lemma SourcesStepSeen(p: seq<Document>, d: Document, main: string)
    requires Map(CandidateSource, SubCandidates(p, main)) == Without(Dedup(Sources(p)), main)
    requires d.source in Sources(p)
    ensures Map(CandidateSource, SubCandidates(p + [d], main)) == Without(Dedup(Sources(p + [d])), main)
  {
    SubCandidatesSnoc(p, d, main);
    SourcesSnoc(p, d);
    DedupSnoc(Sources(p), d.source);
  }

  lemma SourcesStepMain(p: seq<Document>, d: Document, main: string)
    requires Map(CandidateSource, SubCandidates(p, main)) == Without(Dedup(Sources(p)), main)
    requires d.source !in Sources(p) && d.source == main
    ensures Map(CandidateSource, SubCandidates(p + [d], main)) == Without(Dedup(Sources(p + [d])), main)
  {
    SubCandidatesSnoc(p, d, main);
    SourcesSnoc(p, d);
    DedupSnoc(Sources(p), d.source);
    WithoutSnoc(Dedup(Sources(p)), d.source, main);
  }

  lemma SourcesStepNew(p: seq<Document>, d: Document, main: string)
    requires Map(CandidateSource, SubCandidates(p, main)) == Without(Dedup(Sources(p)), main)
    requires d.source !in Sources(p) && d.source != main
    ensures Map(CandidateSource, SubCandidates(p + [d], main)) == Without(Dedup(Sources(p + [d])), main)
  {
    SubCandidatesSnoc(p, d, main);
    SourcesSnoc(p, d);
    DedupSnoc(Sources(p), d.source);
    WithoutSnoc(Dedup(Sources(p)), d.source, main);
    var subs := SubCandidates(p, main);
    assert Map(CandidateSource, subs + [Candidate(d.source, d.page)]) == Map(CandidateSource, subs) + [d.source];
  }

  lemma SubCandidatesSourcesStep(p: seq<Document>, d: Document, main: string)
    requires Map(CandidateSource, SubCandidates(p, main)) == Without(Dedup(Sources(p)), main)
    ensures Map(CandidateSource, SubCandidates(p + [d], main)) == Without(Dedup(Sources(p + [d])), main)
  {
    if d.source in Sources(p) {
      SourcesStepSeen(p, d, main);
    } else if d.source == main {
      SourcesStepMain(p, d, main);
    } else {
      SourcesStepNew(p, d, main);
    }
  }

  /** The sub-candidates' sources are the deduplicated sources of `rest`
      with the main choice removed. */
  lemma {:induction false} SubCandidatesSources(rest: seq<Document>, main: string)
    ensures Map(CandidateSource, SubCandidates(rest, main)) == Without(Dedup(Sources(rest)), main)
  {
    if rest != [] {
      var p := rest[..|rest| - 1];
      assert rest == p + [rest[|rest| - 1]];
      SubCandidatesSources(p, main);
      SubCandidatesSourcesStep(p, rest[|rest| - 1], main);
    }
  }

  /** The properties the sub-candidate list is built for. */
  lemma SubCandidatesProperties(rest: seq<Document>, main: string)
    ensures forall c :: c in SubCandidates(rest, main) ==> c.source != main
    ensures forall x :: x in Map(CandidateSource, SubCandidates(rest, main)) <==> x in Sources(rest) && x != main
    ensures Distinct(Map(CandidateSource, SubCandidates(rest, main)))
    ensures TakenAtFirstOccurrence(rest, SubCandidates(rest, main))
  {
    var subs := SubCandidates(rest, main);
    SubCandidatesSources(rest, main);
    SubCandidatesFirstOccurrence(rest, main);
    forall c | c in subs
      ensures c.source != main
    {
      var k :| 0 <= k < |subs| && subs[k] == c;
      assert Map(CandidateSource, subs)[k] == c.source;
    }
  }

  /** The document-search builder: the top-ranked document gives the main
      choice and its page; the sub-choices are built by the loop over the
      remaining documents. */
  method BuildDocumentSearch(docs: seq<Document>) returns (content: Content)
    requires |docs| > 0
    ensures content == DocumentSearchContent(docs)
    ensures content.DocumentSearch?
    ensures content.mainChoice == docs[0].source && content.mainPage == docs[0].page
    ensures forall c :: c in content.subChoices ==> c.source != content.mainChoice
    ensures forall x :: x in Map(CandidateSource, content.subChoices) <==>
      x in Sources(docs[1..]) && x != content.mainChoice
    ensures Distinct(Map(CandidateSource, content.subChoices))
    ensures TakenAtFirstOccurrence(docs[1..], content.subChoices)
    ensures content.subMessage != "" <==> content.subChoices != []
  {
    var mainChoice := docs[0].source;
    var subChoices := BuildSubChoices(docs[1..], mainChoice);
    SubCandidatesProperties(docs[1..], mainChoice);
    var subMessage := "";
    if subChoices != [] {
      subMessage := SUB_MESSAGE;
    }
    content := DocumentSearch(MAIN_MESSAGE, mainChoice, docs[0].page, subMessage, subChoices);
  }

  /** The citation loop of contact mode. */
  method CollectFilePaths(docs: seq<Document>) returns (paths: seq<string>)
    ensures paths == Dedup(Sources(docs))
  {
    paths := [];
    for i := 0 to |docs|
      invariant paths == Dedup(Sources(docs[..i]))
    {
      assert docs[..i + 1] == docs[..i] + [docs[i]];
      SourcesSnoc(docs[..i], docs[i]);
      DedupSnoc(Sources(docs[..i]), docs[i].source);
      var path := docs[i].source;
      if path in paths {
        continue;
      }
      paths := paths + [path];
    }
    assert docs[..|docs|] == docs;
  }

  /** The content of a contact turn for the chain's `answer` and documents. */
  function ContactContent(answer: string, docs: seq<Document>): (c: Content)
    ensures c.Contact? && c.answer == answer
    ensures c.message == SOURCES_HEADING <==> docs != []
    ensures c.message == "" <==> docs == []
  {
    var paths := Dedup(Sources(docs));
    assert docs != [] ==> Sources(docs)[0] in paths;
    Contact(answer, if paths != [] then SOURCES_HEADING else "", paths)
  }

  /** The contact builder: the answer verbatim and every retrieved file once,
      in the order first seen, under the heading when there is any. */
  method BuildContact(answer: string, docs: seq<Document>) returns (content: Content)
    ensures content == ContactContent(answer, docs)
    ensures content.Contact? && content.answer == answer
    ensures forall x :: x in content.filePaths <==> x in Sources(docs)
    ensures Distinct(content.filePaths)
    ensures FirstSeenOrdered(Sources(docs), content.filePaths)
    ensures content.message == SOURCES_HEADING <==> docs != []
    ensures content.message == "" <==> content.filePaths == []
  {
    var paths := CollectFilePaths(docs);
    DedupFirstSeenOrder(Sources(docs));
    var message := "";
    if paths != [] {
      message := SOURCES_HEADING;
    }
    content := Contact(answer, message, paths);
  }

  /** The main choice followed by the sub-choices lists exactly the files
      contact mode would cite for the same documents, in the same order. */
  lemma SearchChoicesAreCitations(answer: string, docs: seq<Document>)
    requires |docs| > 0
    ensures [DocumentSearchContent(docs).mainChoice] + Map(CandidateSource, DocumentSearchContent(docs).subChoices)
      == ContactContent(answer, docs).filePaths
  {
    var main := docs[0].source;
    assert docs == [docs[0]] + docs[1..];
    SourcesCons(docs[0], docs[1..]);
    DedupCons(main, Sources(docs[1..]));
    SubCandidatesSources(docs[1..], main);
  }
}
