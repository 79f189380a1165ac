# Internal document search chat: turn-building logic in Dafny

The application is a Streamlit chat page over a company's own documents. The
document loaders, the text splitter, the embeddings, the Chroma vector store,
the retrieval QA chain and the chat model are all library or service calls.
What `main.py` computes itself is modelled here:

- **Ingestion** (`ingestion.dfy`). On the first run, every listed file of the
  `data` folder is sent to the loader its extension selects. `.pdf` goes to
  the PDF loader and `.docx` to the DOCX loader. Any other file is skipped.
  The loaded pages are concatenated in listing order. The loaders are one
  function parameter, `load(loader, path)`. An existing `.db` directory is a
  boolean input: if it is true, the persisted store is reopened and nothing
  is loaded.
- **Document-search answers** (`answers.dfy`). The first retrieved document
  gives the main choice and its page. The sub-choice loop walks the
  remaining documents in rank order. It keeps the first document of each
  source and skips the main choice's source. A candidate keeps that
  document's page, or no page when none was recorded. The second message is
  set exactly when there are sub-choices.
- **Contact answers** (`answers.dfy`). The chain's answer is kept verbatim.
  The citation list holds every retrieved source once, in first-seen order.
  The heading "情報源" is set exactly when that list is non-empty.
- **Page labels** (`labels.dfy`). A label is the file path followed by
  "（P.n）", where n is the decimal text of page + 1. When no page was
  recorded, the path is followed by "（ページ番号取得不可）" instead.
- **Session** (`session.dfy`). The message history starts empty. An
  empty chat input changes nothing. Otherwise the user turn is appended,
  then one assistant turn built by the current mode. A rerun replays the
  whole history in order.

`retrieval.dfy` holds the shared pieces: the retrieved `Document` (text,
`source`, optional `page`), the list of sources, and first-seen
deduplication with its lemmas. `util.dfy` holds general helpers: `Option`,
a projection `Map` over a sequence, concatenation of blocks (`Flatten`) and
Python's `str.endswith`.

Each loop that builds state (main.py:48, 136, 177) is a method, and each
such method is proved equal to a specification function: `LoadDirectory` to
`IngestedPages`, `BuildSubChoices` to `SubCandidates`, `CollectFilePaths` to
`Dedup`. The lemmas then prove the promised properties about those
functions. The replay loops (main.py:83, 96, 106) only compute what is
shown, so they are functions over the history (`RenderHistory`,
`CandidateInfos`, `PathInfos`). In document-search mode, the source indexes
the first document without a guard (main.py:119). An empty retrieval
therefore stops the run after the user turn was appended and before any
assistant turn. `Session.Submit` models this as the outcome `Stopped`, and
`BuildDocumentSearch` requires a non-empty document list.

## Model

| member | source | states |
|---|---|---|
| Retrieval.Dedup | main.py:176-181 | the deduplicated list holds exactly the elements of the input and has no repeats |
| Retrieval.DedupFirstSeenOrder | main.py:176-181 | kept elements appear in the order of their first occurrence in the input |
| Retrieval.DedupIdempotent | main.py:138-140 | deduplicating an already deduplicated list changes nothing |
| Retrieval.FirstIndex | main.py:138-140 | the index returned holds the element and no earlier position does |
| Labels.IntToDecimalRoundTrip | main.py:91 | the decimal text written for a page number reads back as that number |
| Labels.IntToDecimalCanonical | main.py:91 | the decimal text of a number has no leading zero: it is "0", starts with a non-zero digit, or is a minus sign before a non-zero digit |
| Labels.PageSuffix | main.py:127-132 | the text after the path is enclosed in full-width parentheses; its two forms are fixed by `PageLabelWithPage` and `PageLabelFallback` |
| Labels.PageLabel | main.py:91-100 | the label starts with the file path and adds a non-empty suffix; properties in `PageLabelWithPage`, `PageLabelFallback`, `PageLabelInjective` |
| Labels.PageLabelWithPage | main.py:128-130 | with a page n, the label is the path, "（P.", the decimal text of n + 1, and "）"; that text reads back as n + 1 and, for n >= 0, consists of digits only, the first non-zero, so it is what Python's `str` writes |
| Labels.PageLabelFallback | main.py:127-132 | the label ends in the page-unavailable text exactly when no page is recorded |
| Labels.PageLabelInjective | main.py:91-93 | two labels for one file are equal only when they show the same page |
| Ingestion.LoaderFor | main.py:49-54 | no loader is selected exactly when the name ends in neither `.pdf` nor `.docx`; which loader is selected is in `LoaderForCases` |
| Ingestion.LoaderForCases | main.py:49-54 | `.pdf` selects the PDF loader, `.docx` the DOCX loader, and every other name selects none |
| Ingestion.LoadDirectory | main.py:47-56 | the loop's pages equal the listed files' loaded pages concatenated in listing order |
| Ingestion.PrepareIndex | main.py:41-56 | an existing `.db` reopens the store without loading; otherwise the store is built from the ingested pages |
| Ingestion.IngestedAppend | main.py:48-56 | ingesting two listings in turn concatenates their pages |
| Ingestion.FileBlock | main.py:48-56 | each file's pages form one block between the earlier and later files' pages; an unrecognised name adds nothing |
| Ingestion.IngestedProvenance | main.py:48-56 | every ingested page was produced by the loader of a listed file with a recognised extension |
| Answers.SubCandidates | main.py:136-150 | at most one sub-candidate per remaining document, each with a source of those documents other than the main one; the full properties are in `SubCandidatesProperties` |
| Answers.BuildSubChoices | main.py:134-150 | the loop with its duplicate check list computes the sub-candidates of the remaining documents |
| Answers.SubCandidatesProperties | main.py:136-150 | no sub-choice has the main source; the sub-choice sources are exactly the remaining sources other than main, without repeats, in first-seen order, each with its first document's page |
| Answers.SubCandidatesSources | main.py:136-143 | the sub-choice sources are the deduplicated remaining sources with the main source removed |
| Answers.SubCandidatesFirstOccurrence | main.py:145-150 | each sub-choice carries the page of its source's first document, and the sub-choices follow those documents' rank order |
| Answers.DocumentSearchContent | main.py:118-166 | a document-search content with the fixed main message and the first document's source and page; the second message is "その他、候補を提示します。" exactly when there are sub-choices and empty otherwise |
| Answers.BuildDocumentSearch | main.py:118-167 | the main choice and page are the first document's; the sub-choices exclude main, are distinct, complete, first-seen and carry first-seen pages; the second message is set exactly when there are sub-choices |
| Answers.CollectFilePaths | main.py:176-181 | the citation loop computes the first-seen deduplication of the retrieved sources |
| Answers.ContactContent | main.py:169-194 | a contact content that keeps the answer; the heading "情報源" is set exactly when documents were retrieved and is empty otherwise; the citation properties are in `BuildContact` |
| Answers.BuildContact | main.py:169-194 | the answer is kept; the citations hold every retrieved source exactly once in first-seen order; the heading is set exactly when any document was retrieved |
| Answers.SearchChoicesAreCitations | main.py:119-181 | the main choice followed by the sub-choices is exactly the citation list contact mode builds for the same documents |
| Chat.TurnMessages | main.py:111-196 | a submission adds at most two messages, none exactly for an empty input, and the first is the user's question; the mode- and retrieval-dependent shape is in `TurnMessagesShape` |
| Chat.TurnMessagesShape | main.py:111-196 | a submission keeps every assistant turn right after a user turn; it adds nothing for empty input, otherwise the user turn first and an assistant turn of the mode's kind unless document search got no documents |
| Chat.Session.constructor | main.py:37-38 | the history starts empty |
| Chat.Session.SelectMode | main.py:23-26 | the radio button sets the mode and leaves the history alone |
| Chat.Session.Submit | main.py:109-196 | the new history is the old one followed by that submission's turns; the outcome says whether the input was empty or the run stopped on an empty retrieval |
| Chat.RenderMessage | main.py:84-107 | a replayed entry opens one chat-message container of its own role and no other, then shows a user entry's text alone, or an assistant entry's main message or answer first; the full turns are in `RenderDocumentSearchTurn` and `RenderContactTurn` |
| Chat.RenderHistory | main.py:83-107 | a replay shows at least one element per history entry; its composition is in `RenderHistoryAppend` and `RenderHistorySnoc` |
| Chat.RenderHistoryAppend | main.py:83-107 | replaying a longer history first shows everything the earlier history showed |
| Chat.RenderHistorySnoc | main.py:83-107 | replaying after one more entry shows that entry's elements last |
| Chat.RenderDocumentSearchTurn | main.py:88-100 | a replayed search turn opens an assistant container and shows the main message and label, with the fallback text exactly when the first document has no page, then the second message and one label per sub-choice only when there are sub-choices |
| Chat.RenderContactTurn | main.py:101-107 | a replayed contact turn opens an assistant container and shows the answer and, exactly when documents were retrieved, a divider, the heading and each cited file |

## Left out

- Streamlit rendering. The model keeps only what a rerun replays, as a list of `ChatBubble`, `Markdown`, `Success`, `Info` and `Divider` elements. Each `st.chat_message` container (main.py:84) becomes a `ChatBubble(role)` element followed by the elements drawn inside it. The model does not capture which elements are nested in which container beyond that order. Icons, columns and the greeting are left out. The live drawing during a submission (main.py:113-114, 117, 121, 129-132, 155-160, 170, 184-189) is not modelled; it draws the same elements as the replay, except that it shows the contact heading in bold, and that when document search gets no documents it opens an assistant container (main.py:117) before the `IndexError` at main.py:119. No replay shows that container, and Streamlit's error display is not modelled either.
- Loader failures are not modelled. `loader.load()` at main.py:55 has no guard, so an unreadable `.pdf` or `.docx` stops startup. In the model `load` always returns a page list, and `LoadDirectory` and `PrepareIndex` always produce a result.
- The retrieval QA chain, OpenAI embeddings, the Chroma store and the chat model are external services. The chain's result is an input to `Session.Submit`: an answer string and a ranked document list of any length. The `k = 5` bound is not modelled. Failures of these services are not modelled.
- `CharacterTextSplitter` (main.py:58-63) is library code. `PrepareIndex` hands over the pages before splitting.
- `os.listdir`, the loader internals and `os.path.isdir(".db")` are file-system I/O. They become the listing, the `load` parameter and a boolean.
- A `page` metadata value that is present but not an integer is not modelled. Pages are `Option<int>`. In the source, a value on which `+ 1` raises, such as `None` or a string, gets the fallback label (main.py:93, 100, 132, 160). A float does not raise, so it would be shown as, for example, "（P.3.0）".
- `load_dotenv`, `set_page_config` and the page heading are environment and UI setup.
