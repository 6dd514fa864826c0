# Curious Context Companion, modelled in Dafny

Curious Context Companion is a browser extension with two Flask backends.
The extension summarises the page the user is reading, recommends related
research documents and formats citations. This project models the parts of
it that are deterministic text and sequence logic, and proves what they
promise:

- `format_summary` (module `SummaryFormat`). It turns a generated summary
  into an opening sentence and a blank line, followed by short heading lines
  and space-joined paragraphs. The backend in `src/backend/app.py` and the
  older `app.py` hold byte-identical copies, and one model covers both.
  Sentence splitting (NLTK's `sent_tokenize`) is a parameter.
- The heading test shared by the backend and the popup (module `Headings`):
  the whole-word keyword search
  `\b(key points|highlights|summary|conclusion|findings|results)\b`.
- The `summarize` endpoints (module `Summarize`):
  - request validation;
  - the generation hints and their defaults;
  - the 1024-character input cap;
  - the ordered mapping from an Ollama error to an HTTP status and message.
- The decoding half of `recommend` (module `Recommend`): ranked document
  strings become `{title, url, description}` records, with a per-document
  fallback.
- `citation` (module `Citation`):
  - the APA, MLA and BibTeX templates and their defaults;
  - the BibTeX key;
  - the year scanner `extract_year`.
- `process_corpus` in `src/backend/index_corpus.py` (module `Ingestion`).
  It deletes and recreates the `research_documents` collection, then adds
  the corpus batch by batch under the global ids `doc_<k>`.
  - The collection is a class whose record map the methods update.
  - The encoder and `json.dumps` are parameters.
- The popup (module `Popup`) in `src/extension/popup.js`:
  - rendering the structured summary as `h3`/`h4`/`p` blocks;
  - flattening the rendered tree back to text when it is copied;
  - the guard that refuses to copy blank text.

Shared helpers are in `Text` (string search, split, join, trim, decimal
numerals) and `Values` (the JSON value domain, Python truthiness and
`dict.get`).

## Model

| member | source | states |
|---|---|---|
| `SummaryFormat.FormatSummary` | src/backend/app.py:26-75 | Covers both copies; `app.py:63-112` is identical. A falsy input gives `""`. A truthy non-string input gives its `str`. A string whose tokenisation fails or yields at most one sentence comes back unchanged. Otherwise the output is the first sentence, `"\n\n"`, then the rendering of the unique heading/paragraph grouping of the remaining sentences. |
| `SummaryFormat.StructureSentences` | src/backend/app.py:41-71 | The accumulator loop, proved against the specification: its output is the opening sentence, a blank line and `Render(Grouping(...))` of the rest, for any heading test. |
| `SummaryFormat.Absorb` | src/backend/app.py:45-65 | One pass of the loop. A heading first flushes a non-empty pending paragraph (joined by spaces, then `"\n\n"`), then adds `sentence + "\n"` and empties the pending list. Any other sentence joins the pending paragraph and leaves the output alone. The pass keeps the invariant: the closed blocks plus the pending paragraph are the grouping of the sentences seen so far, and the output is the opening plus the closed blocks' text. |
| `SummaryFormat.FlushStep` | src/backend/app.py:52-56 | On a heading, a non-empty pending paragraph is emitted first, joined by single spaces and closed by `"\n\n"`, and the pending list is emptied. |
| `SummaryFormat.HeadingStep` | src/backend/app.py:58-59 | A heading sentence is emitted as `sentence + "\n"` and becomes a block of its own in the grouping. |
| `SummaryFormat.ParagraphStep` | src/backend/app.py:60-61 | A non-heading sentence joins the pending paragraph. |
| `SummaryFormat.FinishStep` | src/backend/app.py:67-69 | After the loop, a pending paragraph is appended joined by spaces, with no terminating newline. |
| `SummaryFormat.GroupingPartition` | src/backend/app.py:45-69 | For any heading test, the grouping holds every sentence after the first exactly once, in input order. Headings hold heading sentences, paragraphs hold non-empty runs of other sentences, and no paragraph follows another. |
| `SummaryFormat.GroupingUnique` | src/backend/app.py:45-69 | Those properties determine the grouping: every well-grouped block sequence with the same sentences equals it. |
| `SummaryFormat.BlocksPartition` | src/backend/app.py:48-69 | The partition property for the backend's own heading rule (`len < 60` and a trailing colon or a keyword). |
| `SummaryFormat.BlocksUnique` | src/backend/app.py:48-69 | Uniqueness of the grouping under the backend's heading rule. |
| `SummaryFormat.RenderPending` | src/backend/app.py:67-71 | Rendering closed blocks plus the pending paragraph equals the closed text followed by the paragraph joined by spaces. |
| `Headings.FindWholeWord` | src/backend/app.py:49-50 | Returns the leftmost whole-word occurrence of a keyword at or after a position: a match bounded by non-word characters or the string's ends, with no such match between the position and the result. `None` means there is none. |
| `Headings.AnyWholeWord` | src/backend/app.py:49-50 | True exactly when some keyword of the list occurs as a whole word. |
| `Headings.TrimmedHeadingIsSubheadingLine` | src/extension/popup.js:191-194 | A backend heading sentence still passes the popup's test after the popup trims it: it is non-blank, and the colon or the keyword survives trimming. |
| `Headings.KeywordAfterTrim` | src/extension/popup.js:191-194 | A line in which some keyword occurs as a whole word is non-blank after trimming, and the popup still finds a keyword in it. |
| `Headings.WholeWordAfterTrim` | src/extension/popup.js:193-194 | A whole-word keyword match survives trimming, shifted by the leading white space. |
| `Headings.IsHeadingSentence` | src/backend/app.py:48-50 | Definition, with no contract of its own: shorter than 60 characters, and ending with `:` or holding a keyword once lower-cased. `BlocksPartition` and `TrimmedHeadingIsSubheadingLine` state its consequences. |
| `Headings.IsSubheadingLine` | src/extension/popup.js:193-194 | Definition, with no contract of its own: the popup's test on a trimmed line, which is the backend's test without the length limit. |
| `Text.Split` | src/extension/popup.js:174 | `split` gives at least one part. No part contains the separator, and joining the parts with it gives back the input. Each cut is at the leftmost occurrence: in every part but the last, followed by the separator, the first occurrence is the one that ends the part. This matters for `"\n\n"`, which can overlap itself. |
| `Text.Trim` | src/extension/popup.js:171 | `trim` removes exactly the leading and trailing JavaScript whitespace, keeping the middle. It gives `""` exactly for a blank string. |
| `Text.NatToStringInjective` | src/backend/index_corpus.py:34 | Different numbers have different decimal numerals, so `f"doc_{k}"` never repeats. |
| `Text.Contains` | src/backend/app.py:80 | Python's `in` on strings and JavaScript's `includes`: true exactly when the pattern occurs at some position. |
| `Text.Lower` | src/backend/app.py:50 | `lower()` over ASCII: the same length, each upper-case letter replaced by its lower-case letter (its code point plus 32), and every other character kept. |
| `Text.NatToString` | src/backend/index_corpus.py:34 | `str(n)`: a non-empty string of decimal digits whose decimal value (`DecimalValue`, read most significant digit first) is `n`, with no leading zero, one digit long exactly for `n < 10`. |
| `Text.Join` | src/backend/app.py:55 | Definition, with no contract of its own: `sep.join(parts)`. `Text.Split` states the round trip with it. |
| `Text.FirstOccurrence` | src/extension/popup.js:174 | An occurrence with none before it is the one the search finds. |
| `Summarize.ValidateRequest` | src/backend/app.py:79-83 | A request is accepted exactly when the body is an object with a `text` key. `400` is answered exactly when the body is falsy or lacks `text` as a key, list element or substring. Any other body makes Python raise (`500`). |
| `Summarize.HintsDefaults` | src/backend/app.py:84-107 | A present hint is passed through. Missing hints default to `max_length` 150, `min_length` 30 and model `llama3.2`. |
| `Summarize.RequestHints` | src/backend/app.py:84-85 | Definition, with no contract of its own: the `max_length`, `min_length` and `model` hints read with `.get` (the model at line 107). `HintsDefaults` states its properties. |
| `Summarize.TruncateInput` | app.py:123-126 | The text sent to the T5 model is a prefix of the input, at most 1024 characters long. It is the whole input when that is short enough, and exactly 1024 characters otherwise. |
| `Summarize.NotFoundMessage` | src/backend/app.py:141 | The 404 message names the requested model. |
| `Summarize.UnexpectedMessage` | src/backend/app.py:147 | The 500 message carries the exception text. |
| `Summarize.ClassifyError` | src/backend/app.py:137-148 | Checks in priority order. `503` exactly when the error mentions a refused or failed connection. Else `404` exactly when it mentions `model not found`. Else `413` exactly when it mentions `context window`. Else `500`. The 404 message names the model and the 500 message carries the error. |
| `Recommend.Abbreviate` | app.py:191 | The fallback description is the document when it has at most 100 characters. Otherwise it is its first 100 characters and `...`. It never exceeds 103 characters. |
| `Recommend.DecodeDocument` | app.py:179-192 | A document that decodes to a JSON object gives its `title`, `url` and `description`, defaulting to `Unknown Title`, `#` and `No description available`. Any other document gives `Document <rank+1>`, `#` and the abbreviated text. |
| `Recommend.Recommend` | app.py:176-192 | The loop is proved against the specification. There is one record per returned document, in rank order, each decoded as above. The list is empty when the result has no documents. |
| `Recommend.FallbackTitlesDistinct` | app.py:188-189 | Two fallback records at different ranks get different titles. |
| `Citation.FindYear` | app.py:250 | Returns the leftmost position at or after a start where `\b(19\|20)\d{2}\b` matches. `None` means there is none. |
| `Citation.ExtractYear` | app.py:248-251 | `n.d.` exactly when no year-like word occurs. Otherwise the result is the four digits of the leftmost match. |
| `Citation.WordChars` | app.py:238 | Keeps only word characters and is never longer than its input. With `WordCharsOfChar` and `WordCharsAppend`, this fixes the result: the word characters of the input, in order. |
| `Citation.WordCharsOfChar` | app.py:238 | A single word character is kept and any other character is dropped. |
| `Citation.BibtexKey` | app.py:238 | The key is the first 20 word characters of the title, or all of them when there are fewer, each lower-cased. So it holds only lower-case word characters. |
| `Citation.WordCharsOfWord` | app.py:238 | Filtering a string of word characters leaves it unchanged. |
| `Citation.BibtexKeyIdempotent` | app.py:238 | The key of a key is the key itself. |
| `Citation.WordCharsAppend` | app.py:238 | Filtering distributes over concatenation. |
| `Citation.Cite` | app.py:203-222 | A falsy body, the empty object included, is answered `400`. A body that makes Python raise is answered `500`: a non-object, a truthy non-string date or a non-string title. Every other body gets the three formatted citations of its metadata. |
| `Citation.ReadMetadata` | app.py:208-211 | Definition, with no contract of its own: the four fields read with `.get` and their defaults. `Defaults` states its properties. |
| `Citation.Apa` | app.py:224-228 | Definition, with no contract of its own: the APA template. `AnonymousAuthor` and `YearFields` state its properties. |
| `Citation.Mla` | app.py:230-234 | Definition, with no contract of its own: the MLA template. `AnonymousAuthor`, `MlaNoDate` and `Defaults` state its properties. |
| `Citation.Bibtex` | app.py:236-246 | Definition, with no contract of its own: the BibTeX template. `BibtexAuthor`, `BibtexKey` and `YearFields` state its properties. |
| `Citation.YearFields` | app.py:227-251 | The BibTeX year is `nodate` exactly when the date is empty, and `n.d.` exactly when the date is non-empty but holds no year. The APA year is `n.d.` exactly when the date is empty or holds no year. |
| `Citation.AnonymousAuthor` | app.py:224-234 | APA and MLA write the default author `Unknown Author` as `Anonymous`. |
| `Citation.BibtexAuthor` | app.py:236-246 | BibTeX keeps the author verbatim, the default included. |
| `Citation.Defaults` | app.py:208-211 | Missing metadata defaults to `Unknown Title`, `Unknown Author`, `''` and `''`. With these defaults the author is `Anonymous`, the years are `n.d.` and `nodate`, the URL is empty, and the whole MLA citation is `Anonymous. "Unknown Title." n.d.. `. |
| `Citation.MlaNoDate` | app.py:230-234 | With an empty date, MLA writes `n.d.` as the date text: the citation is the author, the quoted title, `n.d.. ` and the URL. |
| `Citation.DefaultsAccepted` | app.py:204-216 | A non-empty object with none of the four fields is formatted with the defaults rather than refused. |
| `Ingestion.AddCheck` | src/backend/index_corpus.py:45-49 | An accepted `add` has non-empty, pairwise distinct ids, with as many embeddings and documents as ids. |
| `Ingestion.Collection.Add` | src/backend/index_corpus.py:45-49 | All or nothing. A refused `add` leaves the records and the dimension unchanged. An accepted one inserts the entries and fixes the dimension at that of the first vector. It keeps `Valid`: every stored embedding has the collection's dimension. |
| `Ingestion.Collection.constructor` | src/backend/index_corpus.py:26 | A new collection has no records and no dimension yet, and is `Valid`. |
| `Ingestion.Collection.Count` | src/backend/index_corpus.py:51 | The count is the number of stored ids. |
| `Ingestion.Client.GetCollection` | src/backend/index_corpus.py:19-20 | Finds a collection exactly when one of that name exists. |
| `Ingestion.Client.DeleteCollection` | src/backend/index_corpus.py:22 | Removes exactly that name. |
| `Ingestion.Client.CreateCollection` | src/backend/index_corpus.py:26 | Creates a fresh, empty collection under the name, with nothing else changed. |
| `Ingestion.InsertFreshKeys` | src/backend/index_corpus.py:45-49 | Adding new ids grows the key set by exactly those ids. |
| `Ingestion.InsertFreshValues` | src/backend/index_corpus.py:45-49 | Adding new, distinct ids keeps every stored record and stores the j-th embedding and document under the j-th id. |
| `Ingestion.DocIdInjective` | src/backend/index_corpus.py:34 | `doc_<k>` names different positions differently. |
| `Ingestion.DocId` | src/backend/index_corpus.py:34 | Definition, with no contract of its own: `f"doc_{k}"`. `DocIdInjective` states that it never repeats. |
| `Ingestion.IdSetCount` | src/backend/index_corpus.py:34 | An injective id scheme gives exactly `m` ids to `m` positions. |
| `Ingestion.IdSetSplit` | src/backend/index_corpus.py:30-34 | The ids of positions before `s + m` are those before `s` and the ids of the batch that starts at `s` and holds `m` documents. |
| `Ingestion.BatchStartOffset` | src/backend/index_corpus.py:30-31 | Batch `b` starts at `b * batch_size`, clamped to the corpus length as a slice bound is. |
| `Ingestion.BatchEnd` | src/backend/index_corpus.py:31 | Batch `b` is the slice of the corpus from its start to the start of batch `b + 1`. |
| `Ingestion.MissingText` | src/backend/index_corpus.py:35 | A document without `text` is embedded as `""`. |
| `Ingestion.BatchFailure` | src/backend/index_corpus.py:39-49 | A batch fails at the encoder or in `add`. One that does not fail has exactly one vector per document. |
| `Ingestion.BatchesConcat` | src/backend/index_corpus.py:29-31 | The first `b` batches, concatenated, are the corpus up to where batch `b` starts. |
| `Ingestion.BatchesPartition` | src/backend/index_corpus.py:29-31 | The batches `range` visits cover the corpus exactly once, in order. Each batch is non-empty and at most `batch_size` long, and only the last may be shorter. |
| `Ingestion.BatchOf` | src/backend/index_corpus.py:30-34 | Every position before batch `b` lies in one of the first `b` batches, and in no other. |
| `Ingestion.BatchContaining` | src/backend/index_corpus.py:30-31 | Finds the batch, among the first `b`, that holds a position before batch `b`. |
| `Ingestion.KeysAfterBatch` | src/backend/index_corpus.py:34-49 | Adding batch ids `s .. s+m-1` to a store holding the ids of positions before `s` leaves it holding the ids of positions before `s + m`. |
| `Ingestion.BatchStep` | src/backend/index_corpus.py:34-49 | One batch keeps every stored record. It stores the j-th vector and document under the id of position `s + j`, and its key set is the ids up to `s + m`. |
| `Ingestion.HoldsStep` | src/backend/index_corpus.py:30-49 | After batch `b`, the store holds, for every document before batch `b + 1`, its vector and JSON text under its global id, and nothing else. |
| `Ingestion.AddedStep` | src/backend/index_corpus.py:30-49 | An accepted batch extends the loop invariant by one batch: every batch so far was accepted, the store holds the batches so far, and the dimension is fixed. |
| `Ingestion.HoldsCount` | src/backend/index_corpus.py:51 | After `b` batches the count is the number of documents before batch `b`: the whole corpus `n` after the last batch. |
| `Ingestion.HoldsPosition` | src/backend/index_corpus.py:34-49 | The record under `doc_k` is the entry of the batch and offset that hold `corpus[k]`. |
| `Ingestion.HoldsDocument` | src/backend/index_corpus.py:42-49 | The document stored under `doc_k` is `json.dumps(corpus[k])`. |
| `Ingestion.AddAccepts` | src/backend/index_corpus.py:45-49 | The store accepts distinct ids with as many vectors as ids, all of the collection's dimension. |
| `Ingestion.NoFailure` | src/backend/index_corpus.py:39-49 | With an encoder that embeds every text list into vectors of one dimension, no batch fails. |
| `Ingestion.Pointwise` | src/backend/index_corpus.py:35-49 | With an encoder that embeds texts one by one, the record under `doc_k` is the embedding of `corpus[k]`'s text and its JSON. |
| `Ingestion.BatchSizeInvariance` | src/backend/index_corpus.py:29-49 | With such an encoder, two complete runs with different batch sizes leave the same records. |
| `Ingestion.AddBatch` | src/backend/index_corpus.py:31-49 | One loop pass: slice, embed, add. It fails exactly as `BatchFailure` says, with the records and the dimension unchanged. Otherwise it extends the loop invariant by one batch. Either way the collection stays `Valid`. |
| `Ingestion.AddBatches` | src/backend/index_corpus.py:28-49 | The loop over `range(0, n, batch_size)`. Either every batch is added and the store holds exactly the corpus's entries under their ids, or the first failing batch is reported with the earlier batches stored. |
| `Ingestion.ProcessCorpus` | src/backend/index_corpus.py:14-51 | Whatever collection existed before, a fresh empty `research_documents` is created and registered. `batch_size` 0 raises before any batch, and a negative `batch_size` adds nothing. Otherwise the result of `AddBatches` holds with ids `doc_<k>`. The collection ends `Valid`. The batch size defaults to 32. |
| `Ingestion.IndexCorpus` | src/backend/index_corpus.py:72 | The call `main` makes, with the default batch size of 32. The run never hits the `range` error, and its outcome is that of `AddBatches` for batches of 32. |
| `Popup.SummaryArea.constructor` | src/extension/popup.js:299-300 | The summary area starts out hidden, as these lines set. That it starts with no children is assumed: the popup's HTML page is not part of this model. |
| `Popup.SummaryArea.Clear` | src/extension/popup.js:108-110 | A fetch starts by emptying and hiding the area. |
| `Popup.SummaryArea.Present` | src/extension/popup.js:106-218 | After the reset and the rendering, the area is shown exactly when the summary is not blank. It then holds exactly the rendered blocks, and nothing from an earlier summary. A blank summary leaves it empty. |
| `Popup.ExtractFormattedText` | src/extension/popup.js:237-260 | The index loop with recursion, proved against the specification. Text nodes give their text. `H3` gives its text and `"\n\n"`, `H4` and `P` give their text and `"\n"`, and other elements give the flattening of their children, in child order. |
| `Popup.FlattenAppend` | src/extension/popup.js:241-257 | Flattening distributes over sibling lists. |
| `Popup.SummaryArea.ShowSummary` | src/extension/popup.js:165-216 | A blank summary hides the area and the copy button and leaves the blocks alone. Any other summary replaces the children with the rendered blocks and shows the area. |
| `Popup.SummaryArea.AppendParagraph` | src/extension/popup.js:176-209 | A blank paragraph adds nothing. A paragraph without `"\n"` adds one `h3` holding the paragraph untrimmed. Any other paragraph adds the blocks of its lines. The shown flag is unchanged. |
| `Popup.SummaryArea.AppendLines` | src/extension/popup.js:188-207 | The lines loop appends each line's blocks, in line order. |
| `Popup.SummaryArea.AppendLine` | src/extension/popup.js:191-206 | A blank line adds nothing. Any other line adds one block holding the trimmed line. |
| `Popup.SummaryArea.CopyText` | src/extension/popup.js:263-268 | Nothing is copied exactly when the flattened text trims to empty. Otherwise the flattened text is copied. |
| `Popup.LineBlocksShape` | src/extension/popup.js:188-206 | Each block of a multi-line paragraph comes from a non-blank line and holds it trimmed as its only child. It is `h4` exactly when the trimmed line passes the sub-heading test, and `p` otherwise. With no blank line, the k-th block is that of the k-th line. |
| `Popup.RenderedBlock` | src/extension/popup.js:171-206 | Every rendered block has one non-empty text child. An `h3` holds a whole paragraph with no line break. An `h4` or `p` holds a trimmed line, and is `h4` exactly for a sub-heading. |
| `Popup.FlattenLineBlock` | src/extension/popup.js:191-205 | Copying the block of a line gives the trimmed line and a newline, or nothing for a blank line. |
| `Popup.FlattenParagraph` | src/extension/popup.js:176-205 | Copying the blocks of a paragraph gives its string-level copy: nothing for a blank paragraph, the paragraph and a blank line for a single line, and otherwise each non-blank line trimmed and followed by a newline. |
| `Popup.ParagraphsInOrder` | src/extension/popup.js:176 | Paragraphs are rendered in order. |
| `Popup.RenderedCopy` | src/extension/popup.js:171-260 | Copying a shown summary yields, paragraph by paragraph, each single-line paragraph followed by a blank line, and each non-blank line of the others, trimmed, followed by a newline. |
| `Popup.CopiedParagraphNonBlank` | src/extension/popup.js:176-205 | A non-blank paragraph always leaves non-blank copied text. |
| `Popup.RenderedCopyNonBlank` | src/extension/popup.js:263-268 | A shown summary always has something to copy, so the copy guard never fires after a successful render. |
| `Popup.HeadingLineRendersSubheading` | src/extension/popup.js:188-200 | A heading line of the backend's output, met as a line of a multi-line paragraph, becomes an `h4` holding the trimmed line. |
| `Popup.Rendered` | src/extension/popup.js:171-208 | Definition, with no contract of its own: the paragraphs of the trimmed summary, each rendered in turn. `RenderedBlock` and `RenderedCopy` state its properties. |
| `Popup.ParagraphBlocks` | src/extension/popup.js:177-208 | Definition, with no contract of its own: nothing for a blank paragraph, an `h3` for one without a line break, and its lines' blocks otherwise. `FlattenParagraph` and `SummaryArea.AppendParagraph` state its properties. |
| `Popup.LineBlock` | src/extension/popup.js:191-206 | Definition, with no contract of its own: nothing for a blank line, and otherwise an `h4` or a `p` holding the trimmed line. `LineBlocksShape` and `FlattenLineBlock` state its properties. |

## Left out

- Flask routing, CORS, `request.json`, `jsonify` and the traceback in error
  answers are HTTP plumbing. Only the decisions the handlers make are
  modelled.
- The foreign calls are parameters of the model:
  - the T5 summariser, `ollama.chat` and its prompt text;
  - the NLTK download and `sent_tokenize`;
  - `SentenceTransformer.encode`;
  - `json.loads` and `json.dumps`;
  - Python's `str()` of a non-string value.
- The ChromaDB `query` call is left out. `Recommend.Recommend` takes its
  ranked documents as input.
- The vector store's own behaviour is not part of the source. The model
  assumes that `add`:
  - refuses an empty id list, length mismatches, duplicate ids and a wrong
    dimension, atomically;
  - otherwise keeps the record of an id already present.

  Every id the pipeline adds is new, so `add` and an upsert coincide here
  (`Ingestion.InsertFreshValues`).
- `Ingestion.Client.DeleteCollection` and `Ingestion.Client.CreateCollection`
  require the name to be present and absent respectively, where the library
  would raise. `ProcessCorpus` calls them only in those states.
- The id scheme is a parameter of the batch lemmas (any injective
  numbering). `ProcessCorpus` fixes it to `doc_<k>`.
- `print`, `tqdm`, `load_corpus`, argument parsing and `main`'s file check
  are I/O. Only `main`'s call, `process_corpus(corpus, model)`, is modelled
  (`Ingestion.IndexCorpus`).
- Embeddings are sequences of `real`. Float formatting and `tolist()` are
  not modelled.
- JSON numbers are integers only (`Values.Num`). A float such as `0.0` is
  falsy in Python. A body of `0.0` is therefore answered `400`
  (`src/backend/app.py:80`, `app.py:205`), and a date of `0.0` gives `n.d.`
  (`app.py:227`, `app.py:233`). The model cannot express either case.
- `Values.Json.Obj` and `Ingestion.Document` are maps, which forget the
  insertion order of a Python dict. `json.dumps` (the stored document,
  `src/backend/index_corpus.py:42`) and `str()` of an object (`Show`)
  depend on that order in Python. In the model, the `dumps` and `str`
  parameters cannot tell apart two objects that differ only in key order.
  No proved property depends on key order.
- Corpus entries are JSON objects (`Ingestion.Document`). A non-object
  entry makes `doc.get` raise at `src/backend/index_corpus.py:35`, which
  aborts the run. The model does not express that abort.
- The model uses ASCII for Python's `\w`, `\d` and `str.lower()`. Unicode
  word characters and case mappings outside ASCII are not modelled.
- `SummaryFormat.FormatSummary` treats the per-sentence `try`/`except` of
  `format_summary` as never raising. The length test, `endswith`, `lower`
  and `re.search` on a string do not raise. The outer `except` is the
  `tokenize` result `None`, which returns the input unchanged.
- The popup is modelled only in how it builds and reads its blocks. The
  following are left out:
  - styling and `display` beyond the shown/hidden flag;
  - `chrome.tabs`, `chrome.scripting`, `fetch` and the error messages;
  - the clipboard promise, `setTimeout` and the button text;
  - the slider, which uses floating point.

  A `summary` that is not a string is not modelled.
- `src/pages/Index.tsx`, `src/index.ts` and `src/extension/background.js`
  hold no logic and are not part of this model.
