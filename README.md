# Text summarizer: extractors and summarizer guard chain

A model of the logic of `code.py` in the text-summarizer project: the three
file readers that turn a `.txt`, `.pdf` or `.docx` file into one string, and
`SimpleTextSummarizer`, which holds a summarization pipeline (or `None` when
loading failed) and runs a fixed chain of checks before one call to the
model.

The libraries are inputs, not code:

- a file read is an `Attempt<string>`: `Done(contents)` or `Raised`;
- a PDF is a `Document<Option<string>>`: `Unopenable` when opening or
  parsing raises, otherwise one `Attempt` per page whose answer is what
  `extract_text()` returned (`None` included);
- a DOCX is a `Document<string>`: one `Attempt` per paragraph text;
- the loaded pipeline is a `Pipeline` object whose `answer(n, request)` is
  what it gives on its `n`-th call. It keeps a log, `requests`, of every
  call it receives. That log is how "no model call" and "exactly one call
  with these arguments" are stated. The call index lets the model answer
  the same request differently each time, so nothing assumes reproducible
  output.

Modules: `Wrappers` (the `Option` type), `Extractors` (the readers and their
properties), `Whitespace` (Python's `str.strip()`), `Summarizer` (the two
classes).

Each reader method is a loop that grows the text page by page or
paragraph by paragraph, as the source does. It is proved equal to a
specification function (`PdfText`, `DocxText`). The lemmas then prove what
that function promises: the order of the pieces, their lengths, what a
page without text adds, that failures are all-or-nothing, and that the DOCX
layout can be split back into its paragraphs.

Where the design description and the code differ, the model follows the
code:

- The readers return `None` on failure, with no reason attached. The
  design describes a failure value that carries a reason.
- `summarize` returns its two diagnostics as ordinary strings. These cannot
  be told apart from a summary. It returns `None` when the model call
  raises. The design describes typed failures.
- A PDF with no pages, or with no page that has text, gives `""`, which is
  a success. The design calls a successful extraction non-empty.

## Model

| member | source | states |
|---|---|---|
| `Extractors.ReadTextFile` | code.py:12-19 | the result is `None` exactly when the read raised; otherwise it is the contents exactly as read |
| `Extractors.ReadPdfFile` | code.py:21-32 | the page loop returns `PdfText(doc)`: `None` when opening fails or any page raises (the partly built text is discarded), otherwise the page texts joined in order |
| `Extractors.ConcatPagesLength` | code.py:27-28 | the joined pages are exactly as long as all non-`None` page texts together |
| `Extractors.ConcatPagesAppend` | code.py:27-28 | joining a list of pages equals joining its front part followed by joining its back part (there is no separator) |
| `Extractors.PageInPlace` | code.py:27-28 | page `i`'s text appears whole, after the text of pages `0..i-1` and before the text of the pages after it |
| `Extractors.TextlessPageContributesNothing` | code.py:28 | a page whose `extract_text()` is `None` adds `""`: dropping it leaves the result unchanged |
| `Extractors.PdfFailsWhole` | code.py:24-32 | PDF extraction gives `None` if and only if the file cannot be opened or some page raises |
| `Extractors.PdfSuccess` | code.py:23-29 | when nothing raises the result is `Some`, its length is the total length of the page texts, and a document whose pages all lack text (zero pages included) gives `Some("")` |
| `Extractors.ReadDocxFile` | code.py:34-44 | the paragraph loop returns `DocxText(doc)`: `None` when opening fails or any paragraph raises, otherwise each paragraph's text followed by `"\n"` |
| `Extractors.ParagraphsTextShape` | code.py:36-41 | length = sum of the paragraph lengths + number of paragraphs; the result is `""` exactly when there are no paragraphs, and otherwise ends in `"\n"` |
| `Extractors.ParagraphsTextCons` | code.py:39-40 | read from the front, the text is the first paragraph, one newline, then the text of the remaining paragraphs |
| `Extractors.SplitParagraphsText` | code.py:39-40 | when no paragraph contains a newline, cutting the result at its newlines gives back the paragraphs exactly (one newline per paragraph, including the last) |
| `Extractors.DocxFailsWhole` | code.py:37-44 | DOCX extraction gives `None` if and only if the file cannot be opened or some paragraph raises |
| `Whitespace.StripEmptyIffBlank` | code.py:74 | `len(s.strip()) == 0` holds exactly when every character of `s` is whitespace |
| `Summarizer.IsEmptyTextIffBlank` | code.py:74-75 | the emptiness guard holds exactly for `None` and for texts made only of whitespace (the empty string included) |
| `Summarizer.Pipeline.Call` | code.py:81-86 | one call to the pipeline appends its arguments to the call log and gives the model's answer to that call |
| `Summarizer.SimpleTextSummarizer.constructor` | code.py:49-57 | construction always completes, holding the loaded pipeline, or `null` when loading failed |
| `Summarizer.SimpleTextSummarizer.Summarize` | code.py:59-90 | the field is never reassigned; with no pipeline the not-loaded message comes back whatever the text is, empty text included; with a pipeline and a missing or blank text the empty-input message comes back and the log is unchanged; otherwise exactly one call `(text, max_length, min_length, do_sample=False)` is logged, and the result is the first candidate's `summary_text`, or `None` if the call raised or gave no candidate |

## Left out

- File I/O: opening files, UTF-8 decoding and binary reads (code.py:15, 25). The model takes what a read would give as an input.
- PyPDF2 and python-docx parsing (code.py:26-28, 38-39). Pages and paragraphs are inputs. The model does not capture which concrete inputs make the libraries raise.
- Loading a model by name (code.py:49, 53). The constructor takes the outcome of `pipeline("summarization", model=model_name)` as a `Pipeline?`. `SummarizerModel` records the default name only.
- The model's generation itself (code.py:81-86). Whether a summary's length falls within `[min_length, max_length]`, and whether output is reproducible, depend on the model and are not stated.
- Summarize: a candidate is modelled by its `summary_text` string. A candidate that lacks that key (a `KeyError` that the handler turns into `None`) is not modelled separately.
- Summarize: `text` is a string or `None`. Other Python objects, whose truthiness and `strip` differ, are not modelled.
- Summarize: the test `not self.summarizer_pipeline` is modelled as a null check. A loaded pipeline object is taken to be truthy.
- Whitespace: the whitespace set is the fixed list of characters Python's `str.isspace` accepts. Unicode database versions are not modelled.
- All `print` logging (code.py:18, 31, 43, 51, 54, 56, 77, 89). It is console output only.
- The `__main__` demonstration block (code.py:94-184). It creates and deletes sample files and prints results.
