# Contract clause analyzer: the clause pipeline in Dafny

This project models the clause-selection and record-building pipeline of the
Legal-Contract-Review-System. The pipeline takes the text segments of an
uploaded contract, in document order. For a PDF these are the text blocks of
each page. For a Word document they are the lines of its non-blank paragraphs.

It drops every segment that has fewer than 30 characters after `strip()`. It
asks the clause classifier about each remaining segment and keeps the top
prediction. For each such segment it emits:

- a clause record: the 1-based page or paragraph number, the clause, the
  upper-cased label and the formatted score;
- for a PDF, also a highlight over the block's rectangle. The highlight is
  coloured from the label colour map, falling back to yellow. It is titled
  "AI Clause Classification" and reads `"<LABEL> (<score>)"`.

The modules follow the program's parts:

- `Results`: `Option` and `Result`.
- `Text`: the `str` operations the code relies on: `strip` (with Python's
  `isspace` set), `lower`/`upper`, `"\n".join` and `split("\n")`.
- `Classifier`: the classifier as a function from a clause to a `Response`
  (it raises, or it returns ranked result lists). `Top` is
  `classifier(clause)[0][0]` together with every way that indexing can fail.
- `Style`: the label colour map and the lookup with the yellow default.
- `Annotation`: the per-segment engine shared by both formats. `Engine` is its
  recursive reference definition. `RunSegments` is the loop as the program
  writes it, proved equal to `Engine`. A run (`Run`) records the texts handed
  to the classifier, in call order, and either the report or the first
  classification error. The engine is stated for any segment filter. The
  application's filter is `Qualifies`.
- `Docx`: `extract_text_from_docx` and `analyze_docx`. The non-blank
  paragraphs are joined and split on `"\n"`, numbered from 1, and run without
  rectangles.
- `Pdf`: `annotate_pdf` of `app.py` (records and highlights, fixed colour
  map) and `annotate_pdf` of `app/utils.py` (highlights only, colour map
  passed in). Pages are numbered from 1. Blocks are stripped and carry their
  rectangle.

A classifier failure aborts the whole document, as the Python exception does.
The result is then an `Err` holding the failing clause, and no partial
report. The score formatter `f"{score:.2f}"` is the parameter `fmt`. The
classifier is the parameter `classify`.

Notes on the code's behaviour:

- A PDF record holds the stripped block text (`clause = text.strip()`), not
  the raw block text.
- A DOCX record holds the paragraph as it is, untrimmed.
- DOCX text is split on `"\n"` only, not on every kind of line boundary.
- DOCX paragraph numbers count the lines of the joined text. Blank paragraphs
  of the document are removed before the join, so they use up no number. A
  paragraph containing a line break counts as two lines.

## Model

| member | source | states |
|---|---|---|
| Text.TrimLeftSpec | app.py:60 | `lstrip` removes exactly a whitespace prefix and stops at the first non-whitespace character |
| Text.TrimRightSpec | app.py:60 | `rstrip` removes exactly a whitespace suffix and stops at the last non-whitespace character |
| Text.StripIsTrimmedInfix | app.py:60 | `strip()` yields an infix with only whitespace outside it and no whitespace at its ends |
| Text.StripIdempotent | app.py:60-61 | stripping twice equals stripping once, so the PDF length test on the stripped block is the same `len(strip) >= 30` test as the DOCX one |
| Text.StripEmptyIffAllSpace | app.py:39 | `para.text.strip()` is empty (falsy) exactly when the paragraph is all whitespace |
| Text.Lower | app.py:65 | `lower()` keeps the length, turns each upper-case ASCII letter into its lower-case letter and keeps every other character |
| Text.Upper | app.py:71 | `upper()` keeps the length, turns each lower-case ASCII letter into its upper-case letter and keeps every other character |
| Text.UpperOfLower | app.py:65-71 | the reported label `label.lower().upper()` equals the upper-cased model label |
| Text.LowerOfUpper | app.py:71-77 | lowering the reported label recovers the lower-cased label used for the colour lookup |
| Text.Join | app.py:39 | joining no parts gives `""`, one part gives that part, and the joined text is as long as the parts plus one separator between each pair |
| Text.JoinAppend | app.py:39 | joining `a + b` is the join of `a`, one separator, then the join of `b`, so the parts appear in their own order |
| Text.IndexOf | app.py:91 | the position found is the first occurrence of the separator |
| Text.Split | app.py:91 | `split` returns at least one piece, and the piece lengths plus one separator between each pair add up to the length of the text |
| Text.SplitPieces | app.py:91 | no piece of a split contains the separator |
| Text.SplitJoin | app.py:91 | splitting `"\n".join(ps)` on `"\n"` gives back `ps` when `ps` is non-empty and no part contains `"\n"`; so the pieces of a split are the only such list whose join is the text, the text's lines in order |
| Text.JoinSplit | app.py:39 | joining the pieces of a split on the same separator gives back the text |
| Classifier.Top | app.py:63-64 | the top prediction exists exactly when the classifier returned a non-empty first result list; it is element 0 of list 0; otherwise the error names the clause |
| Style.LabelColourTable | app.py:77 | with the application's map, the four configured labels get `(1, 1, 0)`, `(1, 0.8, 0.5)`, `(0.8, 1, 1)` and `(0.9, 0.9, 1)`, and every other label gets the fallback `(1, 1, 0)` |
| Style.YellowExactlyForTerminationOrUnknown | app.py:45-50 | with the application's map, a highlight is yellow exactly for "termination" and for labels missing from the map |
| Annotation.Kept | app.py:60-62 | filtering never adds segments |
| Annotation.KeptMembers | app.py:60-62 | a segment is kept exactly when it is one of the input segments and passes the length filter |
| Annotation.KeptAll | app/utils.py:10-12 | every kept segment keeps each property shared by all segments, and passes the filter |
| Annotation.KeptCount | app.py:94-96 | the number of kept segments is the number of texts that pass the filter |
| Annotation.KeptAppend | app.py:56-58 | filtering the blocks of consecutive pages filters each page in turn |
| Annotation.KeptKeepsNonDecreasing | app.py:56-58 | filtering keeps page numbers non-decreasing |
| Annotation.KeptKeepsIncreasing | app.py:94 | filtering keeps paragraph numbers strictly increasing |
| Annotation.RunSegments | app.py:56-83 | the loop that skips short segments, appends a record and a highlight per kept segment and leaves at the first failing classification computes exactly `Engine` |
| Annotation.EngineSingle | app.py:59-83 | one kept, successfully classified segment gives one call, its own record and its own highlight |
| Annotation.EngineOkIff | app.py:63-64 | a run succeeds exactly when the classification of every kept segment succeeds |
| Annotation.EngineQueriesOnSuccess | app.py:60-63 | on success the classifier is called once per kept segment, in order, and on nothing else |
| Annotation.EngineQueriesPass | app/utils.py:10-13 | no text that fails the length filter is ever passed to the classifier |
| Annotation.EngineFailure | app.py:63-64 | on failure the error comes from the first kept segment whose classification fails, and the calls are exactly the kept texts up to that one |
| Annotation.EngineRecords | app.py:63-73 | on success there is one record per kept segment, in order, with its location, its text, the upper-cased top label and the formatted top score |
| Annotation.EngineHighlights | app.py:75-83 | with rectangles, each record has one highlight at the same position, on its page and rectangle, coloured by the lower-cased label, with the fixed title and `"<LABEL> (<score>)"` |
| Annotation.EngineHighlightsFollowRecords | app.py:68-82 | the highlights match the records one to one: page, colour of the record's label lower-cased, title, and the record's label and confidence as content |
| Annotation.EngineNoHighlights | app.py:94-108 | segments without rectangles produce no highlight |
| Annotation.EngineNothingKept | app.py:60-62 | when no segment is long enough there is no call, no record and no highlight |
| Annotation.EngineKeepsOrder | app.py:56-58 | records come out in segment order: non-decreasing or strictly increasing locations stay so |
| Docx.NonBlank | app.py:39 | keeping the non-blank paragraphs never adds any |
| Docx.NonBlankAppend | app.py:39 | the non-blank paragraphs of two consecutive runs are those of the first run followed by those of the second, so document order is kept |
| Docx.NonBlankSingle | app.py:39 | a single paragraph is kept exactly when its `strip()` is non-empty |
| Docx.NonBlankMembers | app.py:39 | a paragraph is kept exactly when it is in the document and its `strip()` is non-empty |
| Docx.ParagraphsRoundTrip | app.py:90-91 | splitting the extracted text gives back exactly the non-blank paragraphs, or `[""]` when there is none, provided no paragraph has a line break |
| Docx.NumberedShape | app.py:94 | numbering lists the paragraphs in order with strictly increasing numbers and no rectangles |
| Docx.KeptNumbered | app.py:94-104 | each kept paragraph carries a number within range and is the paragraph at that number |
| Docx.KeptNumberedCovers | app.py:94-104 | each paragraph that passes the filter is kept under its own number |
| Docx.NumberedRecordsContent | app.py:103-106 | each record's number is in range, and its clause is the paragraph at that number and passes the filter |
| Docx.NumberedRecordsCover | app.py:94-104 | every paragraph that passes the filter has a record under its number |
| Docx.NumberedRecords | app.py:94-108 | for any filter, the records are the kept paragraphs: their count, strictly increasing numbers, contents, and coverage |
| Docx.DocxRecords | app.py:89-110 | `analyze_docx` yields one record per split line with at least 30 stripped characters: paragraph order, `Paragraph` = 1-based line position including skipped lines, `Clause` = the untrimmed line |
| Docx.DocxCalls | app.py:94-98 | the classifier is never called on a short paragraph; on success it is called once per record, on its clause |
| Docx.DocxNoHighlights | app.py:103-108 | the DOCX run produces no annotation |
| Docx.BlankDocument | app.py:89-96 | a document of blank paragraphs yields no record and no call, although its text splits into one empty line |
| Docx.TwoParagraphs | app.py:39-91 | two non-blank single-line paragraphs survive the join and the split unchanged |
| Docx.ShortThenLong | app.py:94-108 | paragraphs `[short, long]` with "termination" at 0.92 give one call and one record: paragraph 2, label "TERMINATION" |
| Pdf.PageCandidates | app.py:57-60 | a page offers one segment per block |
| Pdf.CandidatesFrom | app.py:56-58 | the document offers one segment per block of every page |
| Pdf.PageCandidatesShape | app.py:59-60 | a page's segments carry the page number, the block's rectangle and the stripped block text |
| Pdf.CandidatesShape | app.py:56-60 | every segment has a rectangle, a page number among the pages and stripped text; page numbers never decrease |
| Pdf.CandidateAt | app.py:56-59 | page-major traversal: block `b` of page `p` comes right after all blocks of earlier pages, with page number `p + 1` |
| Pdf.LongBlocksMembers | app.py:57-62 | a block is among a page's long blocks exactly when it is one of the page's blocks and has at least 30 stripped characters |
| Pdf.PageKeptCount | app.py:57-62 | the segments kept from a page are exactly the segments of its long blocks, in block order, and their number is the number of its blocks with at least 30 stripped characters |
| Pdf.KeptCountFrom | app.py:56-62 | the segments kept from the document are exactly the segments of each page's long blocks, page after page under the pages' own numbers, and their number is the number of its blocks with at least 30 stripped characters |
| Pdf.SegmentRecords | app.py:56-73 | for any classifier and colours, record `k` carries the page number and stripped text of the `k`-th long block in page-then-block order; pages are in range and non-decreasing, clauses stripped and long |
| Pdf.PdfRecords | app.py:53-73 | on success the application's PDF report has one record per long block, in page-then-block order, each holding that block's page number and stripped text |
| Pdf.PdfHighlights | app.py:68-83 | on success the number of highlights equals the number of records, and each highlight matches its record |
| Pdf.PdfFileHighlights | app/utils.py:4-24 | the helper adds one highlight per long block, in page-then-block order, over that block's rectangle, coloured by the passed map for the lower-cased label, with the fixed title and `"<LABEL> (<score>)"` |
| Pdf.PdfCalls | app.py:60-63 | the classifier only ever sees stripped blocks of at least 30 characters; on success once per record, on its clause |
| Pdf.ShortBlocksOnly | app/utils.py:10-12 | a document whose blocks are all short gets no highlight, no record and no call |
| Pdf.OneTerminationBlock | app.py:53-83 | one long block classified "termination" at 0.92 gives one record on page 1 with the stripped text, and one yellow highlight over the block |
| Pdf.FailureOnSecondOfThree | app.py:56-64 | if the classifier raises on the second of three long blocks, the run fails with that error after two calls, with no record and no highlight |

## Left out

- The Streamlit page, sidebar legend, DMS simulation and download buttons
  (app.py:13-30, app.py:112 onwards). They are user interface.
- The hex conversion of colours for the legend. It is floating-point display
  code.
- The pandas DataFrame and the CSV export. They are library serialisation.
- The FastAPI endpoint and temporary files of `app/main.py`, and the model
  loading of `app/model.py`. They are I/O and a foreign model. The classifier
  is the parameter `classify`.
- `top_k=3` and the ranking inside each result list. Only element 0 of list 0
  is ever read, so only that is modelled.
- PyMuPDF.
  - `get_text("blocks")` becomes the input: the blocks of each page.
  - `add_highlight_annot`, `set_colors`, `set_info` and `update` become the
    `Highlight` values.
  - `doc.write()` and `doc.save()` are not modelled, and neither is the claim
    that page content is preserved. These are library behaviour.
  - Only the first five fields of a block are read.
- python-docx parsing and the temporary file. The input is the list of
  paragraph texts of the document.
- Document parse errors and unsupported formats. They arise inside the
  libraries. Only classification errors are modelled.
- `f"{score:.2f}"`: kept abstract as the parameter `fmt`. Scores are `real`.
- Text: strings are sequences of Unicode scalar values, so Python strings
  holding lone surrogates (U+D800 to U+DFFF) have no counterpart.
- Text.Lower: maps ASCII letters only, not the full Unicode case mapping of
  Python's `str.lower()`.
- Text.Upper: maps ASCII letters only, not the full Unicode case mapping of
  Python's `str.upper()`. Labels of the clause model are ASCII.
- Style.LabelColourTable: colour components are reals. The source's integer
  components (`1`, `0`) are taken at their real value.
