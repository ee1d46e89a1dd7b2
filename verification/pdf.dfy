/**
 The PDF path: every page of the document, numbered from 1, offers its text
 blocks in order; each block's text is stripped and run through the engine
 together with its bounding box, so each record comes with a highlight on
 that box. Two variants exist: the application's, which reports records and
 highlights and colours by the fixed label map, and the library helper's,
 which only adds highlights and takes the colour map as a parameter.
 */
module Pdf {
  import opened Results
  import opened Text
  import opened Classifier
  import opened Style
  import opened Annotation

  /** A text block of a page as `get_text("blocks")` reports it: the
      bounding box `(x0, y0, x1, y1)` and the block's text. */
  datatype Block = Block(rect: Rect, text: string)

  /** The segments of page number `page`: each block's stripped text, with
      the block's rectangle. */
  function PageCandidates(page: nat, blocks: seq<Block>): (r: seq<Candidate>)
    ensures |r| == |blocks|
  {
    seq(|blocks|, j requires 0 <= j < |blocks| => Candidate(page, Strip(blocks[j].text), Some(blocks[j].rect)))
  }

  /** Number of blocks in `pages`. */
  function BlockCount(pages: seq<seq<Block>>): nat {
    if |pages| == 0 then 0 else |pages[0]| + BlockCount(pages[1..])
  }

  /** The segments of the document, page after page, the first page
      numbered `first`. */
  function CandidatesFrom(pages: seq<seq<Block>>, first: nat): (r: seq<Candidate>)
    ensures |r| == BlockCount(pages)
    decreases |pages|
  {
    if |pages| == 0 then []
    else PageCandidates(first, pages[0]) + CandidatesFrom(pages[1..], first + 1)
  }

  /** `enumerate(doc, start=1)` over the pages, and the blocks of each. */
  function Candidates(pages: seq<seq<Block>>): seq<Candidate> {
    CandidatesFrom(pages, 1)
  }

  /** Number of blocks of a page whose stripped text is long enough. */
  function PageQualifying(blocks: seq<Block>): nat {
    if |blocks| == 0 then 0
    else (if Qualifies(blocks[0].text) then 1 else 0) + PageQualifying(blocks[1..])
  }

  /** Number of blocks of the document whose stripped text is long enough. */
  function QualifyingBlocks(pages: seq<seq<Block>>): nat {
    if |pages| == 0 then 0 else PageQualifying(pages[0]) + QualifyingBlocks(pages[1..])
  }

  /** The blocks of a page whose stripped text is long enough, in order. */
  function LongBlocks(blocks: seq<Block>): (r: seq<Block>)
    ensures |r| <= |blocks|
  {
    if |blocks| == 0 then []
    else (if Qualifies(blocks[0].text) then [blocks[0]] else []) + LongBlocks(blocks[1..])
  }

  /** A block survives exactly when it is one of the page's blocks and its
      stripped text is long enough. */
  lemma {:induction false} LongBlocksMembers(blocks: seq<Block>)
    ensures forall b :: b in LongBlocks(blocks) <==> b in blocks && Qualifies(b.text)
    decreases |blocks|
  {
    if |blocks| > 0 {
      LongBlocksMembers(blocks[1..]);
      assert forall b :: b in blocks <==> b == blocks[0] || b in blocks[1..];
    }
  }

  /** Every page cut down to its long blocks; pages with none stay, empty,
      so page numbers do not move. */
  function LongPages(pages: seq<seq<Block>>): (r: seq<seq<Block>>)
    ensures |r| == |pages|
  {
    seq(|pages|, i requires 0 <= i < |pages| => LongBlocks(pages[i]))
  }

  /** `annotate_pdf` of the application: the clause records and the
      highlights it adds, colours from the fixed label map. */
  function AnnotatePdf(pages: seq<seq<Block>>, classify: string -> Response, fmt: real -> string): Run<Report> {
    Engine(Candidates(pages), AppEnv(classify, fmt, LabelColors))
  }

  /** `annotate_pdf` of the library helper: only the highlights, colours
      from the map it is given. */
  function AnnotatePdfFile(pages: seq<seq<Block>>, classify: string -> Response,
                           colours: map<string, Colour>, fmt: real -> string): Run<seq<Highlight>>
  {
    var run := Engine(Candidates(pages), AppEnv(classify, fmt, colours));
    Run(run.queried, if run.outcome.Ok? then Ok(run.outcome.value.highlights) else Err(run.outcome.error))
  }

  /** The segments of one page sit on that page, carry their block's
      rectangle and are already stripped. */
  lemma PageCandidatesShape(page: nat, blocks: seq<Block>)
    ensures var cs := PageCandidates(page, blocks);
            forall k :: 0 <= k < |cs| ==>
              && cs[k].location == page
              && cs[k].rect == Some(blocks[k].rect)
              && cs[k].text == Strip(blocks[k].text)
              && Strip(cs[k].text) == cs[k].text
  {
    forall k | 0 <= k < |blocks| {
      StripIdempotent(blocks[k].text);
    }
  }

  /** The shape of the document's segments: each has a rectangle, a page
      number among the document's pages and stripped text, and page numbers
      never decrease along the sequence. */
  predicate SegmentsShape(cs: seq<Candidate>, first: nat, pageCount: nat) {
    && AllHaveRects(cs)
    && LocationsNonDecreasing(cs)
    && forall k :: 0 <= k < |cs| ==>
         && first <= cs[k].location < first + pageCount
         && Strip(cs[k].text) == cs[k].text
  }

  lemma {:induction false} CandidatesShape(pages: seq<seq<Block>>, first: nat)
    ensures SegmentsShape(CandidatesFrom(pages, first), first, |pages|)
    decreases |pages|
  {
    if |pages| > 0 {
      var head := PageCandidates(first, pages[0]);
      var tail := CandidatesFrom(pages[1..], first + 1);
      var cs := CandidatesFrom(pages, first);
      PageCandidatesShape(first, pages[0]);
      CandidatesShape(pages[1..], first + 1);
      assert cs == head + tail;
      forall k | 0 <= k < |cs|
        ensures && cs[k].rect.Some?
                && first <= cs[k].location < first + |pages|
                && Strip(cs[k].text) == cs[k].text
      {
        if k >= |head| {
          assert cs[k] == tail[k - |head|];
        }
      }
      forall i, j | 0 <= i < j < |cs|
        ensures cs[i].location <= cs[j].location
      {
        if j < |head| {
        } else if i >= |head| {
          assert cs[i] == tail[i - |head|];
          assert cs[j] == tail[j - |head|];
        } else {
          assert cs[j] == tail[j - |head|];
        }
      }
    }
  }

  /** Page-major traversal: block `b` of page `p` (both counted from 0) is
      the segment right after all blocks of the earlier pages, numbered with
      page `first + p`. */
  lemma {:induction false} CandidateAt(pages: seq<seq<Block>>, first: nat, p: nat, b: nat)
    requires p < |pages| && b < |pages[p]|
    ensures BlockCount(pages[..p]) + b < |CandidatesFrom(pages, first)|
    ensures CandidatesFrom(pages, first)[BlockCount(pages[..p]) + b]
            == Candidate(first + p, Strip(pages[p][b].text), Some(pages[p][b].rect))
    decreases p
  {
    var head := PageCandidates(first, pages[0]);
    var tail := CandidatesFrom(pages[1..], first + 1);
    assert CandidatesFrom(pages, first) == head + tail;
    if p == 0 {
      assert pages[..0] == [];
    } else {
      CandidateAt(pages[1..], first + 1, p - 1, b);
      assert pages[..p][1..] == pages[1..][..p - 1];
      assert BlockCount(pages[..p]) == |pages[0]| + BlockCount(pages[1..][..p - 1]);
    }
  }

  /** The segments kept from one page are exactly the segments of its long
      blocks, in order (stripping the already stripped text changes
      nothing), and there are as many as the page has long blocks. */
  lemma {:induction false} PageKeptCount(page: nat, blocks: seq<Block>)
    ensures Kept(PageCandidates(page, blocks), Qualifies) == PageCandidates(page, LongBlocks(blocks))
    ensures |Kept(PageCandidates(page, blocks), Qualifies)| == PageQualifying(blocks)
    decreases |blocks|
  {
    if |blocks| > 0 {
      var cs := PageCandidates(page, blocks);
      var rest := LongBlocks(blocks[1..]);
      assert cs[1..] == PageCandidates(page, blocks[1..]);
      StripIdempotent(blocks[0].text);
      KeptCons(cs, Qualifies);
      PageKeptCount(page, blocks[1..]);
      if Qualifies(blocks[0].text) {
        assert LongBlocks(blocks) == [blocks[0]] + rest;
        assert PageCandidates(page, [blocks[0]] + rest) == [cs[0]] + PageCandidates(page, rest);
      } else {
        assert LongBlocks(blocks) == rest;
      }
    }
  }

  /** The segments kept from the document are exactly the segments of its
      long blocks, page after page with the pages' own numbers, and there
      are as many as the document has long blocks. */
  lemma {:induction false} KeptCountFrom(pages: seq<seq<Block>>, first: nat)
    ensures Kept(CandidatesFrom(pages, first), Qualifies) == CandidatesFrom(LongPages(pages), first)
    ensures |Kept(CandidatesFrom(pages, first), Qualifies)| == QualifyingBlocks(pages)
    decreases |pages|
  {
    if |pages| > 0 {
      KeptAppend(PageCandidates(first, pages[0]), CandidatesFrom(pages[1..], first + 1), Qualifies);
      PageKeptCount(first, pages[0]);
      KeptCountFrom(pages[1..], first + 1);
      var lp := LongPages(pages);
      assert lp[0] == LongBlocks(pages[0]);
      assert lp[1..] == LongPages(pages[1..]);
    }
  }

  /** The records of a PDF report: one per block whose stripped text is
      long enough, in page-then-block order (record `k` carries the page
      number and stripped text of the `k`-th such segment of `Candidates`),
      each on a page of the document and holding the stripped text, which
      is itself long enough. */
  predicate PageRecords(records: seq<ClauseRecord>, pages: seq<seq<Block>>) {
    && |records| == QualifyingBlocks(pages)
    && RecordsNonDecreasing(records)
    && (var ks := Kept(Candidates(pages), Qualifies);
        && |records| == |ks|
        && forall k :: 0 <= k < |records| ==>
             records[k].location == ks[k].location && records[k].clause == ks[k].text)
    && forall k :: 0 <= k < |records| ==>
         && 1 <= records[k].location <= |pages|
         && Strip(records[k].clause) == records[k].clause
         && Qualifies(records[k].clause)
  }

  /** The engine's records over the document's segments, for any classifier,
      formatter and colour map. */
  lemma SegmentRecords(pages: seq<seq<Block>>, env: Env)
    requires env.keep == Qualifies
    requires Engine(Candidates(pages), env).outcome.Ok?
    ensures PageRecords(Engine(Candidates(pages), env).outcome.value.records, pages)
  {
    var cs := Candidates(pages);
    var records := Engine(cs, env).outcome.value.records;
    var ks := Kept(cs, Qualifies);
    CandidatesShape(pages, 1);
    EngineRecords(cs, env);
    EngineKeepsOrder(cs, env);
    KeptCountFrom(pages, 1);
    var inRange := (c: Candidate) => 1 <= c.location <= |pages| && Strip(c.text) == c.text;
    KeptAll(cs, Qualifies, inRange);
    forall k | 0 <= k < |records|
      ensures && 1 <= records[k].location <= |pages|
              && Strip(records[k].clause) == records[k].clause
              && Qualifies(records[k].clause)
    {
      assert inRange(ks[k]);
    }
  }

  /** On success, the application's PDF report has one record per block
      whose stripped text is at least 30 characters long, in page order,
      each holding the stripped text and its 1-based page number. */
  lemma PdfRecords(pages: seq<seq<Block>>, classify: string -> Response, fmt: real -> string)
    requires AnnotatePdf(pages, classify, fmt).outcome.Ok?
    ensures PageRecords(AnnotatePdf(pages, classify, fmt).outcome.value.records, pages)
  {
    SegmentRecords(pages, AppEnv(classify, fmt, LabelColors));
  }

  /** On success, the application's PDF report has exactly one highlight
      per record, on the record's page, coloured by the label map for the
      record's label lower-cased (yellow when absent), titled
      "AI Clause Classification" and reading "<LABEL> (<confidence>)". */
  lemma PdfHighlights(pages: seq<seq<Block>>, classify: string -> Response, fmt: real -> string)
    requires AnnotatePdf(pages, classify, fmt).outcome.Ok?
    ensures HighlightsFollowRecords(AnnotatePdf(pages, classify, fmt).outcome.value, LabelColors)
  {
    CandidatesShape(pages, 1);
    EngineHighlightsFollowRecords(Candidates(pages), AppEnv(classify, fmt, LabelColors));
  }

  /** The highlight the library helper adds for segment `c`: over its
      rectangle on its page, coloured by `colours` for the lower-cased label
      of `classifier(clause)[0][0]`, with the fixed title and the text
      "<LABEL> (<score>)". */
  predicate IsHighlightOf(h: Highlight, c: Candidate, classify: string -> Response,
                          colours: map<string, Colour>, fmt: real -> string)
  {
    && c.rect.Some?
    && TopOf(classify, c.text).Ok?
    && var top := TopOf(classify, c.text).value;
       h == Highlight(c.location, c.rect.value, ColourFor(colours, Lower(top.name)), AnnotationTitle,
                      Upper(Lower(top.name)) + " (" + fmt(top.score) + ")")
  }

  /** On success, the library helper adds exactly one highlight per block
      whose stripped text is at least 30 characters long, in page-then-block
      order, each the highlight of that block's segment. */
  lemma PdfFileHighlights(pages: seq<seq<Block>>, classify: string -> Response,
                          colours: map<string, Colour>, fmt: real -> string)
    requires AnnotatePdfFile(pages, classify, colours, fmt).outcome.Ok?
    ensures var hs := AnnotatePdfFile(pages, classify, colours, fmt).outcome.value;
            var ks := Kept(Candidates(pages), Qualifies);
            && |hs| == |ks| == QualifyingBlocks(pages)
            && forall k :: 0 <= k < |hs| ==> IsHighlightOf(hs[k], ks[k], classify, colours, fmt)
  {
    var cs := Candidates(pages);
    var env := AppEnv(classify, fmt, colours);
    var report := Engine(cs, env).outcome.value;
    var ks := Kept(cs, Qualifies);
    CandidatesShape(pages, 1);
    KeptCountFrom(pages, 1);
    EngineHighlights(cs, env);
    EngineRecords(cs, env);
    forall k | 0 <= k < |ks|
      ensures IsHighlightOf(report.highlights[k], ks[k], classify, colours, fmt)
    {
      UpperOfLower(TopOf(classify, ks[k].text).value.name);
    }
  }

  /** The classifier is only ever called on stripped block texts of at
      least 30 characters; on success once per record, on its clause, in
      record order. */
  lemma PdfCalls(pages: seq<seq<Block>>, classify: string -> Response, fmt: real -> string)
    ensures var run := AnnotatePdf(pages, classify, fmt);
            forall j :: 0 <= j < |run.queried| ==> Qualifies(run.queried[j])
    ensures var run := AnnotatePdf(pages, classify, fmt);
            run.outcome.Ok? ==>
              && |run.queried| == |run.outcome.value.records|
              && forall k :: 0 <= k < |run.queried| ==> run.queried[k] == run.outcome.value.records[k].clause
  {
    var cs := Candidates(pages);
    var env := AppEnv(classify, fmt, LabelColors);
    EngineQueriesPass(cs, env);
    if Engine(cs, env).outcome.Ok? {
      EngineQueriesOnSuccess(cs, env);
      EngineRecords(cs, env);
    }
  }

  lemma {:induction false} NoQualifyingBlocks(pages: seq<seq<Block>>)
    requires forall p, b :: 0 <= p < |pages| && 0 <= b < |pages[p]| ==> !Qualifies(pages[p][b].text)
    ensures QualifyingBlocks(pages) == 0
    decreases |pages|
  {
    if |pages| > 0 {
      NoQualifyingOnPage(pages[0]);
      assert forall p :: 0 <= p < |pages| - 1 ==> pages[1..][p] == pages[p + 1];
      NoQualifyingBlocks(pages[1..]);
    }
  }

  lemma {:induction false} NoQualifyingOnPage(blocks: seq<Block>)
    requires forall b :: 0 <= b < |blocks| ==> !Qualifies(blocks[b].text)
    ensures PageQualifying(blocks) == 0
    decreases |blocks|
  {
    if |blocks| > 0 {
      assert forall b :: 0 <= b < |blocks| - 1 ==> blocks[1..][b] == blocks[b + 1];
      NoQualifyingOnPage(blocks[1..]);
    }
  }

  /** A document whose blocks are all shorter than 30 stripped characters
      gets no highlight, no record and no classifier call. */
  lemma ShortBlocksOnly(pages: seq<seq<Block>>, classify: string -> Response, fmt: real -> string)
    requires forall p, b :: 0 <= p < |pages| && 0 <= b < |pages[p]| ==> !Qualifies(pages[p][b].text)
    ensures AnnotatePdf(pages, classify, fmt) == Run([], Ok(Report([], [])))
  {
    NoQualifyingBlocks(pages);
    KeptCountFrom(pages, 1);
    EngineNothingKept(Candidates(pages), AppEnv(classify, fmt, LabelColors));
  }

  /** The scenario of a one-page document with a single long block,
      classified "termination" with score 0.92: one record on page 1 with
      the stripped text, and one yellow highlight over the block. */
  lemma OneTerminationBlock(rect: Rect, text: string, fmt: real -> string)
    requires Qualifies(text)
    ensures var classify := (s: string) => Returned([[Prediction("termination", 0.92)]]);
            AnnotatePdf([[Block(rect, text)]], classify, fmt)
              == Run([Strip(text)],
                     Ok(Report([ClauseRecord(1, Strip(text), "TERMINATION", fmt(0.92))],
                               [Highlight(1, rect, Yellow, AnnotationTitle, "TERMINATION (" + fmt(0.92) + ")")])))
  {
    var classify := (s: string) => Returned([[Prediction("termination", 0.92)]]);
    var env := AppEnv(classify, fmt, LabelColors);
    var c := Candidate(1, Strip(text), Some(rect));
    var top := Prediction("termination", 0.92);
    assert Candidates([[Block(rect, text)]]) == [c] by {
      assert [[Block(rect, text)]][1..] == [];
    }
    StripIdempotent(text);
    assert TopFor(env, c.text) == Ok(top);
    EngineSingle(c, env);
    assert Lower("termination") == "termination";
    assert Upper("termination") == "TERMINATION";
    assert ColourFor(LabelColors, "termination") == Yellow;
    assert "TERMINATION" + " (" == "TERMINATION (";
  }

  /** The scenario of a page with three long blocks whose second makes the
      classifier raise: the first two are classified, the third never is,
      and the run fails with that error instead of returning any record or
      highlight. */
  lemma FailureOnSecondOfThree(b1: Block, b2: Block, b3: Block, classify: string -> Response,
                               fmt: real -> string)
    requires Qualifies(b1.text) && Qualifies(b2.text) && Qualifies(b3.text)
    requires TopOf(classify, Strip(b1.text)).Ok?
    requires classify(Strip(b2.text)) == Raised
    ensures AnnotatePdf([[b1, b2, b3]], classify, fmt)
            == Run([Strip(b1.text), Strip(b2.text)], Err(ClassifierRaised(Strip(b2.text))))
  {
    var env := AppEnv(classify, fmt, LabelColors);
    var cs := Candidates([[b1, b2, b3]]);
    assert cs == PageCandidates(1, [b1, b2, b3]) by {
      assert [[b1, b2, b3]][1..] == [];
    }
    StripIdempotent(b1.text);
    StripIdempotent(b2.text);
    assert cs[1..][0] == Candidate(1, Strip(b2.text), Some(b2.rect));
    assert TopFor(env, Strip(b2.text)) == Err(ClassifierRaised(Strip(b2.text)));
    assert Engine(cs[1..], env) == Run([Strip(b2.text)], Err(ClassifierRaised(Strip(b2.text))));
  }
}
