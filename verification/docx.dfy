/**
 The DOCX path: the document's paragraphs are reduced to the non-blank ones,
 joined with "\n", split back on "\n", numbered from 1, and run through the
 engine without geometry, so only clause records come out.
 */
module Docx {
  import opened Results
  import opened Text
  import opened Classifier
  import opened Style
  import opened Annotation

  /** The separator the text is joined with and split on. */
  const Newline: char := '\n'

  /** A paragraph `extract_text_from_docx` keeps: `para.text.strip()` is
      non-empty. */
  predicate NonBlankParagraph(p: string) {
    |Strip(p)| > 0
  }

  /** The kept paragraphs, in document order. */
  function NonBlank(paras: seq<string>): (r: seq<string>)
    ensures |r| <= |paras|
  {
    if |paras| == 0 then []
    else if NonBlankParagraph(paras[0]) then [paras[0]] + NonBlank(paras[1..])
    else NonBlank(paras[1..])
  }

  /** `extract_text_from_docx`, given the texts of the document's paragraphs. */
  function ExtractText(paras: seq<string>): string {
    Join(NonBlank(paras), Newline)
  }

  /** The paragraphs `analyze_docx` iterates over: `text.split('\n')`. */
  function Paragraphs(paras: seq<string>): seq<string> {
    Split(ExtractText(paras), Newline)
  }

  /** `enumerate(ps)` numbered from `base + 1`; DOCX has no geometry. */
  function NumberedFrom(ps: seq<string>, base: nat): seq<Candidate> {
    seq(|ps|, i requires 0 <= i < |ps| => Candidate(base + i + 1, ps[i], None))
  }

  /** `enumerate(paragraphs)` with the paragraph number `i + 1`. */
  function Numbered(ps: seq<string>): seq<Candidate> {
    NumberedFrom(ps, 0)
  }

  /** `analyze_docx`: the clause records of the document, or the error that
      aborted it. */
  function AnalyzeDocx(paras: seq<string>, classify: string -> Response, fmt: real -> string)
    : Run<seq<ClauseRecord>>
  {
    var run := Engine(Numbered(Paragraphs(paras)), AppEnv(classify, fmt, LabelColors));
    Run(run.queried, if run.outcome.Ok? then Ok(run.outcome.value.records) else Err(run.outcome.error))
  }

  /** Every kept paragraph is non-blank and one of the document's, and every
      non-blank paragraph of the document is kept. */
  lemma {:induction false} NonBlankMembers(paras: seq<string>)
    ensures forall p :: p in NonBlank(paras) <==> p in paras && NonBlankParagraph(p)
    decreases |paras|
  {
    if |paras| > 0 {
      NonBlankMembers(paras[1..]);
      assert forall p :: p in paras <==> p == paras[0] || p in paras[1..];
    }
  }

  /** Keeping the non-blank paragraphs of two consecutive runs of paragraphs
      keeps those of the first run, then those of the second: the order of
      the document is kept. */
  lemma {:induction false} NonBlankAppend(a: seq<string>, b: seq<string>)
    ensures NonBlank(a + b) == NonBlank(a) + NonBlank(b)
    decreases |a|
  {
    if |a| == 0 {
      assert a + b == b;
    } else {
      assert (a + b)[1..] == a[1..] + b;
      NonBlankAppend(a[1..], b);
    }
  }

  /** A single paragraph is kept exactly when it is non-blank. */
  lemma NonBlankSingle(p: string)
    ensures NonBlank([p]) == if NonBlankParagraph(p) then [p] else []
  {
  }

  /** The join/split round trip the DOCX path relies on: splitting the
      extracted text gives back exactly the non-blank paragraphs, provided
      none of them contains a line break; a document with no non-blank
      paragraph gives the single empty paragraph "". */
  lemma ParagraphsRoundTrip(paras: seq<string>)
    requires forall p :: p in paras && NonBlankParagraph(p) ==> Newline !in p
    ensures |NonBlank(paras)| > 0 ==> Paragraphs(paras) == NonBlank(paras)
    ensures |NonBlank(paras)| == 0 ==> Paragraphs(paras) == [""]
  {
    var kept := NonBlank(paras);
    NonBlankMembers(paras);
    if |kept| > 0 {
      assert forall k :: 0 <= k < |kept| ==> kept[k] in kept;
      SplitJoin(kept, Newline);
    }
  }

  lemma NumberedShape(ps: seq<string>)
    ensures Texts(Numbered(ps)) == ps
    ensures LocationsIncreasing(Numbered(ps))
    ensures NoneHaveRects(Numbered(ps))
  {
  }

  lemma NumberedTail(ps: seq<string>, base: nat)
    requires |ps| > 0
    ensures NumberedFrom(ps, base)[0] == Candidate(base + 1, ps[0], None)
    ensures NumberedFrom(ps, base)[1..] == NumberedFrom(ps[1..], base + 1)
  {
  }

  /** Every kept numbered paragraph carries a number in range and is the
      paragraph at that number. */
  lemma {:induction false} KeptNumbered(ps: seq<string>, base: nat, keep: string -> bool)
    ensures var ks := Kept(NumberedFrom(ps, base), keep);
            forall k :: 0 <= k < |ks| ==>
              && base + 1 <= ks[k].location <= base + |ps|
              && ks[k].text == ps[ks[k].location - base - 1]
              && keep(ks[k].text)
    decreases |ps|
  {
    if |ps| > 0 {
      var cs := NumberedFrom(ps, base);
      NumberedTail(ps, base);
      KeptCons(cs, keep);
      KeptNumbered(ps[1..], base + 1, keep);
      var rest := Kept(cs[1..], keep);
      var ks := Kept(cs, keep);
      forall k | 0 <= k < |ks|
        ensures && base + 1 <= ks[k].location <= base + |ps|
                && ks[k].text == ps[ks[k].location - base - 1]
                && keep(ks[k].text)
      {
        if keep(ps[0]) {
          if k > 0 {
            assert ks[k] == rest[k - 1];
            assert ps[1..][ks[k].location - base - 2] == ps[ks[k].location - base - 1];
          }
        } else {
          assert ks[k] == rest[k];
          assert ps[1..][ks[k].location - base - 2] == ps[ks[k].location - base - 1];
        }
      }
    }
  }

  /** Every paragraph passing the filter is kept under its own number. */
  lemma {:induction false} KeptNumberedCovers(ps: seq<string>, base: nat, keep: string -> bool)
    ensures var ks := Kept(NumberedFrom(ps, base), keep);
            forall i :: 0 <= i < |ps| && keep(ps[i]) ==>
              exists k :: 0 <= k < |ks| && ks[k].location == base + i + 1
    decreases |ps|
  {
    if |ps| > 0 {
      var cs := NumberedFrom(ps, base);
      NumberedTail(ps, base);
      KeptCons(cs, keep);
      KeptNumberedCovers(ps[1..], base + 1, keep);
      var rest := Kept(cs[1..], keep);
      var ks := Kept(cs, keep);
      forall i | 0 <= i < |ps| && keep(ps[i])
        ensures exists k :: 0 <= k < |ks| && ks[k].location == base + i + 1
      {
        if i == 0 {
          assert ks[0].location == base + 1;
        } else {
          assert ps[1..][i - 1] == ps[i];
          var k :| 0 <= k < |rest| && rest[k].location == base + 1 + (i - 1) + 1;
          if keep(ps[0]) {
            assert ks[k + 1] == rest[k];
          } else {
            assert ks[k] == rest[k];
          }
        }
      }
    }
  }

  /** The records of numbered paragraphs are the kept ones, each under
      its own 1-based number. */
  lemma NumberedRecordsContent(ps: seq<string>, env: Env)
    requires Engine(Numbered(ps), env).outcome.Ok?
    ensures var records := Engine(Numbered(ps), env).outcome.value.records;
            forall k :: 0 <= k < |records| ==>
              && 1 <= records[k].location <= |ps|
              && records[k].clause == ps[records[k].location - 1]
              && env.keep(records[k].clause)
  {
    EngineRecords(Numbered(ps), env);
    KeptNumbered(ps, 0, env.keep);
  }

  /** Every numbered paragraph passing the filter has a record. */
  lemma NumberedRecordsCover(ps: seq<string>, env: Env)
    requires Engine(Numbered(ps), env).outcome.Ok?
    ensures var records := Engine(Numbered(ps), env).outcome.value.records;
            forall i :: 0 <= i < |ps| && env.keep(ps[i]) ==>
              exists k :: 0 <= k < |records| && records[k].location == i + 1
  {
    var ks := Kept(Numbered(ps), env.keep);
    var records := Engine(Numbered(ps), env).outcome.value.records;
    EngineRecords(Numbered(ps), env);
    KeptNumberedCovers(ps, 0, env.keep);
    forall i | 0 <= i < |ps| && env.keep(ps[i])
      ensures exists k :: 0 <= k < |records| && records[k].location == i + 1
    {
      var k :| 0 <= k < |ks| && ks[k].location == i + 1;
      assert records[k].location == i + 1;
    }
  }

  /** `records` are the paragraphs of `ps` that pass `keep`, one each, in
      paragraph order, each numbered by its 1-based position in `ps` and
      carrying that paragraph unchanged as its clause. */
  predicate ParagraphRecords(records: seq<ClauseRecord>, ps: seq<string>, keep: string -> bool) {
    && |records| == CountKept(ps, keep)
    && RecordsIncreasing(records)
    && (forall k :: 0 <= k < |records| ==>
          && 1 <= records[k].location <= |ps|
          && records[k].clause == ps[records[k].location - 1]
          && keep(records[k].clause))
    && (forall i :: 0 <= i < |ps| && keep(ps[i]) ==>
          exists k :: 0 <= k < |records| && records[k].location == i + 1)
  }

  /** The DOCX numbering for any filter: on success the records are the
      kept paragraphs, numbered by their 1-based position in `ps`. */
  lemma NumberedRecords(ps: seq<string>, env: Env)
    requires Engine(Numbered(ps), env).outcome.Ok?
    ensures ParagraphRecords(Engine(Numbered(ps), env).outcome.value.records, ps, env.keep)
  {
    NumberedShape(ps);
    EngineRecords(Numbered(ps), env);
    EngineKeepsOrder(Numbered(ps), env);
    KeptCount(Numbered(ps), env.keep);
    NumberedRecordsContent(ps, env);
    NumberedRecordsCover(ps, env);
  }

  /** The DOCX records seen through the engine: on success they are those
      of the engine over the numbered paragraphs under the application's
      filter. */
  lemma DocxIsNumberedRun(paras: seq<string>, classify: string -> Response, fmt: real -> string)
    requires AnalyzeDocx(paras, classify, fmt).outcome.Ok?
    ensures var env := AppEnv(classify, fmt, LabelColors);
            && env.keep == Qualifies
            && Engine(Numbered(Paragraphs(paras)), env).outcome.Ok?
            && AnalyzeDocx(paras, classify, fmt).outcome.value
               == Engine(Numbered(Paragraphs(paras)), env).outcome.value.records
  {
  }

  /** On success: one record per paragraph of the split text whose stripped
      length is at least 30, in paragraph order with strictly increasing
      numbers; each record's number is the 1-based position of its paragraph
      in the split list (short paragraphs still use up a number), and its
      clause is that paragraph as it is, untrimmed. */
  lemma DocxRecords(paras: seq<string>, classify: string -> Response, fmt: real -> string)
    requires AnalyzeDocx(paras, classify, fmt).outcome.Ok?
    ensures ParagraphRecords(AnalyzeDocx(paras, classify, fmt).outcome.value, Paragraphs(paras), Qualifies)
  {
    DocxIsNumberedRun(paras, classify, fmt);
    NumberedRecords(Paragraphs(paras), AppEnv(classify, fmt, LabelColors));
  }

  /** The classifier is never called on a paragraph shorter than 30
      stripped characters; on success it is called once per record, on that
      record's clause, in record order. */
  lemma DocxCalls(paras: seq<string>, classify: string -> Response, fmt: real -> string)
    ensures var run := AnalyzeDocx(paras, classify, fmt);
            forall j :: 0 <= j < |run.queried| ==> Qualifies(run.queried[j])
    ensures var run := AnalyzeDocx(paras, classify, fmt);
            run.outcome.Ok? ==>
              && |run.queried| == |run.outcome.value|
              && forall k :: 0 <= k < |run.queried| ==> run.queried[k] == run.outcome.value[k].clause
  {
    var cs := Numbered(Paragraphs(paras));
    var env := AppEnv(classify, fmt, LabelColors);
    EngineQueriesPass(cs, env);
    if Engine(cs, env).outcome.Ok? {
      EngineQueriesOnSuccess(cs, env);
      EngineRecords(cs, env);
    }
  }

  /** The engine run behind `analyze_docx` never produces a highlight:
      paragraphs have no rectangle. */
  lemma DocxNoHighlights(paras: seq<string>, classify: string -> Response, fmt: real -> string)
    requires Engine(Numbered(Paragraphs(paras)), AppEnv(classify, fmt, LabelColors)).outcome.Ok?
    ensures Engine(Numbered(Paragraphs(paras)), AppEnv(classify, fmt, LabelColors)).outcome.value.highlights == []
  {
    NumberedShape(Paragraphs(paras));
    EngineNoHighlights(Numbered(Paragraphs(paras)), AppEnv(classify, fmt, LabelColors));
  }

  lemma {:induction false} NonBlankOfBlanks(paras: seq<string>)
    requires forall i :: 0 <= i < |paras| ==> !NonBlankParagraph(paras[i])
    ensures NonBlank(paras) == []
    decreases |paras|
  {
    if |paras| > 0 {
      assert forall i :: 0 <= i < |paras| - 1 ==> paras[1..][i] == paras[i + 1];
      NonBlankOfBlanks(paras[1..]);
    }
  }

  /** A document whose paragraphs are all blank yields no record and makes
      no classifier call: its text is "", which splits into one empty
      paragraph, which is too short. */
  lemma BlankDocument(paras: seq<string>, classify: string -> Response, fmt: real -> string)
    requires forall i :: 0 <= i < |paras| ==> !NonBlankParagraph(paras[i])
    ensures AnalyzeDocx(paras, classify, fmt) == Run([], Ok([]))
  {
    NonBlankOfBlanks(paras);
    assert ExtractText(paras) == "";
    assert Paragraphs(paras) == [""];
    assert Numbered([""]) == [Candidate(1, "", None)];
    assert !Qualifies("");
  }

  /** Two non-blank paragraphs without line breaks survive the join and the
      split unchanged. */
  lemma TwoParagraphs(short: string, long: string)
    requires NonBlankParagraph(short) && Newline !in short
    requires NonBlankParagraph(long) && Newline !in long
    ensures Paragraphs([short, long]) == [short, long]
  {
    var paras := [short, long];
    assert NonBlank(paras) == paras by {
      assert paras[1..] == [long];
    }
    ParagraphsRoundTrip(paras);
  }

  /** The scenario of a document with a short non-blank paragraph followed
      by one long enough to be a clause, under a classifier that answers
      "termination" with score 0.92: one call, on the long paragraph, and one
      record, numbered 2. */
  lemma ShortThenLong(short: string, long: string, fmt: real -> string)
    requires NonBlankParagraph(short) && !Qualifies(short) && Newline !in short
    requires Qualifies(long) && Newline !in long
    ensures var classify := (s: string) => Returned([[Prediction("termination", 0.92)]]);
            AnalyzeDocx([short, long], classify, fmt)
              == Run([long], Ok([ClauseRecord(2, long, "TERMINATION", fmt(0.92))]))
  {
    var classify := (s: string) => Returned([[Prediction("termination", 0.92)]]);
    var env := AppEnv(classify, fmt, LabelColors);
    TwoParagraphs(short, long);
    var cs := Numbered([short, long]);
    assert cs == [Candidate(1, short, None), Candidate(2, long, None)];
    var top := Prediction("termination", 0.92);
    assert TopFor(env, long) == Ok(top);
    EngineSingle(cs[1], env);
    assert cs[1..] == [cs[1]];
    assert MakeRecord(cs[1], top, fmt) == ClauseRecord(2, long, "TERMINATION", fmt(0.92)) by {
      assert Upper(Lower("termination")) == "TERMINATION";
    }
  }
}
