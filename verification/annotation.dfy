/**
 The clause-selection and record-building engine shared by the PDF and DOCX
 paths: walk the segments in order, skip every one the length filter
 rejects, ask the classifier about each remaining one, take its top
 prediction, and emit a clause record (and, where the segment has a
 rectangle, a highlight). The first classification failure aborts the whole
 run: no partial report is returned.

 The engine is stated for any segment filter; the application's filter is
 `Qualifies`, "at least 30 characters after `strip()`".
 */
module Annotation {
  import opened Results
  import opened Text
  import opened Classifier
  import opened Style

  /** Segments whose stripped text is shorter than this are not clauses. */
  const MinClauseLength: nat := 30

  /** The title every highlight annotation carries. */
  const AnnotationTitle: string := "AI Clause Classification"

  /** A PDF block's bounding box, carried through to its highlight unchanged. */
  datatype Rect = Rect(x0: real, y0: real, x1: real, y1: real)

  /** A segment offered to the engine: its 1-based page (PDF) or paragraph
      (DOCX) number, the text the classifier sees and the record stores, and
      the rectangle to highlight when the format has geometry. */
  datatype Candidate = Candidate(location: nat, text: string, rect: Option<Rect>)

  /** One row of the report: the Page or Paragraph column, the Clause, the
      Label (upper-cased; `category` here) and the formatted Confidence. */
  datatype ClauseRecord = ClauseRecord(location: nat, clause: string, category: string, confidence: string)

  /** One highlight annotation added to page `page` over `rect`. */
  datatype Highlight = Highlight(page: nat, rect: Rect, colour: Colour, title: string, content: string)

  datatype Report = Report(records: seq<ClauseRecord>, highlights: seq<Highlight>)

  /** A run of the pipeline: the texts handed to the classifier, in call
      order, and what the run produced. */
  datatype Run<T> = Run(queried: seq<string>, outcome: Result<T, ClassificationError>)

  /** What a run depends on besides the segments: the segment filter, the
      classifier, the two-decimal score formatter (`f"{score:.2f}"`) and the
      label colour map. */
  datatype Env = Env(keep: string -> bool, classify: string -> Response,
                     fmt: real -> string, colours: map<string, Colour>)

  /** The application's length filter, `len(text.strip()) >= 30`. */
  predicate Qualifies(text: string) {
    |Strip(text)| >= MinClauseLength
  }

  /** The environment of the application: its length filter, a classifier,
      a formatter and a colour map. */
  function AppEnv(classify: string -> Response, fmt: real -> string,
                  colours: map<string, Colour>): Env
  {
    Env(Qualifies, classify, fmt, colours)
  }

  /** The top prediction for `text` under the run's classifier. */
  function TopFor(env: Env, text: string): Result<Prediction, ClassificationError> {
    TopOf(env.classify, text)
  }

  /** The candidates that pass the filter, in their original order. */
  function Kept(cs: seq<Candidate>, keep: string -> bool): (r: seq<Candidate>)
    ensures |r| <= |cs|
  {
    if |cs| == 0 then []
    else if keep(cs[0].text) then [cs[0]] + Kept(cs[1..], keep)
    else Kept(cs[1..], keep)
  }

  /** A candidate is kept exactly when it is one of `cs` and passes the
      filter. */
  lemma {:induction false} KeptMembers(cs: seq<Candidate>, keep: string -> bool)
    ensures forall c :: c in Kept(cs, keep) <==> c in cs && keep(c.text)
    decreases |cs|
  {
    if |cs| > 0 {
      KeptMembers(cs[1..], keep);
      assert forall c :: c in cs <==> c == cs[0] || c in cs[1..];
    }
  }

  /** The texts of `cs`, in order. */
  function Texts(cs: seq<Candidate>): (ts: seq<string>)
    ensures |ts| == |cs|
  {
    seq(|cs|, i requires 0 <= i < |cs| => cs[i].text)
  }

  /** An independent count of the texts that pass the filter. */
  function CountKept(texts: seq<string>, keep: string -> bool): nat {
    if |texts| == 0 then 0
    else (if keep(texts[0]) then 1 else 0) + CountKept(texts[1..], keep)
  }

  /** The record for a kept candidate and its top prediction. */
  function MakeRecord(c: Candidate, top: Prediction, fmt: real -> string): ClauseRecord {
    var name := Lower(top.name);
    ClauseRecord(c.location, c.text, Upper(name), fmt(top.score))
  }

  /** The highlight for a kept candidate: none without a rectangle. */
  function MakeHighlights(c: Candidate, top: Prediction, env: Env): seq<Highlight> {
    match c.rect
    case None => []
    case Some(rect) =>
      var name := Lower(top.name);
      [Highlight(c.location, rect, ColourFor(env.colours, name), AnnotationTitle,
                 Upper(name) + " (" + env.fmt(top.score) + ")")]
  }

  /** The loop body for one segment `c`, given the run over the segments
      after it: skip a rejected segment; otherwise classify it, stop on a
      failure, and put its record and highlight in front of the rest. */
  function Visit(c: Candidate, rest: Run<Report>, env: Env): Run<Report> {
    if !env.keep(c.text) then rest
    else
      match TopFor(env, c.text)
      case Err(e) => Run([c.text], Err(e))
      case Ok(top) =>
        var outcome :=
          if rest.outcome.Err? then rest.outcome
          else Ok(Report([MakeRecord(c, top, env.fmt)] + rest.outcome.value.records,
                         MakeHighlights(c, top, env) + rest.outcome.value.highlights));
        Run([c.text] + rest.queried, outcome)
  }

  /** The per-segment loop over `cs`, in order. */
  function Engine(cs: seq<Candidate>, env: Env): Run<Report>
    decreases |cs|
  {
    if |cs| == 0 then Run([], Ok(Report([], [])))
    else Visit(cs[0], Engine(cs[1..], env), env)
  }

  /** A run over a tail of the segments, preceded by the calls made and
      the records and highlights produced for the segments before it. */
  function After(queried: seq<string>, records: seq<ClauseRecord>, highlights: seq<Highlight>,
                 rest: Run<Report>): Run<Report>
  {
    Run(queried + rest.queried,
        if rest.outcome.Err? then rest.outcome
        else Ok(Report(records + rest.outcome.value.records, highlights + rest.outcome.value.highlights)))
  }

  lemma AfterNothing(run: Run<Report>)
    ensures After([], [], [], run) == run
  {
    assert [] + run.queried == run.queried;
    if run.outcome.Ok? {
      assert [] + run.outcome.value.records == run.outcome.value.records;
      assert [] + run.outcome.value.highlights == run.outcome.value.highlights;
    }
  }

  lemma AfterEnd(queried: seq<string>, records: seq<ClauseRecord>, highlights: seq<Highlight>)
    ensures After(queried, records, highlights, Run([], Ok(Report([], []))))
            == Run(queried, Ok(Report(records, highlights)))
  {
    assert queried + [] == queried;
    assert records + [] == records;
    assert highlights + [] == highlights;
  }

  /** One kept, successfully classified segment moves from the run into the
      output collected before it. */
  lemma AfterVisit(queried: seq<string>, records: seq<ClauseRecord>, highlights: seq<Highlight>,
                   c: Candidate, rest: Run<Report>, env: Env)
    requires env.keep(c.text) && TopFor(env, c.text).Ok?
    ensures var top := TopFor(env, c.text).value;
            After(queried, records, highlights, Visit(c, rest, env))
            == After(queried + [c.text], records + [MakeRecord(c, top, env.fmt)],
                     highlights + MakeHighlights(c, top, env), rest)
  {
    var top := TopFor(env, c.text).value;
    assert queried + ([c.text] + rest.queried) == (queried + [c.text]) + rest.queried;
    if rest.outcome.Ok? {
      var r := rest.outcome.value;
      assert records + ([MakeRecord(c, top, env.fmt)] + r.records)
          == (records + [MakeRecord(c, top, env.fmt)]) + r.records;
      assert highlights + (MakeHighlights(c, top, env) + r.highlights)
          == (highlights + MakeHighlights(c, top, env)) + r.highlights;
    }
  }

  /** The loop as the program writes it: segment after segment, appending a
      record and a highlight for each kept one, and leaving at the first
      classification that fails. It computes the same run as `Engine`. */
  method RunSegments(cs: seq<Candidate>, env: Env) returns (run: Run<Report>)
    ensures run == Engine(cs, env)
  {
    var queried: seq<string> := [];
    var records: seq<ClauseRecord> := [];
    var highlights: seq<Highlight> := [];
    var i := 0;
    assert cs[0..] == cs;
    AfterNothing(Engine(cs, env));
    while i < |cs|
      invariant 0 <= i <= |cs|
      invariant Engine(cs, env) == After(queried, records, highlights, Engine(cs[i..], env))
    {
      var c := cs[i];
      assert cs[i..][1..] == cs[i + 1..];
      ghost var rest := Engine(cs[i + 1..], env);
      if env.keep(c.text) {
        var top := TopFor(env, c.text);
        if top.Err? {
          assert Engine(cs[i..], env) == Run([c.text], Err(top.error));
          return Run(queried + [c.text], Err(top.error));
        }
        AfterVisit(queried, records, highlights, c, rest, env);
        queried := queried + [c.text];
        records := records + [MakeRecord(c, top.value, env.fmt)];
        highlights := highlights + MakeHighlights(c, top.value, env);
      }
      i := i + 1;
    }
    assert cs[i..] == [];
    AfterEnd(queried, records, highlights);
    run := Run(queried, Ok(Report(records, highlights)));
  }

  /** Every kept candidate's classification succeeds. */
  predicate AllSucceed(ks: seq<Candidate>, env: Env) {
    forall k :: 0 <= k < |ks| ==> TopFor(env, ks[k].text).Ok?
  }

  /** `k` is the first kept candidate whose classification fails. */
  predicate FailsFirstAt(ks: seq<Candidate>, env: Env, k: int) {
    && 0 <= k < |ks|
    && TopFor(env, ks[k].text).Err?
    && forall j :: 0 <= j < k ==> TopFor(env, ks[j].text).Ok?
  }

  lemma KeptCons(cs: seq<Candidate>, keep: string -> bool)
    requires |cs| > 0
    ensures keep(cs[0].text) ==> Kept(cs, keep) == [cs[0]] + Kept(cs[1..], keep)
    ensures !keep(cs[0].text) ==> Kept(cs, keep) == Kept(cs[1..], keep)
  {
  }

  lemma TextsCons(c: Candidate, cs: seq<Candidate>)
    ensures Texts([c] + cs) == [c.text] + Texts(cs)
  {
  }

  lemma AllSucceedCons(c: Candidate, cs: seq<Candidate>, env: Env)
    ensures AllSucceed([c] + cs, env) <==> TopFor(env, c.text).Ok? && AllSucceed(cs, env)
  {
    var ks := [c] + cs;
    if TopFor(env, c.text).Ok? && AllSucceed(cs, env) {
      forall k | 0 <= k < |ks|
        ensures TopFor(env, ks[k].text).Ok?
      {
        if k > 0 {
          assert ks[k] == cs[k - 1];
        }
      }
    }
    if AllSucceed(ks, env) {
      assert ks[0] == c;
      forall k | 0 <= k < |cs|
        ensures TopFor(env, cs[k].text).Ok?
      {
        assert ks[k + 1] == cs[k];
      }
    }
  }

  /** A qualifying candidate whose classification succeeds, followed by a
      successful rest, contributes its record and highlight at the front. */
  lemma EngineStep(cs: seq<Candidate>, env: Env)
    requires |cs| > 0 && env.keep(cs[0].text)
    requires Engine(cs, env).outcome.Ok?
    ensures TopFor(env, cs[0].text).Ok?
    ensures Engine(cs[1..], env).outcome.Ok?
    ensures Engine(cs, env).outcome.value.records
            == [MakeRecord(cs[0], TopFor(env, cs[0].text).value, env.fmt)]
               + Engine(cs[1..], env).outcome.value.records
    ensures Engine(cs, env).outcome.value.highlights
            == MakeHighlights(cs[0], TopFor(env, cs[0].text).value, env)
               + Engine(cs[1..], env).outcome.value.highlights
  {
  }

  /** A qualifying candidate is classified first; a failure there ends the
      run with its error, otherwise the run goes on with the rest. */
  lemma EngineStepCalls(cs: seq<Candidate>, env: Env)
    requires |cs| > 0 && env.keep(cs[0].text)
    ensures var run := Engine(cs, env);
            var rest := Engine(cs[1..], env);
            var top := TopFor(env, cs[0].text);
            && (top.Err? ==> run == Run([cs[0].text], Err(top.error)))
            && (top.Ok? ==> run.queried == [cs[0].text] + rest.queried)
            && (top.Ok? ==> (run.outcome.Ok? <==> rest.outcome.Ok?))
            && (top.Ok? && rest.outcome.Err? ==> run.outcome.error == rest.outcome.error)
  {
  }

  /** The run succeeds exactly when every kept candidate's classification
      does: one failure anywhere fails the whole document. */
  lemma {:induction false} EngineOkIff(cs: seq<Candidate>, env: Env)
    ensures Engine(cs, env).outcome.Ok? <==> AllSucceed(Kept(cs, env.keep), env)
    decreases |cs|
  {
    if |cs| > 0 {
      EngineOkIff(cs[1..], env);
      KeptCons(cs, env.keep);
      if env.keep(cs[0].text) {
        EngineStepCalls(cs, env);
        AllSucceedCons(cs[0], Kept(cs[1..], env.keep), env);
      }
    }
  }

  /** On success the classifier was called on exactly the kept texts, once
      each, in order, and never on a rejected one. */
  lemma {:induction false} EngineQueriesOnSuccess(cs: seq<Candidate>, env: Env)
    requires Engine(cs, env).outcome.Ok?
    ensures Engine(cs, env).queried == Texts(Kept(cs, env.keep))
    decreases |cs|
  {
    if |cs| > 0 {
      KeptCons(cs, env.keep);
      if env.keep(cs[0].text) {
        EngineStepCalls(cs, env);
        EngineQueriesOnSuccess(cs[1..], env);
        TextsCons(cs[0], Kept(cs[1..], env.keep));
      } else {
        EngineQueriesOnSuccess(cs[1..], env);
      }
    }
  }

  /** A single kept segment whose classification succeeds makes one call
      and yields its own record and highlight. */
  lemma EngineSingle(c: Candidate, env: Env)
    requires env.keep(c.text) && TopFor(env, c.text).Ok?
    ensures var top := TopFor(env, c.text).value;
            Engine([c], env)
              == Run([c.text], Ok(Report([MakeRecord(c, top, env.fmt)], MakeHighlights(c, top, env))))
  {
    assert [c][1..] == [];
    var top := TopFor(env, c.text).value;
    assert [MakeRecord(c, top, env.fmt)] + [] == [MakeRecord(c, top, env.fmt)];
    assert MakeHighlights(c, top, env) + [] == MakeHighlights(c, top, env);
  }

  /** Whatever the outcome, every text handed to the classifier passed the
      filter: a rejected segment is never classified. */
  lemma {:induction false} EngineQueriesPass(cs: seq<Candidate>, env: Env)
    ensures forall j :: 0 <= j < |Engine(cs, env).queried| ==> env.keep(Engine(cs, env).queried[j])
    decreases |cs|
  {
    if |cs| > 0 {
      EngineQueriesPass(cs[1..], env);
      if env.keep(cs[0].text) {
        EngineStepCalls(cs, env);
      }
    }
  }

  /** On failure the error is that of the first kept candidate whose
      classification fails, and the calls stop there: they are the kept
      texts up to and including that one. */
  lemma {:induction false} EngineFailure(cs: seq<Candidate>, env: Env)
    requires Engine(cs, env).outcome.Err?
    ensures var ks := Kept(cs, env.keep);
            exists k :: && FailsFirstAt(ks, env, k)
                        && Engine(cs, env).queried == Texts(ks[..k + 1])
                        && Engine(cs, env).outcome.error == TopFor(env, ks[k].text).error
    decreases |cs|
  {
    KeptCons(cs, env.keep);
    var c := cs[0];
    var rest := Kept(cs[1..], env.keep);
    var ks := Kept(cs, env.keep);
    if !env.keep(c.text) {
      EngineFailure(cs[1..], env);
    } else {
      EngineStepCalls(cs, env);
      if TopFor(env, c.text).Err? {
        assert FailsFirstAt(ks, env, 0);
        assert ks[..1] == [c];
      } else {
        EngineFailure(cs[1..], env);
        var tail := Engine(cs[1..], env);
        var k :| && FailsFirstAt(rest, env, k)
                 && tail.queried == Texts(rest[..k + 1])
                 && tail.outcome.error == TopFor(env, rest[k].text).error;
        assert ks[k + 1] == rest[k];
        assert FailsFirstAt(ks, env, k + 1) by {
          forall j | 0 <= j < k + 1
            ensures TopFor(env, ks[j].text).Ok?
          {
            if j > 0 {
              assert ks[j] == rest[j - 1];
            }
          }
        }
        assert ks[..k + 2] == [c] + rest[..k + 1];
        TextsCons(c, rest[..k + 1]);
      }
    }
  }

  /** On success there is one record per kept candidate, in order: the
      candidate's location and text, the upper-cased top label and the
      formatted top score. */
  lemma {:induction false} EngineRecords(cs: seq<Candidate>, env: Env)
    requires Engine(cs, env).outcome.Ok?
    ensures var records := Engine(cs, env).outcome.value.records;
            var ks := Kept(cs, env.keep);
            && |records| == |ks|
            && forall k :: 0 <= k < |ks| ==>
                 && TopFor(env, ks[k].text).Ok?
                 && records[k].location == ks[k].location
                 && records[k].clause == ks[k].text
                 && records[k].category == Upper(TopFor(env, ks[k].text).value.name)
                 && records[k].confidence == env.fmt(TopFor(env, ks[k].text).value.score)
    decreases |cs|
  {
    if |cs| > 0 {
      KeptCons(cs, env.keep);
      if env.keep(cs[0].text) {
        EngineStep(cs, env);
        EngineRecords(cs[1..], env);
        var c := cs[0];
        var top := TopFor(env, c.text).value;
        var records := Engine(cs, env).outcome.value.records;
        var tail := Engine(cs[1..], env).outcome.value.records;
        var rest := Kept(cs[1..], env.keep);
        var ks := Kept(cs, env.keep);
        UpperOfLower(top.name);
        forall k | 0 <= k < |ks|
          ensures && TopFor(env, ks[k].text).Ok?
                  && records[k].location == ks[k].location
                  && records[k].clause == ks[k].text
                  && records[k].category == Upper(TopFor(env, ks[k].text).value.name)
                  && records[k].confidence == env.fmt(TopFor(env, ks[k].text).value.score)
        {
          if k > 0 {
            assert ks[k] == rest[k - 1];
            assert records[k] == tail[k - 1];
          }
        }
      } else {
        EngineRecords(cs[1..], env);
      }
    }
  }

  /** Every candidate has a rectangle (the PDF case). */
  predicate AllHaveRects(cs: seq<Candidate>) {
    forall k :: 0 <= k < |cs| ==> cs[k].rect.Some?
  }

  /** No candidate has a rectangle (the DOCX case). */
  predicate NoneHaveRects(cs: seq<Candidate>) {
    forall k :: 0 <= k < |cs| ==> cs[k].rect.None?
  }

  /** The highlight that belongs to record `r` of candidate `c` with top
      prediction `top`: on the record's page, over the candidate's
      rectangle, coloured by the lower-cased label with the yellow fallback,
      titled "AI Clause Classification", reading "<LABEL> (<confidence>)"
      with the record's own label and confidence. */
  predicate HighlightMatches(h: Highlight, r: ClauseRecord, c: Candidate, top: Prediction, env: Env) {
    && c.rect.Some?
    && h.page == r.location
    && h.rect == c.rect.value
    && h.colour == ColourFor(env.colours, Lower(top.name))
    && h.title == AnnotationTitle
    && h.content == r.category + " (" + r.confidence + ")"
  }

  /** When every candidate has a rectangle, each record has exactly one
      highlight, at the same position. */
  lemma {:induction false} EngineHighlights(cs: seq<Candidate>, env: Env)
    requires Engine(cs, env).outcome.Ok?
    requires AllHaveRects(cs)
    ensures var report := Engine(cs, env).outcome.value;
            var ks := Kept(cs, env.keep);
            && |report.highlights| == |report.records| == |ks|
            && forall k :: 0 <= k < |ks| ==>
                 && TopFor(env, ks[k].text).Ok?
                 && HighlightMatches(report.highlights[k], report.records[k], ks[k],
                                     TopFor(env, ks[k].text).value, env)
    decreases |cs|
  {
    if |cs| > 0 {
      KeptCons(cs, env.keep);
      assert AllHaveRects(cs[1..]) by {
        forall k | 0 <= k < |cs| - 1
          ensures cs[1..][k].rect.Some?
        {
          assert cs[1..][k] == cs[k + 1];
        }
      }
      if env.keep(cs[0].text) {
        EngineStep(cs, env);
        EngineHighlights(cs[1..], env);
        var c := cs[0];
        assert c.rect.Some?;
        var top := TopFor(env, c.text).value;
        var report := Engine(cs, env).outcome.value;
        var tail := Engine(cs[1..], env).outcome.value;
        var rest := Kept(cs[1..], env.keep);
        var ks := Kept(cs, env.keep);
        forall k | 0 <= k < |ks|
          ensures && TopFor(env, ks[k].text).Ok?
                  && HighlightMatches(report.highlights[k], report.records[k], ks[k],
                                      TopFor(env, ks[k].text).value, env)
        {
          if k > 0 {
            assert ks[k] == rest[k - 1];
            assert report.records[k] == tail.records[k - 1];
            assert report.highlights[k] == tail.highlights[k - 1];
          }
        }
      } else {
        EngineHighlights(cs[1..], env);
      }
    }
  }

  /** The highlights follow the records one to one: same page, colour of
      the record's label lower-cased (yellow when the map lacks it), the
      fixed title, and the text "<LABEL> (<confidence>)" of that record. */
  predicate HighlightsFollowRecords(report: Report, colours: map<string, Colour>) {
    && |report.highlights| == |report.records|
    && forall k :: 0 <= k < |report.records| ==>
         && report.highlights[k].page == report.records[k].location
         && report.highlights[k].colour == ColourFor(colours, Lower(report.records[k].category))
         && report.highlights[k].title == AnnotationTitle
         && report.highlights[k].content
            == report.records[k].category + " (" + report.records[k].confidence + ")"
  }

  /** With a rectangle on every segment, the report's highlights follow its
      records. */
  lemma EngineHighlightsFollowRecords(cs: seq<Candidate>, env: Env)
    requires Engine(cs, env).outcome.Ok?
    requires AllHaveRects(cs)
    ensures HighlightsFollowRecords(Engine(cs, env).outcome.value, env.colours)
  {
    var report := Engine(cs, env).outcome.value;
    var ks := Kept(cs, env.keep);
    EngineRecords(cs, env);
    EngineHighlights(cs, env);
    forall k | 0 <= k < |report.records|
      ensures report.highlights[k].colour == ColourFor(env.colours, Lower(report.records[k].category))
    {
      LowerOfUpper(TopFor(env, ks[k].text).value.name);
    }
  }

  /** Every kept candidate has each property every candidate has, and
      passes the filter. */
  lemma {:induction false} KeptAll(cs: seq<Candidate>, keep: string -> bool, p: Candidate -> bool)
    requires forall i :: 0 <= i < |cs| ==> p(cs[i])
    ensures forall k :: 0 <= k < |Kept(cs, keep)| ==> p(Kept(cs, keep)[k]) && keep(Kept(cs, keep)[k].text)
    decreases |cs|
  {
    if |cs| > 0 {
      KeptCons(cs, keep);
      assert forall i :: 0 <= i < |cs| - 1 ==> cs[1..][i] == cs[i + 1];
      KeptAll(cs[1..], keep, p);
    }
  }

  /** Without rectangles no highlight is produced at all. */
  lemma {:induction false} EngineNoHighlights(cs: seq<Candidate>, env: Env)
    requires Engine(cs, env).outcome.Ok?
    requires NoneHaveRects(cs)
    ensures Engine(cs, env).outcome.value.highlights == []
    decreases |cs|
  {
    if |cs| > 0 {
      assert NoneHaveRects(cs[1..]) by {
        forall k | 0 <= k < |cs| - 1
          ensures cs[1..][k].rect.None?
        {
          assert cs[1..][k] == cs[k + 1];
        }
      }
      assert cs[0].rect.None?;
      if env.keep(cs[0].text) {
        EngineStep(cs, env);
      }
      EngineNoHighlights(cs[1..], env);
    }
  }

  /** The number of kept candidates is the number of texts passing the
      filter. */
  lemma {:induction false} KeptCount(cs: seq<Candidate>, keep: string -> bool)
    ensures |Kept(cs, keep)| == CountKept(Texts(cs), keep)
    decreases |cs|
  {
    if |cs| > 0 {
      KeptCount(cs[1..], keep);
      assert Texts(cs)[1..] == Texts(cs[1..]);
    }
  }

  /** Filtering a concatenation filters each part. */
  lemma {:induction false} KeptAppend(a: seq<Candidate>, b: seq<Candidate>, keep: string -> bool)
    ensures Kept(a + b, keep) == Kept(a, keep) + Kept(b, keep)
    decreases |a|
  {
    if |a| > 0 {
      assert (a + b)[1..] == a[1..] + b;
      KeptCons(a + b, keep);
      KeptCons(a, keep);
      KeptAppend(a[1..], b, keep);
    } else {
      assert a + b == b;
    }
  }

  /** When the filter rejects every segment, the run makes no call and
      produces an empty report. */
  lemma {:induction false} EngineNothingKept(cs: seq<Candidate>, env: Env)
    requires Kept(cs, env.keep) == []
    ensures Engine(cs, env) == Run([], Ok(Report([], [])))
    decreases |cs|
  {
    if |cs| > 0 {
      KeptCons(cs, env.keep);
      EngineNothingKept(cs[1..], env);
    }
  }

  predicate LocationsNonDecreasing(cs: seq<Candidate>) {
    forall i, j :: 0 <= i < j < |cs| ==> cs[i].location <= cs[j].location
  }

  predicate LocationsIncreasing(cs: seq<Candidate>) {
    forall i, j :: 0 <= i < j < |cs| ==> cs[i].location < cs[j].location
  }

  predicate RecordsNonDecreasing(rs: seq<ClauseRecord>) {
    forall i, j :: 0 <= i < j < |rs| ==> rs[i].location <= rs[j].location
  }

  predicate RecordsIncreasing(rs: seq<ClauseRecord>) {
    forall i, j :: 0 <= i < j < |rs| ==> rs[i].location < rs[j].location
  }

  /** Every kept candidate's location is at least `bound` when every
      candidate's is. */
  lemma {:induction false} KeptAtLeast(cs: seq<Candidate>, keep: string -> bool, bound: int)
    requires forall i :: 0 <= i < |cs| ==> cs[i].location >= bound
    ensures forall j :: 0 <= j < |Kept(cs, keep)| ==> Kept(cs, keep)[j].location >= bound
    decreases |cs|
  {
    if |cs| > 0 {
      KeptCons(cs, keep);
      assert forall i :: 0 <= i < |cs| - 1 ==> cs[1..][i] == cs[i + 1];
      KeptAtLeast(cs[1..], keep, bound);
    }
  }

  /** Filtering keeps a non-decreasing order of locations. */
  lemma {:induction false} KeptKeepsNonDecreasing(cs: seq<Candidate>, keep: string -> bool)
    requires LocationsNonDecreasing(cs)
    ensures LocationsNonDecreasing(Kept(cs, keep))
    decreases |cs|
  {
    if |cs| > 0 {
      var tail := cs[1..];
      assert forall i :: 0 <= i < |tail| ==> tail[i] == cs[i + 1];
      KeptCons(cs, keep);
      KeptKeepsNonDecreasing(tail, keep);
      if keep(cs[0].text) {
        KeptAtLeast(tail, keep, cs[0].location);
        var rest := Kept(tail, keep);
        var ks := Kept(cs, keep);
        forall i, j | 0 <= i < j < |ks|
          ensures ks[i].location <= ks[j].location
        {
          assert ks[j] == rest[j - 1];
          if i > 0 {
            assert ks[i] == rest[i - 1];
          }
        }
      }
    }
  }

  /** Filtering keeps a strictly increasing order of locations. */
  lemma {:induction false} KeptKeepsIncreasing(cs: seq<Candidate>, keep: string -> bool)
    requires LocationsIncreasing(cs)
    ensures LocationsIncreasing(Kept(cs, keep))
    decreases |cs|
  {
    if |cs| > 0 {
      var tail := cs[1..];
      assert forall i :: 0 <= i < |tail| ==> tail[i] == cs[i + 1];
      KeptCons(cs, keep);
      KeptKeepsIncreasing(tail, keep);
      if keep(cs[0].text) {
        KeptAtLeast(tail, keep, cs[0].location + 1);
        var rest := Kept(tail, keep);
        var ks := Kept(cs, keep);
        forall i, j | 0 <= i < j < |ks|
          ensures ks[i].location < ks[j].location
        {
          assert ks[j] == rest[j - 1];
          if i > 0 {
            assert ks[i] == rest[i - 1];
          }
        }
      }
    }
  }

  /** Records come out in candidate order: sorted locations stay sorted. */
  lemma EngineKeepsOrder(cs: seq<Candidate>, env: Env)
    requires Engine(cs, env).outcome.Ok?
    ensures var records := Engine(cs, env).outcome.value.records;
            && (LocationsNonDecreasing(cs) ==> RecordsNonDecreasing(records))
            && (LocationsIncreasing(cs) ==> RecordsIncreasing(records))
  {
    EngineRecords(cs, env);
    if LocationsNonDecreasing(cs) {
      KeptKeepsNonDecreasing(cs, env.keep);
    }
    if LocationsIncreasing(cs) {
      KeptKeepsIncreasing(cs, env.keep);
    }
  }
}
