/**
 * The rubric scorer: every rubric item names an operator and a criterion; `correctness` asks
 * that the normalised criterion occur in the normalised answer, `contradiction` that it not
 * occur, and every other operator fails.
 */
module Rubric {
  import opened Wrappers
  import opened Strings
  import opened Json
  import opened UnitNormalizer

  /** One entry of `details`: the lower-cased operator, the criterion as given, the verdict. */
  datatype Detail = Detail(operator: string, criteria: string, passed: bool)

  /** The dict `evaluate_answer` returns; the score is exact here (see README on floats). */
  datatype Evaluation = Evaluation(passed: bool, score: real, details: seq<Detail>)

  /**
   * `_parse_rubric`: `literalEval` stands for `ast.literal_eval`, `None` for the exception it
   * raises. Only a list is kept.
   */
  function ParseRubric(rubricStr: string, literalEval: string -> Option<Json>): (r: seq<Json>)
    ensures rubricStr == [] ==> r == []
    ensures literalEval(rubricStr).None? ==> r == []
    ensures literalEval(rubricStr).Some? && !literalEval(rubricStr).value.JList? ==> r == []
    ensures rubricStr != [] && literalEval(rubricStr).Some? && literalEval(rubricStr).value.JList?
      ==> r == literalEval(rubricStr).value.items
  {
    if rubricStr == [] then []
    else match literalEval(rubricStr)
      case None => []
      case Some(data) => if data.JList? then data.items else []
  }

  /**
   * `(item.get(key) or "")` used as a string: a falsy value reads as "", a non-empty string is
   * kept, and anything else fails at the following `.lower()` with AttributeError.
   */
  function StrField(item: Json, key: string): Result<string, Raised>
    requires item.JDict?
  {
    var v := Or(GetOrNull(item, key), JStr(""));
    if v.JStr? then Ok(v.s) else Err(NoAttribute(v, "lower"))
  }

  /** The verdict for an already lower-cased operator. */
  function Verdict(operator: string, normCriteria: string, normAnswer: string): bool {
    if operator == "correctness" then Contains(normAnswer, normCriteria)
    else if operator == "contradiction" then !Contains(normAnswer, normCriteria)
    else false
  }

  /** Lines 27 to 43 for one item, against the already normalised answer. */
  function JudgeItem(item: Json, normAnswer: string): Result<Detail, Raised> {
    if !item.JDict? then Err(NoAttribute(item, "get"))
    else match StrField(item, "operator")
      case Err(e) => Err(e)
      case Ok(op) =>
        match StrField(item, "criteria")
        case Err(e) => Err(e)
        case Ok(c) =>
          var operator := Lower(op);
          Ok(Detail(operator, c, Verdict(operator, NormalizeText(Some(c)), normAnswer)))
  }

  /** The judgement of one item against a fixed normalised answer. */
  function Judge(normAnswer: string): Json -> Result<Detail, Raised> {
    item => JudgeItem(item, normAnswer)
  }

  /** `sum(1 for p in passes if p)`. */
  function CountPassed(ds: seq<Detail>): (n: nat)
    ensures n <= |ds|
    decreases |ds|
  {
    if ds == [] then 0
    else CountPassed(ds[..|ds| - 1]) + (if ds[|ds| - 1].passed then 1 else 0)
  }

  /** `all(passes)`. */
  predicate AllPassed(ds: seq<Detail>) {
    forall i :: 0 <= i < |ds| ==> ds[i].passed
  }

  /** The result dict for a non-empty list of details. */
  function Summarize(ds: seq<Detail>): Evaluation
    requires ds != []
  {
    Evaluation(AllPassed(ds), CountPassed(ds) as real / |ds| as real, ds)
  }

  /** What `evaluate_answer(answerText, rubricStr)` returns or raises. */
  function Evaluate(answerText: string, rubricStr: string, literalEval: string -> Option<Json>)
    : Result<Evaluation, Raised>
  {
    var items := ParseRubric(rubricStr, literalEval);
    if items == [] then Ok(Evaluation(false, 0.0, []))
    else match Traverse(items, Judge(NormalizeText(Some(answerText))))
      case Err(e) => Err(e)
      case Ok(ds) => Ok(Summarize(ds))
  }

  /** `evaluate_answer`, with its loop over the rubric items. */
  method EvaluateAnswer(answerText: string, rubricStr: string, literalEval: string -> Option<Json>)
    returns (r: Result<Evaluation, Raised>)
    ensures r == Evaluate(answerText, rubricStr, literalEval)
  {
    var items := ParseRubric(rubricStr, literalEval);
    if items == [] {
      return Ok(Evaluation(false, 0.0, []));
    }
    var normAnswer := NormalizeText(Some(answerText));
    var judge := Judge(normAnswer);
    var details: seq<Detail> := [];
    var i := 0;
    while i < |items|
      invariant 0 <= i <= |items|
      invariant Traverse(items[..i], judge) == Ok(details)
    {
      TraverseStep(items, i, judge, details);
      var judged := judge(items[i]);
      if judged.Err? {
        TraverseErrSticks(items, i + 1, judge);
        return Err(judged.error);
      }
      details := details + [judged.value];
      i := i + 1;
    }
    assert items[..i] == items;
    assert Traverse(items, judge) == Ok(details);
    var passCount := CountPassed(details);
    r := Ok(Evaluation(AllPassed(details), passCount as real / |details| as real, details));
  }

  /** An empty, unparsable or non-list rubric scores exactly `{passed: False, score: 0, details: []}`. */
  lemma EmptyRubric(answerText: string, rubricStr: string, literalEval: string -> Option<Json>)
    requires rubricStr == [] || literalEval(rubricStr).None? || !literalEval(rubricStr).value.JList?
      || literalEval(rubricStr).value.items == []
    ensures Evaluate(answerText, rubricStr, literalEval) == Ok(Evaluation(false, 0.0, []))
  {
  }

  /**
   * One detail per item, in order; the evaluation raises exactly when some item does, and
   * then with the exception of the first such item.
   */
  lemma DetailsFollowItems(answerText: string, rubricStr: string, literalEval: string -> Option<Json>)
    requires ParseRubric(rubricStr, literalEval) != []
    ensures var items := ParseRubric(rubricStr, literalEval);
      var na := NormalizeText(Some(answerText));
      var e := Evaluate(answerText, rubricStr, literalEval);
      && (e.Ok? <==> forall i :: 0 <= i < |items| ==> JudgeItem(items[i], na).Ok?)
      && (e.Ok? ==> (|e.value.details| == |items| &&
           forall i :: 0 <= i < |items| ==> e.value.details[i] == JudgeItem(items[i], na).value))
      && (e.Err? ==> (exists k :: (0 <= k < |items| && JudgeItem(items[k], na).Err?
           && e.error == JudgeItem(items[k], na).error
           && forall i :: 0 <= i < k ==> JudgeItem(items[i], na).Ok?)))
  {
    var items := ParseRubric(rubricStr, literalEval);
    var na := NormalizeText(Some(answerText));
    TraversePerElement(items, Judge(na));
    assert forall i :: 0 <= i < |items| ==> Judge(na)(items[i]) == JudgeItem(items[i], na);
  }

  /** A detail records the lower-cased operator, the un-normalised criterion and its verdict. */
  lemma DetailFields(item: Json, normAnswer: string)
    requires JudgeItem(item, normAnswer).Ok?
    ensures var d := JudgeItem(item, normAnswer).value;
      && d.operator == Lower(StrField(item, "operator").value)
      && d.criteria == StrField(item, "criteria").value
      && d.passed == Verdict(d.operator, NormalizeText(Some(d.criteria)), normAnswer)
  {
  }

  /** `correctness` passes exactly when the normalised criterion occurs in the normalised answer. */
  lemma CorrectnessIff(criteria: string, normAnswer: string)
    ensures Verdict("correctness", NormalizeText(Some(criteria)), normAnswer)
      <==> Contains(normAnswer, NormalizeText(Some(criteria)))
  {
  }

  /** On the same criterion, `contradiction` is always the negation of `correctness`. */
  lemma ContradictionNegatesCorrectness(normCriteria: string, normAnswer: string)
    ensures Verdict("contradiction", normCriteria, normAnswer)
      == !Verdict("correctness", normCriteria, normAnswer)
  {
  }

  /**
   * The operator is matched after lower-casing, so two spellings with the same lower case get
   * the same verdict; any operator other than the two known ones fails.
   */
  lemma OperatorMatching(op1: string, op2: string, normCriteria: string, normAnswer: string)
    ensures Lower(op1) == Lower(op2) ==>
      Verdict(Lower(op1), normCriteria, normAnswer) == Verdict(Lower(op2), normCriteria, normAnswer)
    ensures Lower(op1) != "correctness" && Lower(op1) != "contradiction" ==>
      !Verdict(Lower(op1), normCriteria, normAnswer)
  {
  }

  /** A missing, `None` or empty operator fails whatever the criterion. */
  lemma MissingOperatorFails(item: Json, normAnswer: string)
    requires item.JDict? && !Truthy(GetOrNull(item, "operator"))
    requires JudgeItem(item, normAnswer).Ok?
    ensures !JudgeItem(item, normAnswer).value.passed
  {
    assert StrField(item, "operator") == Ok("");
    assert Lower("") == "";
  }

  /** An empty criterion is in every answer: `correctness` passes and `contradiction` fails. */
  lemma EmptyCriteria(normAnswer: string)
    ensures Verdict("correctness", NormalizeText(Some("")), normAnswer)
    ensures !Verdict("contradiction", NormalizeText(Some("")), normAnswer)
  {
    NormalizeEmpty();
    assert IsPrefix("", normAnswer);
  }

  /** `AllPassed` exactly when every detail counts. */
  lemma {:induction false} AllPassedIffFullCount(ds: seq<Detail>)
    ensures AllPassed(ds) <==> CountPassed(ds) == |ds|
    decreases |ds|
  {
    if ds != [] {
      var init := ds[..|ds| - 1];
      AllPassedIffFullCount(init);
      assert forall i :: 0 <= i < |init| ==> init[i] == ds[i];
    }
  }

  /** The ratio facts the score needs. */
  lemma RatioInUnitInterval(n: nat, m: nat)
    requires 0 < m && n <= m
    ensures 0.0 <= n as real / m as real <= 1.0
    ensures n as real / m as real == 1.0 <==> n == m
  {
  }

  /**
   * For a non-empty rubric the score is the passing count over the item count and lies in
   * [0, 1]; `passed` holds exactly when every item passed, and exactly when the score is 1.
   */
  lemma SummaryFacts(ds: seq<Detail>)
    requires ds != []
    ensures var e := Summarize(ds);
      && e.details == ds
      && 0.0 <= e.score <= 1.0
      && (e.passed <==> AllPassed(ds))
      && (e.passed <==> e.score == 1.0)
  {
    AllPassedIffFullCount(ds);
    RatioInUnitInterval(CountPassed(ds), |ds|);
  }

  /**
   * Whatever the rubric, a returned score lies in [0, 1] and `passed` holds exactly when the
   * rubric is non-empty and every item passed, which is exactly when the score is 1.
   */
  lemma ScoreFacts(answerText: string, rubricStr: string, literalEval: string -> Option<Json>)
    requires Evaluate(answerText, rubricStr, literalEval).Ok?
    ensures var e := Evaluate(answerText, rubricStr, literalEval).value;
      && 0.0 <= e.score <= 1.0
      && (e.passed <==> e.details != [] && AllPassed(e.details))
      && (e.passed <==> e.score == 1.0)
  {
    var items := ParseRubric(rubricStr, literalEval);
    if items != [] {
      var ds := Traverse(items, Judge(NormalizeText(Some(answerText)))).value;
      SummaryFacts(ds);
    }
  }
}
