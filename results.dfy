/** The results view's analysis: per question, a count for every option, the
    number of responses that answered it, and the list of free-text answers. */
module Results {
  import opened Strings
  import opened SurveyTypes

  datatype QuestionStats = QuestionStats(counts: map<string, int>, total: int, textResponses: seq<Answer>)

  /** The analysis, keyed by each question's answer key. */
  type Analysis = map<string, QuestionStats>

  /** The options a question iterates over; none when `options` is absent. */
  function OptionsOf(q: Question): seq<string> {
    q.options.GetOr([])
  }

  /** The answer keys of a list of questions. */
  function Keys(qs: seq<Question>): set<string> {
    if qs == [] then {} else Keys(qs[..|qs| - 1]) + {QuestionKey(qs[|qs| - 1].id)}
  }

  /** The counts a question starts with: 0 for every option. */
  function ZeroCounts(opts: seq<string>): (counts: map<string, int>)
    ensures forall o :: o in counts <==> o in opts
    ensures forall o | o in counts :: counts[o] == 0
  {
    if opts == [] then map[]
    else
      assert forall o :: o in opts <==> o in opts[..|opts| - 1] || o == opts[|opts| - 1];
      ZeroCounts(opts[..|opts| - 1])[opts[|opts| - 1] := 0]
  }

  function EmptyStats(q: Question): QuestionStats {
    QuestionStats(ZeroCounts(OptionsOf(q)), 0, [])
  }

  /** The first phase: an entry per question, in question order, so that a
      later question with the same key replaces an earlier one. */
  function Initial(qs: seq<Question>): (r: Analysis)
    ensures r.Keys == Keys(qs)
  {
    if qs == [] then map[]
    else
      Initial(qs[..|qs| - 1])[QuestionKey(qs[|qs| - 1].id) := EmptyStats(qs[|qs| - 1])]
  }

  /** `String(answer).trim()` is not empty. */
  predicate HasText(a: Answer) {
    Trim(AnswerString(a)) != ""
  }

  /** One response's answer applied to one question's entry: a truthy answer
      raises the total; for a free-text question a non-blank answer is listed,
      otherwise a string answer raises its own count, starting from 0 when the
      string is not an option. */
  function Count(st: QuestionStats, q: Question, answer: Option<Answer>): QuestionStats {
    if !Truthy(answer) then st
    else
      var st' := st.(total := st.total + 1);
      if q.qtype == FreeText then
        if HasText(answer.value) then st'.(textResponses := st'.textResponses + [answer.value]) else st'
      else if answer.value.Single? then
        var a := answer.value.s;
        st'.(counts := st'.counts[a := (if a in st'.counts then st'.counts[a] else 0) + 1])
      else st'
  }

  /** One response applied to every question, in question order. */
  function TallyResponse(results: Analysis, res: Response, qs: seq<Question>): (r: Analysis)
    requires Keys(qs) <= results.Keys
    ensures r.Keys == results.Keys
    ensures forall k | k in results && k !in Keys(qs) :: r[k] == results[k]
  {
    if qs == [] then results
    else
      var r := TallyResponse(results, res, qs[..|qs| - 1]);
      var k := QuestionKey(qs[|qs| - 1].id);
      r[k := Count(r[k], qs[|qs| - 1], AnswerAt(res.answers, k))]
  }

  /** The analysis of a list of responses, applied in response order. */
  function Tally(qs: seq<Question>, rs: seq<Response>): (r: Analysis)
    ensures r.Keys == Keys(qs)
  {
    if rs == [] then Initial(qs)
    else TallyResponse(Tally(qs, rs[..|rs| - 1]), rs[|rs| - 1], qs)
  }

  lemma {:induction false} KeysOfSlice(qs: seq<Question>, j: nat)
    requires j <= |qs|
    ensures Keys(qs[..j]) <= Keys(qs)
    ensures j < |qs| ==> QuestionKey(qs[j].id) in Keys(qs)
    decreases |qs|
  {
    if j < |qs| {
      var p := qs[..|qs| - 1];
      if j < |qs| - 1 {
        assert p[..j] == qs[..j];
        assert p[j] == qs[j];
        KeysOfSlice(p, j);
      } else {
        assert p == qs[..j];
      }
    } else {
      assert qs[..j] == qs;
    }
  }

  lemma InitialStep(qs: seq<Question>, i: nat)
    requires i < |qs|
    ensures Initial(qs[..i + 1]) == Initial(qs[..i])[QuestionKey(qs[i].id) := EmptyStats(qs[i])]
  {
    assert qs[..i + 1][..i] == qs[..i];
  }

  lemma TallyResponseStep(before: Analysis, res: Response, qs: seq<Question>, j: nat)
    requires Keys(qs) <= before.Keys && j < |qs|
    ensures Keys(qs[..j]) <= before.Keys && Keys(qs[..j + 1]) <= before.Keys
    ensures QuestionKey(qs[j].id) in before
    ensures var r := TallyResponse(before, res, qs[..j]);
      var k := QuestionKey(qs[j].id);
      TallyResponse(before, res, qs[..j + 1]) == r[k := Count(r[k], qs[j], AnswerAt(res.answers, k))]
  {
    KeysOfSlice(qs, j);
    KeysOfSlice(qs, j + 1);
    var q1 := qs[..j + 1];
    assert q1[..|q1| - 1] == qs[..j];
    assert q1[|q1| - 1] == qs[j];
    TallyResponseUnfold(before, res, q1);
  }

  /** The `analysis` memo of `ResultsVisualizer`: the nested loops that build
      the results dictionary in place. */
  method Analyze(survey: Survey, responses: seq<Response>) returns (results: Analysis)
    ensures results == Tally(survey.questions, responses)
  {
    var qs := survey.questions;
    results := InitialPhase(qs);
    var n := 0;
    while n < |responses|
      invariant 0 <= n <= |responses|
      invariant results == Tally(qs, responses[..n])
    {
      TallyStep(qs, responses, n);
      results := TallyPhase(results, responses[n], qs);
      n := n + 1;
    }
    assert responses[..n] == responses;
  }

  /** One more response is applied to the analysis of the earlier ones. */
  lemma TallyStep(qs: seq<Question>, rs: seq<Response>, n: nat)
    requires n < |rs|
    ensures Tally(qs, rs[..n + 1]) == TallyResponse(Tally(qs, rs[..n]), rs[n], qs)
  {
    assert rs[..n + 1][..n] == rs[..n];
  }

  /** The first `forEach`: a fresh entry per question. */
  method InitialPhase(qs: seq<Question>) returns (results: Analysis)
    ensures results == Initial(qs)
  {
    results := map[];
    var i := 0;
    while i < |qs|
      invariant 0 <= i <= |qs|
      invariant results == Initial(qs[..i])
    {
      InitialStep(qs, i);
      results := StartEntry(results, QuestionKey(qs[i].id), qs[i].options);
      i := i + 1;
    }
    assert qs[..i] == qs;
  }

  /** One question's entry: empty, then a 0 for each option in turn. */
  method StartEntry(before: Analysis, key: string, options: Option<seq<string>>) returns (results: Analysis)
    ensures results == before[key := QuestionStats(ZeroCounts(options.GetOr([])), 0, [])]
  {
    results := before[key := QuestionStats(map[], 0, [])];
    if options.Some? {
      var opts := options.value;
      var j := 0;
      while j < |opts|
        invariant 0 <= j <= |opts|
        invariant results == before[key := QuestionStats(ZeroCounts(opts[..j]), 0, [])]
      {
        assert opts[..j + 1][..j] == opts[..j];
        results := results[key := results[key].(counts := results[key].counts[opts[j] := 0])];
        j := j + 1;
      }
      assert opts[..j] == opts;
    }
  }

  /** The inner `forEach` of the second phase: one response, every question. */
  method TallyPhase(before: Analysis, res: Response, qs: seq<Question>) returns (results: Analysis)
    requires Keys(qs) <= before.Keys
    ensures results == TallyResponse(before, res, qs)
  {
    results := before;
    var j := 0;
    while j < |qs|
      invariant 0 <= j <= |qs|
      invariant Keys(qs[..j]) <= before.Keys
      invariant results == TallyResponse(before, res, qs[..j])
    {
      TallyResponseStep(before, res, qs, j);
      results := ApplyAnswer(results, qs[j], res);
      j := j + 1;
    }
    assert qs[..j] == qs;
  }

  /** The body of the inner `forEach` for one question. */
  method ApplyAnswer(before: Analysis, q: Question, res: Response) returns (results: Analysis)
    requires QuestionKey(q.id) in before
    ensures var key := QuestionKey(q.id);
      results == before[key := Count(before[key], q, AnswerAt(res.answers, key))]
  {
    var key := QuestionKey(q.id);
    var answer := AnswerAt(res.answers, key);
    if Truthy(answer) {
      var st := CountAnswer(before[key], q, answer.value);
      results := before[key := st];
    } else {
      results := before;
      assert before[key := Count(before[key], q, answer)] == before;
    }
  }

  /** The body of the inner `forEach` for a truthy answer. */
  method CountAnswer(before: QuestionStats, q: Question, answer: Answer) returns (st: QuestionStats)
    requires Truthy(Some(answer))
    ensures st == Count(before, q, Some(answer))
  {
    st := before.(total := before.total + 1);
    if q.qtype == FreeText {
      if Trim(AnswerString(answer)) != "" {
        st := st.(textResponses := st.textResponses + [answer]);
      }
    } else if answer.Single? {
      var a := answer.s;
      st := st.(counts := st.counts[a := (if a in st.counts then st.counts[a] else 0) + 1]);
    }
  }

  // ---------------------------------------------------------------------------
  // What the analysis means, for a survey whose answer keys are distinct

  /** The number of responses whose answer for `key` is truthy. */
  function TruthyCount(rs: seq<Response>, key: string): (n: nat)
    ensures n <= |rs|
  {
    if rs == [] then 0
    else TruthyCount(rs[..|rs| - 1], key) + (if Truthy(AnswerAt(rs[|rs| - 1].answers, key)) then 1 else 0)
  }

  /** The number of responses whose answer for `key` is the non-empty string `a`. */
  function SingleCount(rs: seq<Response>, key: string, a: string): nat {
    if rs == [] then 0
    else SingleCount(rs[..|rs| - 1], key, a)
         + (if a != "" && AnswerAt(rs[|rs| - 1].answers, key) == Some(Single(a)) then 1 else 0)
  }

  /** The number of responses whose answer for `key` is a non-empty string. */
  function StringCount(rs: seq<Response>, key: string): nat {
    if rs == [] then 0
    else StringCount(rs[..|rs| - 1], key)
         + (match AnswerAt(rs[|rs| - 1].answers, key) case Some(Single(a)) => if a != "" then 1 else 0 case _ => 0)
  }

  /** The number of responses whose answer for `key` is an array. */
  function ArrayCount(rs: seq<Response>, key: string): nat {
    if rs == [] then 0
    else ArrayCount(rs[..|rs| - 1], key)
         + (match AnswerAt(rs[|rs| - 1].answers, key) case Some(Multiple(_)) => 1 case _ => 0)
  }

  /** The answers for `key` that are not blank, in response order. */
  function TextAnswers(rs: seq<Response>, key: string): seq<Answer> {
    if rs == [] then []
    else
      var a := AnswerAt(rs[|rs| - 1].answers, key);
      TextAnswers(rs[..|rs| - 1], key) + (if Truthy(a) && HasText(a.value) then [a.value] else [])
  }

  lemma {:induction false} NotInKeys(qs: seq<Question>, k: string)
    requires forall i :: 0 <= i < |qs| ==> QuestionKey(qs[i].id) != k
    ensures k !in Keys(qs)
  {
    if qs != [] {
      var p := qs[..|qs| - 1];
      assert forall i :: 0 <= i < |p| ==> p[i] == qs[i];
      NotInKeys(p, k);
    }
  }

  lemma UniqueKeysOfPrefix(qs: seq<Question>)
    requires UniqueKeys(qs) && qs != []
    ensures UniqueKeys(qs[..|qs| - 1])
  {
    var p := qs[..|qs| - 1];
    forall i, j | 0 <= i < j < |p| ensures QuestionKey(p[i].id) != QuestionKey(p[j].id) {
      assert p[i] == qs[i] && p[j] == qs[j];
    }
  }

  lemma DistinctKeys(qs: seq<Question>, i: nat, j: nat)
    requires UniqueKeys(qs) && i < |qs| && j < |qs| && i != j
    ensures QuestionKey(qs[i].id) != QuestionKey(qs[j].id)
  {
  }

  /** The last question's entry after the first phase. */
  lemma InitialAtLast(qs: seq<Question>)
    requires qs != []
    ensures QuestionKey(qs[|qs| - 1].id) in Initial(qs)
    ensures Initial(qs)[QuestionKey(qs[|qs| - 1].id)] == EmptyStats(qs[|qs| - 1])
  {
    KeysOfSlice(qs, |qs| - 1);
  }

  /** An earlier question's entry survives the last question's entry when the
      two keys differ. */
  lemma InitialAtEarlier(qs: seq<Question>, j: nat)
    requires j < |qs| - 1
    requires QuestionKey(qs[j].id) != QuestionKey(qs[|qs| - 1].id)
    requires QuestionKey(qs[j].id) in Initial(qs[..|qs| - 1])
    ensures QuestionKey(qs[j].id) in Initial(qs)
    ensures Initial(qs)[QuestionKey(qs[j].id)] == Initial(qs[..|qs| - 1])[QuestionKey(qs[j].id)]
  {
    KeysOfSlice(qs, j);
  }

  /** After the first phase, every question's entry starts empty, with a 0
      for each of its options. */
  lemma {:induction false} InitialAt(qs: seq<Question>, j: nat)
    requires UniqueKeys(qs) && j < |qs|
    ensures QuestionKey(qs[j].id) in Initial(qs)
    ensures Initial(qs)[QuestionKey(qs[j].id)] == EmptyStats(qs[j])
  {
    if j == |qs| - 1 {
      InitialAtLast(qs);
    } else {
      var p := qs[..|qs| - 1];
      assert p[j] == qs[j];
      UniqueKeysOfPrefix(qs);
      DistinctKeys(qs, j, |qs| - 1);
      InitialAt(p, j);
      InitialAtEarlier(qs, j);
    }
  }

  /** The last question's update is the outermost one. */
  lemma TallyResponseUnfold(results: Analysis, res: Response, qs: seq<Question>)
    requires Keys(qs) <= results.Keys && qs != []
    ensures Keys(qs[..|qs| - 1]) <= results.Keys
    ensures var r := TallyResponse(results, res, qs[..|qs| - 1]);
      var k := QuestionKey(qs[|qs| - 1].id);
      k in r && TallyResponse(results, res, qs) == r[k := Count(r[k], qs[|qs| - 1], AnswerAt(res.answers, k))]
  {
  }

  /** The last question's entry, when no earlier question shares its key. */
  lemma TallyResponseAtLast(results: Analysis, res: Response, qs: seq<Question>)
    requires UniqueKeys(qs) && Keys(qs) <= results.Keys && qs != []
    ensures var k := QuestionKey(qs[|qs| - 1].id);
      k in results && TallyResponse(results, res, qs)[k] == Count(results[k], qs[|qs| - 1], AnswerAt(res.answers, k))
  {
    var n := |qs|;
    var p := qs[..n - 1];
    var k := QuestionKey(qs[n - 1].id);
    TallyResponseUnfold(results, res, qs);
    assert forall i :: 0 <= i < |p| ==> QuestionKey(p[i].id) != k by {
      forall i | 0 <= i < |p| ensures QuestionKey(p[i].id) != k {
        assert p[i] == qs[i];
        DistinctKeys(qs, i, n - 1);
      }
    }
    NotInKeys(p, k);
  }

  /** An earlier question's entry is untouched by the last question's update
      when the two keys differ. */
  lemma TallyResponseAtEarlier(results: Analysis, res: Response, qs: seq<Question>, j: nat)
    requires Keys(qs) <= results.Keys && j < |qs| - 1
    requires QuestionKey(qs[j].id) != QuestionKey(qs[|qs| - 1].id)
    ensures QuestionKey(qs[j].id) in results
    ensures TallyResponse(results, res, qs)[QuestionKey(qs[j].id)]
      == TallyResponse(results, res, qs[..|qs| - 1])[QuestionKey(qs[j].id)]
  {
    KeysOfSlice(qs, j);
    TallyResponseUnfold(results, res, qs);
  }

  /** One response updates each question's entry exactly once, by that
      question. */
  lemma {:induction false} TallyResponseAt(results: Analysis, res: Response, qs: seq<Question>, j: nat)
    requires UniqueKeys(qs) && Keys(qs) <= results.Keys && j < |qs|
    ensures QuestionKey(qs[j].id) in results
    ensures var k := QuestionKey(qs[j].id);
      TallyResponse(results, res, qs)[k] == Count(results[k], qs[j], AnswerAt(res.answers, k))
  {
    if j == |qs| - 1 {
      TallyResponseAtLast(results, res, qs);
    } else {
      var p := qs[..|qs| - 1];
      assert p[j] == qs[j];
      UniqueKeysOfPrefix(qs);
      DistinctKeys(qs, j, |qs| - 1);
      TallyResponseAtEarlier(results, res, qs, j);
      KeysOfSlice(qs, |qs| - 1);
      TallyResponseAt(results, res, p, j);
    }
  }

  /** The entry `st` of question `q`, under answer key `k`, agrees with the
      reference counts over `rs`: the total is the number of truthy answers;
      a free-text question lists exactly the non-blank answers in response
      order and keeps its zero counts; any other question lists nothing and
      has a count for exactly its options and the strings answered, each
      equal to the number of responses that gave that string. */
  ghost predicate Describes(st: QuestionStats, q: Question, rs: seq<Response>, k: string) {
    && st.total == TruthyCount(rs, k)
    && (q.qtype == FreeText ==>
          st.textResponses == TextAnswers(rs, k) && st.counts == ZeroCounts(OptionsOf(q)))
    && (q.qtype != FreeText ==>
          && st.textResponses == []
          && (forall a :: a in st.counts <==> a in OptionsOf(q) || SingleCount(rs, k, a) > 0)
          && (forall a | a in st.counts :: st.counts[a] == SingleCount(rs, k, a)))
  }

  /** One more response adds its own match to a string's count. */
  lemma SingleCountStep(rs: seq<Response>, k: string, a: string)
    requires rs != []
    ensures SingleCount(rs, k, a) == SingleCount(rs[..|rs| - 1], k, a)
      + (if a != "" && AnswerAt(rs[|rs| - 1].answers, k) == Some(Single(a)) then 1 else 0)
  {
  }

  /** One more response adds its own answer to the truthy count and, when
      it is not blank, to the text answers. */
  lemma TextStep(rs: seq<Response>, k: string)
    requires rs != []
    ensures var a := AnswerAt(rs[|rs| - 1].answers, k);
      && TruthyCount(rs, k) == TruthyCount(rs[..|rs| - 1], k) + (if Truthy(a) then 1 else 0)
      && TextAnswers(rs, k) == TextAnswers(rs[..|rs| - 1], k) + (if Truthy(a) && HasText(a.value) then [a.value] else [])
  {
  }

  /** Counting one more response's answer for a free-text question. */
  lemma CountStepText(st: QuestionStats, q: Question, rs: seq<Response>, k: string)
    requires rs != [] && q.qtype == FreeText && Describes(st, q, rs[..|rs| - 1], k)
    ensures Describes(Count(st, q, AnswerAt(rs[|rs| - 1].answers, k)), q, rs, k)
  {
    var p := rs[..|rs| - 1];
    var answer := AnswerAt(rs[|rs| - 1].answers, k);
    var st' := Count(st, q, answer);
    TextStep(rs, k);
    assert st.total == TruthyCount(p, k) && st.textResponses == TextAnswers(p, k);
    if !Truthy(answer) {
      assert st' == st;
    } else if HasText(answer.value) {
      assert st' == st.(total := st.total + 1, textResponses := st.textResponses + [answer.value]);
    } else {
      assert st' == st.(total := st.total + 1);
    }
  }

  /** Counting one more response's answer for any other question. */
  lemma CountStepChoice(st: QuestionStats, q: Question, rs: seq<Response>, k: string)
    requires rs != [] && q.qtype != FreeText && Describes(st, q, rs[..|rs| - 1], k)
    ensures Describes(Count(st, q, AnswerAt(rs[|rs| - 1].answers, k)), q, rs, k)
  {
    var p := rs[..|rs| - 1];
    var answer := AnswerAt(rs[|rs| - 1].answers, k);
    var st' := Count(st, q, answer);
    assert st'.total == TruthyCount(rs, k);
    forall a ensures a in st'.counts <==> a in OptionsOf(q) || SingleCount(rs, k, a) > 0 {
      SingleCountStep(rs, k, a);
    }
    forall a | a in st'.counts ensures st'.counts[a] == SingleCount(rs, k, a) {
      SingleCountStep(rs, k, a);
    }
  }

  /** Counting one more response's answer keeps the entry in agreement with
      the reference counts. */
  lemma CountStep(st: QuestionStats, q: Question, rs: seq<Response>, k: string)
    requires rs != [] && Describes(st, q, rs[..|rs| - 1], k)
    ensures Describes(Count(st, q, AnswerAt(rs[|rs| - 1].answers, k)), q, rs, k)
  {
    if q.qtype == FreeText {
      CountStepText(st, q, rs, k);
    } else {
      CountStepChoice(st, q, rs, k);
    }
  }

  /** A fresh entry agrees with the reference counts of no responses. */
  lemma DescribesEmpty(q: Question, k: string)
    ensures Describes(EmptyStats(q), q, [], k)
  {
  }

  /** The analysis of one question, read through the reference counts. */
  lemma {:induction false} TallyAt(qs: seq<Question>, rs: seq<Response>, j: nat)
    requires UniqueKeys(qs) && j < |qs|
    ensures QuestionKey(qs[j].id) in Tally(qs, rs)
    ensures Describes(Tally(qs, rs)[QuestionKey(qs[j].id)], qs[j], rs, QuestionKey(qs[j].id))
  {
    var k := QuestionKey(qs[j].id);
    KeysOfSlice(qs, j);
    if rs == [] {
      InitialAt(qs, j);
      DescribesEmpty(qs[j], k);
    } else {
      var p := rs[..|rs| - 1];
      var before := Tally(qs, p);
      assert Tally(qs, rs) == TallyResponse(before, rs[|rs| - 1], qs);
      TallyAt(qs, p, j);
      TallyResponseAt(before, rs[|rs| - 1], qs, j);
      CountStep(before[k], qs[j], rs, k);
    }
  }

  /** Every truthy answer is a non-empty string or an array: the strings are
      what the counts record, so the arrays are the part of the total that no
      count records. */
  lemma {:induction false} TotalSplits(rs: seq<Response>, key: string)
    ensures TruthyCount(rs, key) == StringCount(rs, key) + ArrayCount(rs, key)
  {
    if rs != [] {
      TotalSplits(rs[..|rs| - 1], key);
    }
  }

  /** No single string is counted more often than the question was answered. */
  lemma {:induction false} SingleCountBounded(rs: seq<Response>, key: string, a: string)
    ensures SingleCount(rs, key, a) <= StringCount(rs, key) <= TruthyCount(rs, key)
  {
    if rs != [] {
      SingleCountBounded(rs[..|rs| - 1], key, a);
    }
  }

  /** The method's result read through the reference counts. */
  lemma AnalyzeMeaning(survey: Survey, responses: seq<Response>, results: Analysis, j: nat)
    requires results == Tally(survey.questions, responses)
    requires UniqueIds(survey.questions) && j < |survey.questions|
    ensures var q := survey.questions[j];
      var k := QuestionKey(q.id);
      && k in results
      && Describes(results[k], q, responses, k)
      && (forall a | a in results[k].counts :: results[k].counts[a] <= results[k].total)
  {
    var q := survey.questions[j];
    var k := QuestionKey(q.id);
    UniqueIdsGiveUniqueKeys(survey.questions);
    KeysOfSlice(survey.questions, j);
    TallyAt(survey.questions, responses, j);
    forall a | a in results[k].counts ensures results[k].counts[a] <= results[k].total {
      SingleCountBounded(responses, k, a);
    }
  }
}
