/** The respondent's form: picking an answer, the check made before a
    response is sent, and the count of answered questions shown as progress. */
module Respondent {
  import opened Strings
  import opened SurveyTypes

  /** `handleSelectOption`: the answer under `q-<id>` is replaced and every
      other answer is kept. */
  function SelectOption(current: Answers, questionId: int, selected: Answer): (r: Answers)
    ensures r.Keys == current.Keys + {QuestionKey(questionId)}
    ensures r[QuestionKey(questionId)] == selected
    ensures forall k | k in current && k != QuestionKey(questionId) :: r[k] == current[k]
  {
    current[QuestionKey(questionId) := selected]
  }

  /** The submit check's test for one question: the answer is present and is
      a non-empty string or a non-empty array. */
  predicate Answered(current: Answers, q: Question) {
    var a := AnswerAt(current, QuestionKey(q.id));
    Truthy(a) && !(a.value.Multiple? && a.value.items == [])
  }

  /** The submit check's filter test: the question is not answered. */
  function Missing(current: Answers): Question -> bool {
    q => !Answered(current, q)
  }

  /** The questions the submit check finds unanswered, in question order. */
  function Unanswered(qs: seq<Question>, current: Answers): (r: seq<Question>)
    ensures |r| <= |qs|
    ensures forall q | q in r :: q in qs && !Answered(current, q)
    ensures forall q | q in qs && !Answered(current, q) :: q in r
  {
    Filter(qs, Missing(current))
  }

  datatype SubmitOutcome = Submitted(answers: Answers) | Alerted(message: string)

  const UnansweredPrefix: string := "يرجى الإجابة على جميع الأسئلة قبل الإرسال. أول سؤال متبقي: \""

  /** `handleSubmit`: the whole answer map is sent when no question is
      unanswered; otherwise an alert names the first unanswered question. */
  function HandleSubmit(qs: seq<Question>, current: Answers): (r: SubmitOutcome)
    ensures r.Submitted? <==> Unanswered(qs, current) == []
    ensures r.Submitted? ==> r.answers == current
    ensures r.Alerted? ==> r.message == UnansweredPrefix + Unanswered(qs, current)[0].text + "\""
  {
    var missing := Unanswered(qs, current);
    if |missing| > 0 then Alerted(UnansweredPrefix + missing[0].text + "\"")
    else Submitted(current)
  }

  /** The first unanswered question is the earliest one in question order. */
  lemma UnansweredFirst(qs: seq<Question>, current: Answers) returns (i: nat)
    requires Unanswered(qs, current) != []
    ensures i < |qs| && qs[i] == Unanswered(qs, current)[0] && !Answered(current, qs[i])
    ensures forall j :: 0 <= j < i ==> Answered(current, qs[j])
  {
    i := FilterFirst(qs, Missing(current));
    forall j | 0 <= j < i ensures Answered(current, qs[j]) {
      assert !Missing(current)(qs[j]);
    }
  }

  /** The answers are sent exactly when every question is answered, and then
      they are sent unchanged. */
  lemma SubmitIffAllAnswered(qs: seq<Question>, current: Answers)
    ensures HandleSubmit(qs, current).Submitted? <==> forall i :: 0 <= i < |qs| ==> Answered(current, qs[i])
    ensures HandleSubmit(qs, current).Submitted? ==> HandleSubmit(qs, current).answers == current
  {
    var missing := Unanswered(qs, current);
    if missing != [] {
      assert missing[0] in missing;
    } else {
      forall i | 0 <= i < |qs| ensures Answered(current, qs[i]) {
        assert qs[i] in qs;
      }
    }
  }

  /** When the check fails, the alert quotes the text of the earliest
      unanswered question. */
  lemma AlertNamesFirstUnanswered(qs: seq<Question>, current: Answers)
    requires HandleSubmit(qs, current).Alerted?
    ensures exists i :: (0 <= i < |qs| && !Answered(current, qs[i])
      && (forall j :: 0 <= j < i ==> Answered(current, qs[j]))
      && HandleSubmit(qs, current).message == UnansweredPrefix + qs[i].text + "\"")
  {
    var i := UnansweredFirst(qs, current);
  }

  /** The `answeredCount` test for one value: a non-empty array, or a string
      that is not blank. */
  predicate CountsAsAnswered(a: Answer) {
    match a
    case Multiple(items) => |items| > 0
    case Single(s) => s != "" && Trim(s) != ""
  }

  /** The keys that `answeredCount` counts. */
  function AnsweredKeys(current: Answers): (r: set<string>)
    ensures r <= current.Keys
    ensures forall k :: k in r <==> k in current && CountsAsAnswered(current[k])
  {
    set k | k in current && CountsAsAnswered(current[k])
  }

  /** `answeredCount` */
  function AnsweredCount(current: Answers): nat {
    |AnsweredKeys(current)|
  }

  lemma {:induction false} SubsetCard(a: set<string>, b: set<string>)
    requires a <= b
    ensures |a| <= |b|
  {
    if a != {} {
      var x :| x in a;
      SubsetCard(a - {x}, b - {x});
    }
  }

  lemma CardWithout(s: set<string>, k: string)
    ensures |s| == |s - {k}| + (if k in s then 1 else 0)
  {
    if k in s {
      assert s == (s - {k}) + {k};
    } else {
      assert s == s - {k};
    }
  }

  /** The count never exceeds the number of keys in the answer map. */
  lemma AnsweredCountBounded(current: Answers)
    ensures AnsweredCount(current) <= |current|
  {
    SubsetCard(AnsweredKeys(current), current.Keys);
  }

  /** Selecting an answer changes the count only through the selected
      question's key: it loses that key's old contribution and gains the new
      one. */
  lemma SelectOptionCount(current: Answers, questionId: int, selected: Answer)
    ensures var k := QuestionKey(questionId);
      var before := if k in current && CountsAsAnswered(current[k]) then 1 else 0;
      AnsweredCount(SelectOption(current, questionId, selected))
        == AnsweredCount(current) - before + (if CountsAsAnswered(selected) then 1 else 0)
  {
    var k := QuestionKey(questionId);
    var after := SelectOption(current, questionId, selected);
    var a, b := AnsweredKeys(current), AnsweredKeys(after);
    var rest := a - {k};
    assert b - {k} == rest by {
      forall x ensures x in b - {k} <==> x in rest {
        if x != k && x in current { assert after[x] == current[x]; }
      }
    }
    assert k in b <==> CountsAsAnswered(selected);
    CardWithout(a, k);
    CardWithout(b, k);
  }

  /** A blank string passes the submit check but is not counted as answered:
      the two tests disagree on whitespace-only answers. */
  lemma BlankNotCounted()
    ensures !CountsAsAnswered(Single(" "))
  {
    assert IsWhitespace(' ');
    TrimEmptyIffBlank(" ");
  }

  lemma OneKeyCount(k: string, a: Answer)
    ensures AnsweredCount(map[k := a]) == if CountsAsAnswered(a) then 1 else 0
  {
    var current := map[k := a];
    if CountsAsAnswered(a) {
      assert AnsweredKeys(current) == {k};
    } else {
      assert AnsweredKeys(current) == {};
    }
  }

  lemma BlankAnswerPassesSubmitUncounted(q: Question)
    ensures var current := map[QuestionKey(q.id) := Single(" ")];
      && Answered(current, q)
      && !CountsAsAnswered(current[QuestionKey(q.id)])
      && HandleSubmit([q], current) == Submitted(current)
      && AnsweredCount(current) == 0
  {
    var k := QuestionKey(q.id);
    var current := map[k := Single(" ")];
    BlankNotCounted();
    OneKeyCount(k, Single(" "));
    assert Answered(current, q);
    SubmitIffAllAnswered([q], current);
  }
}
