/** The records shared by the API layer and the user interface: questions,
    surveys, responses, the per-creator stored data and the credential record. */
module SurveyTypes {
  import opened Strings

  datatype Option<+T> = None | Some(value: T) {
    function GetOr(default: T): T {
      match this
      case Some(v) => v
      case None => default
    }
  }

  datatype QuestionType = SingleChoice | MultipleChoice | Likert5 | FreeText | Binary

  /** `options` is absent (None) or an array, possibly empty; an empty array
      is still present for JavaScript's truthiness tests. */
  datatype Question = Question(id: int, text: string, qtype: QuestionType, options: Option<seq<string>>)

  datatype Survey = Survey(title: string, questions: seq<Question>)

  /** An answer is a single string (single choice, likert, text, binary) or an
      array of strings (multiple choice). */
  datatype Answer = Single(s: string) | Multiple(items: seq<string>)

  /** Answers are keyed by `q-<question id>`. */
  type Answers = map<string, Answer>

  datatype Response = Response(id: nat, submittedAt: nat, answers: Answers)

  /** The per-creator record: the survey (null when absent), its responses in
      append order, and whether the survey accepts new responses. */
  datatype StoredData = StoredData(survey: Option<Survey>, responses: seq<Response>, isSurveyOpen: bool)

  /** The credential record; the password is optional in the type and stored
      in plain text. */
  datatype User = User(username: string, password: Option<string>)

  /** The record written for a newly registered creator and on repair. */
  const InitialData: StoredData := StoredData(None, [], true)

  /** The answer key of a question: `q-${id}`. */
  function QuestionKey(id: int): string {
    "q-" + IntToDecimal(id)
  }

  lemma QuestionKeyInjective(a: int, b: int)
    requires QuestionKey(a) == QuestionKey(b)
    ensures a == b
  {
    assert IntToDecimal(a) == QuestionKey(a)[2..] == QuestionKey(b)[2..] == IntToDecimal(b);
    IntToDecimalInjective(a, b);
  }

  /** `answers[key]`, which is `undefined` when the key is missing. */
  function AnswerAt(answers: Answers, key: string): (r: Option<Answer>)
    ensures r.Some? <==> key in answers
  {
    if key in answers then Some(answers[key]) else None
  }

  /** JavaScript truthiness of an answer: a missing answer and the empty
      string are falsy; every array, even an empty one, is truthy. */
  predicate Truthy(a: Option<Answer>) {
    match a
    case None => false
    case Some(Single(s)) => s != ""
    case Some(Multiple(_)) => true
  }

  /** `String(answer)`: an array prints as its elements joined by commas. */
  function AnswerString(a: Answer): string {
    match a
    case Single(s) => s
    case Multiple(items) => Join(items, ",")
  }

  /** The question ids of a survey are pairwise distinct. */
  predicate UniqueIds(qs: seq<Question>) {
    forall i, j :: 0 <= i < j < |qs| ==> qs[i].id != qs[j].id
  }

  /** The answer keys of a survey's questions are pairwise distinct. */
  predicate UniqueKeys(qs: seq<Question>) {
    forall i, j :: 0 <= i < j < |qs| ==> QuestionKey(qs[i].id) != QuestionKey(qs[j].id)
  }

  /** Distinct question ids give distinct answer keys. */
  lemma UniqueIdsGiveUniqueKeys(qs: seq<Question>)
    requires UniqueIds(qs)
    ensures UniqueKeys(qs)
  {
    forall i, j | 0 <= i < j < |qs| ensures QuestionKey(qs[i].id) != QuestionKey(qs[j].id) {
      if QuestionKey(qs[i].id) == QuestionKey(qs[j].id) {
        QuestionKeyInjective(qs[i].id, qs[j].id);
      }
    }
  }
}
