/**
 * The questionnaire stepper: one question at a time from a fixed list
 * chosen by the visitor's role, answers collected in a map keyed by
 * question id, forward on an answer, back on the back button. The
 * callbacks onComplete and onBack become the returned Signal.
 */
module QuestionnaireFlow {
  import opened Roles
  import JsString

  /** How a question is answered: by picking an option or by typing text. */
  datatype AnswerKind = Choice | Text

  /** A question, reduced to what the stepper uses: its id and how it is answered. */
  datatype Question = Question(id: string, kind: AnswerKind)

  const FriendQuestions: seq<Question> := [
    Question("gender", Choice),
    Question("first_meet", Text),
    Question("best_friend", Choice),
    Question("wishes", Text),
    Question("ready", Choice)
  ]

  const FamilyQuestions: seq<Question> := [
    Question("who", Text),
    Question("preparation", Text),
    Question("ready", Choice)
  ]

  /** What a handler reports to the page: nothing, onComplete(responses), or onBack(). */
  datatype Signal = Stay | Complete(responses: map<string, string>) | Back

  /** The ids of a list of questions. */
  function IdsOf(qs: seq<Question>): set<string>
  {
    set q | q in qs :: q.id
  }

  /** No two questions in the list share an id. */
  predicate DistinctIds(qs: seq<Question>)
  {
    forall i, j :: 0 <= i < j < |qs| ==> qs[i].id != qs[j].id
  }

  /** The list shown to a visitor: five questions for a friend, three for family. */
  function QuestionsFor(userType: Role): (qs: seq<Question>)
    ensures |qs| == if userType == Friend then 5 else 3
    ensures DistinctIds(qs)
    ensures qs[|qs| - 1] == Question("ready", Choice)
  {
    if userType == Friend then FriendQuestions else FamilyQuestions
  }

  /** Adding the question at index i to the answered prefix adds its id. */
  lemma PrefixIds(qs: seq<Question>, i: int)
    requires 0 <= i < |qs|
    ensures IdsOf(qs[..i + 1]) == IdsOf(qs[..i]) + {qs[i].id}
    ensures IdsOf(qs[..i]) <= IdsOf(qs)
  {
  }

  class Questionnaire {
    const questions: seq<Question>
    var currentIndex: int
    var responses: map<string, string>
    var textInput: string

    /**
     * The index stays on a question; every question before it has been
     * answered, and only question ids are ever keys.
     */
    ghost predicate Valid()
      reads this
    {
      && 0 <= currentIndex < |questions|
      && IdsOf(questions[..currentIndex]) <= responses.Keys <= IdsOf(questions)
    }

    constructor(userType: Role)
      ensures Valid()
      ensures questions == QuestionsFor(userType)
      ensures currentIndex == 0 && responses == map[] && textInput == ""
    {
      questions := QuestionsFor(userType);
      currentIndex := 0;
      responses := map[];
      textInput := "";
    }

    /** The text area's onChange. */
    method SetTextInput(value: string)
      requires Valid()
      modifies this
      ensures Valid()
      ensures textInput == value
      ensures currentIndex == old(currentIndex) && responses == old(responses)
    {
      textInput := value;
    }

    /** Records answer for the current question, then advances or completes. */
    method Answer(answer: string) returns (signal: Signal)
      requires Valid()
      modifies this`responses, this`currentIndex
      ensures Valid()
      ensures responses == old(responses)[questions[old(currentIndex)].id := answer]
      ensures old(currentIndex) < |questions| - 1 ==>
        currentIndex == old(currentIndex) + 1 && signal == Stay
      ensures old(currentIndex) == |questions| - 1 ==>
        currentIndex == old(currentIndex) && signal == Complete(responses)
      ensures signal.Complete? ==> signal.responses.Keys == IdsOf(questions)
    {
      var id := questions[currentIndex].id;
      PrefixIds(questions, currentIndex);
      assert questions[currentIndex] in questions;
      var newResponses := responses[id := answer];
      responses := newResponses;
      if currentIndex < |questions| - 1 {
        currentIndex := currentIndex + 1;
        signal := Stay;
      } else {
        assert questions[..currentIndex + 1] == questions;
        signal := Complete(newResponses);
      }
    }

    /** A click on one of the current question's options. */
    method HandleChoice(option: string) returns (signal: Signal)
      requires Valid()
      modifies this
      ensures Valid()
      ensures responses == old(responses)[questions[old(currentIndex)].id := option]
      ensures textInput == old(textInput)
      ensures old(currentIndex) < |questions| - 1 ==>
        currentIndex == old(currentIndex) + 1 && signal == Stay
      ensures old(currentIndex) == |questions| - 1 ==>
        currentIndex == old(currentIndex) && signal == Complete(responses)
      ensures signal.Complete? ==> signal.responses.Keys == IdsOf(questions)
    {
      signal := Answer(option);
    }

    /**
     * The text answer's submit button: ignored while the text is blank,
     * otherwise stores the text as typed (untrimmed), clears the input and
     * advances or completes.
     */
    method HandleTextSubmit() returns (signal: Signal)
      requires Valid()
      modifies this
      ensures Valid()
      ensures JsString.Trim(old(textInput)) == "" ==> unchanged(this) && signal == Stay
      ensures JsString.Trim(old(textInput)) != "" ==>
        && responses == old(responses)[questions[old(currentIndex)].id := old(textInput)]
        && textInput == ""
        && (old(currentIndex) < |questions| - 1 ==>
              currentIndex == old(currentIndex) + 1 && signal == Stay)
        && (old(currentIndex) == |questions| - 1 ==>
              currentIndex == old(currentIndex) && signal == Complete(responses))
      ensures signal.Complete? ==> signal.responses.Keys == IdsOf(questions)
    {
      if JsString.Trim(textInput) == "" {
        return Stay;
      }
      var answer := textInput;
      signal := Answer(answer);
      textInput := "";
    }

    /**
     * The back button: one question back, with the text input restored to
     * that question's stored answer; on the first question, onBack().
     */
    method HandlePrevious() returns (signal: Signal)
      requires Valid()
      modifies this
      ensures Valid()
      ensures responses == old(responses)
      ensures old(currentIndex) == 0 ==> unchanged(this) && signal == Back
      ensures old(currentIndex) > 0 ==>
        && currentIndex == old(currentIndex) - 1 && signal == Stay
        && questions[currentIndex].id in responses
        && textInput == responses[questions[currentIndex].id]
    {
      if currentIndex > 0 {
        var id := questions[currentIndex - 1].id;
        PrefixIds(questions, currentIndex - 1);
        currentIndex := currentIndex - 1;
        textInput := if id in responses then responses[id] else "";
        signal := Stay;
      } else {
        signal := Back;
      }
    }
  }
}
