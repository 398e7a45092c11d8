/** The part of `HTML_TEMPLATE` that closes the refinement loop: the form the
    next request submits. For each clarifying question `q` at position `i`
    the page holds a hidden field `question_{i}` with value `q`
    (app.py:97-99) and a text input `answer_{i}` (app.py:104-106), beside the
    fields `user_story`, `context` and `previous_context` (app.py:91-96). */
module Template {
  import opened Wrappers
  import opened Json
  import opened Composer

  /** The name facts the form builder relies on. */
  lemma FieldNamesApart(n: nat)
    ensures forall i: nat :: i != n ==> QuestionKey(i) != QuestionKey(n) && AnswerKey(i) != AnswerKey(n)
    ensures forall i: nat :: QuestionKey(i) != AnswerKey(n) && AnswerKey(i) != QuestionKey(n)
  {
    forall i: nat
      ensures i != n ==> QuestionKey(i) != QuestionKey(n) && AnswerKey(i) != AnswerKey(n)
      ensures QuestionKey(i) != AnswerKey(n) && AnswerKey(i) != QuestionKey(n)
    {
      QuestionKeyInjective(i, n);
      AnswerKeyInjective(i, n);
      KeysDistinct(i, n);
      KeysDistinct(n, i);
    }
  }

  /** The question and answer fields the browser submits for `questions`,
      `answers[i]` being what was typed into `answer_{i}` (empty if nothing). */
  function QuestionFields(questions: seq<string>, answers: seq<string>): (f: map<string, string>)
    requires |answers| == |questions|
    ensures forall i :: 0 <= i < |questions| ==> QuestionKey(i) in f && f[QuestionKey(i)] == questions[i]
    ensures forall i :: 0 <= i < |answers| ==> AnswerKey(i) in f && f[AnswerKey(i)] == answers[i]
    ensures forall i: nat :: |questions| <= i ==> QuestionKey(i) !in f && AnswerKey(i) !in f
    ensures "user_story" !in f && "context" !in f && "previous_context" !in f
    decreases |questions|
  {
    if |questions| == 0 then map[]
    else
      var n := |questions| - 1;
      var f := QuestionFields(questions[..n], answers[..n]);
      FieldNamesApart(n);
      KeysDistinct(n, n);
      f[QuestionKey(n) := questions[n]][AnswerKey(n) := answers[n]]
  }

  /** The whole form the page submits: the edited story and context, the
      context shown before (`previous_context`), and the question fields. */
  function SubmittedForm(userStory: string, context: string, previousContext: string,
                         questions: seq<string>, answers: seq<string>): (f: map<string, string>)
    requires |answers| == |questions|
    ensures CarriesPairs(f, questions, answers)
    ensures "user_story" in f && f["user_story"] == userStory
    ensures "context" in f && f["context"] == context
  {
    var fields := QuestionFields(questions, answers);
    forall i: nat ensures QuestionKey(i) != "user_story" && QuestionKey(i) != "context"
      && QuestionKey(i) != "previous_context" && AnswerKey(i) != "user_story"
      && AnswerKey(i) != "context" && AnswerKey(i) != "previous_context"
    {
      KeysDistinct(i, i);
    }
    fields["user_story" := userStory]["context" := context]["previous_context" := previousContext]
  }

  /** An answer list left entirely blank. */
  function Unanswered(n: nat): (answers: seq<string>)
    ensures |answers| == n && forall i :: 0 <= i < n ==> answers[i] == ""
  {
    seq(n, i => "")
  }

  /** The texts of a list of JSON strings, or None if some item is not text. */
  function Texts(items: seq<JsonValue>): (r: Option<seq<string>>)
    ensures r.Some? <==> forall i :: 0 <= i < |items| ==> items[i].JString?
    ensures r.Some? ==> |r.value| == |items| && forall i :: 0 <= i < |items| ==> r.value[i] == items[i].s
  {
    if |items| == 0 then Some([])
    else if !items[0].JString? then None
    else
      match Texts(items[1..])
      case None => None
      case Some(rest) => Some([items[0].s] + rest)
  }

  /** The question texts the page lists, when `clarifying_questions` is a
      list of strings. */
  function QuestionTexts(v: JsonValue): Option<seq<string>> {
    if v.JArray? then Texts(v.items) else None
  }

  /** Round trip: the questions fed back with every answer blank compose the
      bare header. */
  lemma BlankAnswersGiveBareHeader(userStory: string, context: string, previousContext: string,
                                   questions: seq<string>)
    ensures PromptFor(userStory, context,
                      SubmittedForm(userStory, context, previousContext, questions, Unanswered(|questions|)))
         == Success(Header(userStory, context))
  {
    var answers := Unanswered(|questions|);
    PromptBareWhenUnanswered(userStory, context,
      SubmittedForm(userStory, context, previousContext, questions, answers), questions, answers);
  }

  /** Round trip with answers: the page's questions come back paired with
      what was typed, and only the answered ones reach the prompt. */
  lemma SubmittedAnswersFolded(userStory: string, context: string, previousContext: string,
                               questions: seq<string>, answers: seq<string>)
    requires |answers| == |questions|
    ensures var prompt := PromptFor(userStory, context,
                                    SubmittedForm(userStory, context, previousContext, questions, answers));
            (forall i :: 0 <= i < |answers| ==> answers[i] == "") ==> prompt == Success(Header(userStory, context))
    ensures var prompt := PromptFor(userStory, context,
                                    SubmittedForm(userStory, context, previousContext, questions, answers));
            (exists i :: 0 <= i < |answers| && answers[i] != "") ==>
              prompt == Success(Header(userStory, context) + (AnswersSeparator + Blocks(questions, answers)))
  {
    PromptFromPairs(userStory, context,
      SubmittedForm(userStory, context, previousContext, questions, answers), questions, answers);
    BlocksEmptyIff(questions, answers);
  }
}
