/** The prompt composer of `index` (app.py:153-170): the header built from the
    user story and the context, followed by the answered questions read from
    the form fields `question_0, answer_0, question_1, ...`. */
module Composer {
  import opened Wrappers
  import opened Text

  /** The form field `question_{i}`. */
  function QuestionKey(i: nat): string {
    "question_" + NatToString(i)
  }

  /** The form field `answer_{i}`. */
  function AnswerKey(i: nat): string {
    "answer_" + NatToString(i)
  }

  lemma QuestionKeyInjective(i: nat, j: nat)
    ensures QuestionKey(i) == QuestionKey(j) <==> i == j
  {
    if QuestionKey(i) == QuestionKey(j) {
      assert NatToString(i) == QuestionKey(i)[9..] == QuestionKey(j)[9..] == NatToString(j);
      NatToStringInjective(i, j);
    }
  }

  lemma AnswerKeyInjective(i: nat, j: nat)
    ensures AnswerKey(i) == AnswerKey(j) <==> i == j
  {
    if AnswerKey(i) == AnswerKey(j) {
      assert NatToString(i) == AnswerKey(i)[7..] == AnswerKey(j)[7..] == NatToString(j);
      NatToStringInjective(i, j);
    }
  }

  /** Question and answer fields never share a name, and neither is one of
      the form's fixed fields. */
  lemma KeysDistinct(i: nat, j: nat)
    ensures QuestionKey(i) != AnswerKey(j)
    ensures QuestionKey(i) != "user_story" && QuestionKey(i) != "context" && QuestionKey(i) != "previous_context"
    ensures AnswerKey(j) != "user_story" && AnswerKey(j) != "context" && AnswerKey(j) != "previous_context"
  {
    assert QuestionKey(i)[0] == 'q';
    assert AnswerKey(j)[0] == 'a';
  }

  /** The prompt's fixed opening (app.py:157). */
  function Header(userStory: string, context: string): string {
    "User Story: " + userStory + "\n\nContext/Brain Dump:\n" + context
  }

  /** The line put in front of the answers (app.py:170). */
  const AnswersSeparator := "\n\n--- User's Answers to Previous Questions ---"

  /** One answered question (app.py:166). */
  function Block(question: string, answer: string): string {
    "\n\nQuestion: " + question + "\nAnswer: " + answer
  }

  /** What scanning one question adds: its block if answered, else nothing. */
  function Contribution(question: string, answer: string): string {
    if answer != "" then Block(question, answer) else ""
  }

  /** The question fields with index below `n`. */
  ghost function QuestionKeysBelow(n: nat): set<string> {
    if n == 0 then {} else QuestionKeysBelow(n - 1) + {QuestionKey(n - 1)}
  }

  lemma {:induction false} NotYetScanned(i: nat, n: nat)
    requires n <= i
    ensures QuestionKey(i) !in QuestionKeysBelow(n)
  {
    if n > 0 {
      NotYetScanned(i, n - 1);
      QuestionKeyInjective(i, n - 1);
    }
  }

  /** How many fields of the form the scan, standing at index `i`, has not
      yet read as question fields. */
  ghost function Unscanned(form: map<string, string>, i: nat): nat {
    |form.Keys - QuestionKeysBelow(i)|
  }

  /** Termination of the scan: each question field found is one field of the
      finite form that the remaining scan can no longer find. */
  lemma ScanProgress(form: map<string, string>, i: nat)
    requires QuestionKey(i) in form
    ensures Unscanned(form, i + 1) < Unscanned(form, i)
  {
    NotYetScanned(i, i);
    var before := form.Keys - QuestionKeysBelow(i);
    assert form.Keys - QuestionKeysBelow(i + 1) == before - {QuestionKey(i)};
    assert QuestionKey(i) in before;
  }

  /** Prefixes text to a successful result; a failure passes through. */
  function Prepend(prefix: string, r: Result<string, string>): Result<string, string> {
    match r
    case Success(s) => Success(prefix + s)
    case Failure(e) => Failure(e)
  }

  lemma PrependAssociative(a: string, b: string, r: Result<string, string>)
    ensures Prepend(a, Prepend(b, r)) == Prepend(a + b, r)
  {
    match r
    case Success(s) => assert a + (b + s) == (a + b) + s;
    case Failure(_) =>
  }

  lemma PrependEmpty(r: Result<string, string>)
    ensures Prepend("", r) == r
  {
    match r
    case Success(s) => assert "" + s == s;
    case Failure(_) =>
  }

  /** The text the scan adds from index `i` on, or the name of the first
      answer field that is missing while its question field is present
      (`request.form[f"answer_{i}"]` fails the request, app.py:164). */
  function AnswersFrom(form: map<string, string>, i: nat): Result<string, string>
    decreases Unscanned(form, i)
  {
    if QuestionKey(i) !in form then Success("")
    else if AnswerKey(i) !in form then Failure(AnswerKey(i))
    else
      ScanProgress(form, i);
      Prepend(Contribution(form[QuestionKey(i)], form[AnswerKey(i)]), AnswersFrom(form, i + 1))
  }

  /** One turn of the scan moves the contribution of index `i` into the text
      accumulated so far. */
  lemma ScanStep(form: map<string, string>, i: nat, acc: string)
    requires QuestionKey(i) in form && AnswerKey(i) in form
    ensures Prepend(acc, AnswersFrom(form, i)) ==
            Prepend(acc + Contribution(form[QuestionKey(i)], form[AnswerKey(i)]), AnswersFrom(form, i + 1))
  {
    PrependAssociative(acc, Contribution(form[QuestionKey(i)], form[AnswerKey(i)]), AnswersFrom(form, i + 1));
  }

  /** The scan stops at index `i` when its answer field is missing. */
  lemma ScanFails(form: map<string, string>, i: nat, acc: string)
    requires QuestionKey(i) in form && AnswerKey(i) !in form
    ensures Prepend(acc, AnswersFrom(form, i)) == Failure(AnswerKey(i))
  {
  }

  /** Appending the empty scan result leaves the accumulated text alone. */
  lemma PrependToEmpty(acc: string)
    ensures Prepend(acc, Success("")) == Success(acc)
  {
    assert acc + "" == acc;
  }

  /** The prompt for the given story and context, or the missing answer field
      that fails the request. */
  function PromptFor(userStory: string, context: string, form: map<string, string>): Result<string, string> {
    match AnswersFrom(form, 0)
    case Failure(key) => Failure(key)
    case Success(answers) =>
      if answers != "" then Success(Header(userStory, context) + (AnswersSeparator + answers))
      else Success(Header(userStory, context))
  }

  /** The loop of app.py:157-170. */
  method ComposePrompt(userStory: string, context: string, form: map<string, string>)
    returns (r: Result<string, string>)
    ensures r == PromptFor(userStory, context, form)
  {
    var prompt := Header(userStory, context);
    var answersText := "";
    var i: nat := 0;
    PrependEmpty(AnswersFrom(form, 0));
    while QuestionKey(i) in form
      invariant AnswersFrom(form, 0) == Prepend(answersText, AnswersFrom(form, i))
      decreases Unscanned(form, i)
    {
      ScanProgress(form, i);
      var question := form[QuestionKey(i)];
      if AnswerKey(i) !in form {
        ScanFails(form, i, answersText);
        return Failure(AnswerKey(i));
      }
      var answer := form[AnswerKey(i)];
      ScanStep(form, i, answersText);
      if answer != "" {
        answersText := answersText + Block(question, answer);
      } else {
        PrependToEmpty(answersText);
      }
      i := i + 1;
    }
    PrependToEmpty(answersText);
    if answersText != "" {
      prompt := prompt + (AnswersSeparator + answersText);
    }
    return Success(prompt);
  }

  // ----- Reference definition and properties -----

  /** The answer section for the scanned pairs, read left to right: the blocks
      of the answered questions only. */
  function Blocks(questions: seq<string>, answers: seq<string>): string
    requires |questions| == |answers|
  {
    if |questions| == 0 then ""
    else Contribution(questions[0], answers[0]) + Blocks(questions[1..], answers[1..])
  }

  /** The form holds `question_j = questions[j]` and `answer_j = answers[j]`
      for every j below |questions|, and no `question_{|questions|}`. */
  ghost predicate CarriesPairs(form: map<string, string>, questions: seq<string>, answers: seq<string>) {
    && |questions| == |answers|
    && (forall j :: 0 <= j < |questions| ==>
          QuestionKey(j) in form && form[QuestionKey(j)] == questions[j])
    && (forall j :: 0 <= j < |answers| ==>
          AnswerKey(j) in form && form[AnswerKey(j)] == answers[j])
    && QuestionKey(|questions|) !in form
  }

  lemma {:induction false} ScanReadsPairsFrom(form: map<string, string>, questions: seq<string>, answers: seq<string>, i: nat)
    requires CarriesPairs(form, questions, answers)
    requires i <= |questions|
    ensures AnswersFrom(form, i) == Success(Blocks(questions[i..], answers[i..]))
    decreases |questions| - i
  {
    if i < |questions| {
      ScanReadsPairsFrom(form, questions, answers, i + 1);
      assert questions[i..][1..] == questions[i + 1..];
      assert answers[i..][1..] == answers[i + 1..];
    }
  }

  /** The scan reads exactly the pairs the form carries, in increasing index. */
  lemma ScanReadsPairs(form: map<string, string>, questions: seq<string>, answers: seq<string>)
    requires CarriesPairs(form, questions, answers)
    ensures AnswersFrom(form, 0) == Success(Blocks(questions, answers))
  {
    ScanReadsPairsFrom(form, questions, answers, 0);
    assert questions[0..] == questions && answers[0..] == answers;
  }

  /** The answer section is empty exactly when every answer is empty. */
  lemma {:induction false} BlocksEmptyIff(questions: seq<string>, answers: seq<string>)
    requires |questions| == |answers|
    ensures Blocks(questions, answers) == "" <==> forall j :: 0 <= j < |answers| ==> answers[j] == ""
  {
    if |questions| > 0 {
      BlocksEmptyIff(questions[1..], answers[1..]);
      assert forall j :: 1 <= j < |answers| ==> answers[1..][j - 1] == answers[j];
      if answers[0] != "" {
        assert |Block(questions[0], answers[0])| > 0;
      }
    }
  }

  /** The composed prompt is the header, then, when at least one question was
      answered, the separator and the blocks of the answered questions. */
  lemma PromptFromPairs(userStory: string, context: string, form: map<string, string>,
                        questions: seq<string>, answers: seq<string>)
    requires CarriesPairs(form, questions, answers)
    ensures PromptFor(userStory, context, form) ==
      if Blocks(questions, answers) != ""
      then Success(Header(userStory, context) + (AnswersSeparator + Blocks(questions, answers)))
      else Success(Header(userStory, context))
  {
    ScanReadsPairs(form, questions, answers);
  }

  /** Unanswered questions leave the bare header (the empty-answer round trip). */
  lemma PromptBareWhenUnanswered(userStory: string, context: string, form: map<string, string>,
                                 questions: seq<string>, answers: seq<string>)
    requires CarriesPairs(form, questions, answers)
    requires forall j :: 0 <= j < |answers| ==> answers[j] == ""
    ensures PromptFor(userStory, context, form) == Success(Header(userStory, context))
  {
    PromptFromPairs(userStory, context, form, questions, answers);
    BlocksEmptyIff(questions, answers);
  }

  /** Without `question_0` the prompt is the header alone. */
  lemma PromptBareWithoutQuestions(userStory: string, context: string, form: map<string, string>)
    requires QuestionKey(0) !in form
    ensures PromptFor(userStory, context, form) == Success(Header(userStory, context))
  {
  }

  /** Whatever the form holds, a composed prompt starts with the header, which
      copies the user story and the context verbatim. */
  lemma PromptStartsWithHeader(userStory: string, context: string, form: map<string, string>)
    ensures PromptFor(userStory, context, form).Success? ==>
      Header(userStory, context) <= PromptFor(userStory, context, form).value
    ensures Header(userStory, context)[|"User Story: "|..|"User Story: "| + |userStory|] == userStory
    ensures Header(userStory, context)[|Header(userStory, context)| - |context|..] == context
  {
  }

  lemma {:induction false} MissingAnswerFrom(form: map<string, string>, k: nat, i: nat)
    requires i <= k
    requires forall j :: 0 <= j < k ==> QuestionKey(j) in form && AnswerKey(j) in form
    requires QuestionKey(k) in form && AnswerKey(k) !in form
    ensures AnswersFrom(form, i) == Failure(AnswerKey(k))
    decreases k - i
  {
    if i < k {
      MissingAnswerFrom(form, k, i + 1);
    }
  }

  /** A present `question_k` whose `answer_k` is missing fails the request
      with that field's name instead of being skipped. */
  lemma PromptFailsOnMissingAnswer(userStory: string, context: string, form: map<string, string>, k: nat)
    requires forall j :: 0 <= j < k ==> QuestionKey(j) in form && AnswerKey(j) in form
    requires QuestionKey(k) in form && AnswerKey(k) !in form
    ensures PromptFor(userStory, context, form) == Failure(AnswerKey(k))
  {
    MissingAnswerFrom(form, k, 0);
  }

  /** Two forms hold the same entry (or none) under `key`. */
  ghost predicate SameEntry(f1: map<string, string>, f2: map<string, string>, key: string) {
    (key in f1 <==> key in f2) && (key in f1 ==> f1[key] == f2[key])
  }

  lemma {:induction false} ScanIgnoresKeysAfterGapFrom(f1: map<string, string>, f2: map<string, string>, k: nat, i: nat)
    requires i <= k
    requires forall j :: 0 <= j < k ==> SameEntry(f1, f2, QuestionKey(j)) && SameEntry(f1, f2, AnswerKey(j))
    requires QuestionKey(k) !in f1 && QuestionKey(k) !in f2
    ensures AnswersFrom(f1, i) == AnswersFrom(f2, i)
    decreases k - i
  {
    if i < k {
      ScanIgnoresKeysAfterGapFrom(f1, f2, k, i + 1);
    }
  }

  /** The scan visits only the contiguous run `question_0 .. question_{k-1}`
      before the first missing `question_k`: forms that agree on those fields
      compose the same prompt, whatever else they hold. */
  lemma ScanIgnoresKeysAfterGap(userStory: string, context: string,
                                f1: map<string, string>, f2: map<string, string>, k: nat)
    requires forall j :: 0 <= j < k ==> SameEntry(f1, f2, QuestionKey(j)) && SameEntry(f1, f2, AnswerKey(j))
    requires QuestionKey(k) !in f1 && QuestionKey(k) !in f2
    ensures PromptFor(userStory, context, f1) == PromptFor(userStory, context, f2)
  {
    ScanIgnoresKeysAfterGapFrom(f1, f2, k, 0);
  }

  /** The sample turn: a first request with an empty context gives the
      header alone, ending in the newline after "Context/Brain Dump:". */
  lemma PasswordResetExample()
    ensures PromptFor("As a user, I want password reset", "",
                      map["user_story" := "As a user, I want password reset", "context" := ""])
         == Success("User Story: " + "As a user, I want password reset" + "\n\nContext/Brain Dump:\n")
  {
    var form := map["user_story" := "As a user, I want password reset", "context" := ""];
    KeysDistinct(0, 0);
    assert QuestionKey(0) == "question_0";
    PromptBareWithoutQuestions("As a user, I want password reset", "", form);
    var head := "User Story: " + "As a user, I want password reset" + "\n\nContext/Brain Dump:\n";
    assert head + "" == head;
  }
}
