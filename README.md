# PRD ticket assistant — a verified model of its request loop

The assistant is a single-page web application. A product owner types a user
story and a free-form "brain dump". The application asks a generative model
to turn this into a ticket draft plus a list of clarifying questions. It
renders the draft as HTML and shows the questions with an answer field each.
When the form is submitted again, the answers go back into the next prompt.

This project models the core of that loop in `app.py`:

- **Start-up** (`Analysis.Initialize`). The model is configured when the
  `GOOGLE_API_KEY` variable is set, and is absent otherwise.
- **Prompt composition** (`Composer`). The route builds the header from the
  story and the context. It then scans `question_0`, `question_1`, … until the
  first index with no question, and appends a block for each non-empty answer.
  The scan is an imperative method (`Composer.ComposePrompt`) with a loop. It
  is proved equal to a recursive specification (`Composer.PromptFor`), and
  the properties are proved about that specification.
- **Analysis** (`Analysis`). `get_ai_analysis` makes one model call and
  cleans the reply. Cleaning strips whitespace, then removes every "```json",
  then every "```". The result is parsed as JSON, and every failure becomes an
  `{"error": ...}` object.
- **View mapping** (`App`). The route fills `view_data` from the analysis.
  `App.Index` is the route as a method, proved equal to the response function
  `App.Respond`.
- **Form fields** (`Template`). The template's hidden `question_i` fields and
  `answer_i` inputs close the loop. Questions fed back with every answer left
  blank compose the bare header again.

Python's `str` operations are modelled in `Text`:

- `strip()`, over the `str.isspace` character set;
- `replace(pat, "")`, which removes non-overlapping matches scanning from the left;
- `pat in s`;
- the decimal rendering of `i` inside `f"question_{i}"`.

Every library the core calls but does not define is a function value that is
passed in. These are:

- the model's `generate_content` call with its `.text` (`Analysis.Model`);
- `json.loads`, `markdown.markdown`, `str()` of a non-text JSON value, and
  the fixed instruction text `SYSTEM_PROMPT` (`Analysis.Env`).

The model assumes nothing about what these functions return, except that
each one is a function: the same arguments always give the same result. It
makes one assumption about when they fail: `markdown.markdown` is taken to
raise on a draft that is not text. "## Left out" says more about both.

Four behaviours of `app.py` that a reader might not expect:

- **`open_questions` is never read.** The instruction text asks the model
  for three keys (app.py:31-35), but the route reads only `error`,
  `ticket_draft` and `clarifying_questions` (app.py:175-181;
  `App.OpenQuestionsIgnored`).
- **Only the "json" tag is removed with a fence.** The cleaning at app.py:135
  leaves any other language tag in front of the JSON
  (`Analysis.CleanKeepsOtherLanguageTag`).
- **A missing field fails the request.** `request.form[...]` raises for a
  missing field (app.py:153-154, app.py:164). A missing `context` is
  therefore not an empty context. A missing `answer_i` next to a present
  `question_i` is not treated as unanswered either.
- **An "error" key from the model counts as an error.** The test at
  app.py:175 does not tell the model's own JSON apart from
  `get_ai_analysis`'s error objects. A reply carrying an `"error"` key is
  displayed as an error.

## Model

| member | source | states |
|---|---|---|
| Text.Strip | app.py:135 | `s.strip()`: the text with its leading and trailing whitespace removed, i.e. the slice `StripBounds` picks |
| Text.RemoveAll | app.py:135 | `s.replace(pat, "")`: scanning from the left, an occurrence of `pat` is dropped and the scan resumes after it, any other character is kept; an empty `pat` leaves the text alone |
| Text.NatToString | app.py:162-164 | `f"{i}"`: the decimal digits of `i`, with no sign and no leading zeros |
| Text.StripBounds | app.py:135 | `strip()` keeps one slice: everything outside it is whitespace, and a non-empty slice starts and ends with a non-whitespace character |
| Text.StripPadded | app.py:135 | `strip()` of whitespace + body + whitespace is exactly the body, when the body has no surrounding whitespace |
| Text.RemoveAllAbsent | app.py:135 | `replace(pat, "")` leaves a text without `pat` unchanged |
| Text.RemoveAllPlainPrefix | app.py:135 | a prefix holding no character that can start `pat` passes through `replace(pat, "")` untouched |
| Text.NatToStringInjective | app.py:162 | different indices give different decimal renderings, so `question_{i}` names a distinct field for every `i` |
| Composer.KeysDistinct | app.py:153-164 | no `question_i` is an `answer_j`, and neither is `user_story`, `context` or `previous_context` |
| Composer.AnswersFrom | app.py:161-167 | the text the loop appends from index `i` on: for each `question_i` present, the block "\n\nQuestion: q\nAnswer: a" when its answer is non-empty and nothing when it is empty; it stops at the first absent `question_i`, and an absent `answer_i` fails naming that field |
| Composer.PromptFor | app.py:157-170 | the header with the story and context, then the separator and the answer text when that text is non-empty; or the failure the scan raised |
| Composer.ComposePrompt | app.py:157-170 | the loop returns exactly the specified prompt, or the name of the first missing `answer_i` |
| Composer.ScanReadsPairs | app.py:160-167 | on a form carrying pairs 0..n-1 and no `question_n`, the scan yields the blocks of those pairs in index order |
| Composer.PromptFromPairs | app.py:157-170 | the prompt is the header; the separator and the answer blocks follow exactly when the blocks are non-empty |
| Composer.BlocksEmptyIff | app.py:165-170 | the answer section is empty if and only if every answer is empty |
| Composer.PromptBareWhenUnanswered | app.py:165-170 | with every answer empty, the prompt is the header alone, with no separator |
| Composer.PromptBareWithoutQuestions | app.py:160-170 | without `question_0`, the prompt is the header alone |
| Composer.PromptStartsWithHeader | app.py:157 | every composed prompt starts with the header, which holds the story and the context verbatim |
| Composer.PromptFailsOnMissingAnswer | app.py:162-164 | a present `question_k` without `answer_k`, after complete pairs below k, fails with `answer_k` |
| Composer.ScanIgnoresKeysAfterGap | app.py:161-167 | fields beyond the first missing `question_k` never affect the prompt |
| Composer.PasswordResetExample | app.py:153-157 | a first request with an empty context composes the header ending in "Context/Brain Dump:\n" |
| Analysis.Initialize | app.py:9-13 | there is no model exactly when `GOOGLE_API_KEY` is absent; otherwise the model is the one connected with that key and "gemini-2.5-pro" |
| Analysis.Clean | app.py:135 | the reply stripped, then every "```json" removed, then every "```" removed |
| Analysis.GetAiAnalysis | app.py:131-138 | without a model, the "not configured" error object; otherwise one call with the instruction text and the prompt, whose reply is cleaned and parsed; a raised call or a failed parse gives the "An error occurred: " error object |
| Analysis.FencesRemoved | app.py:135 | after `replace("```", "")` no three backticks in a row remain |
| Analysis.CleanLeavesNoFence | app.py:135 | the cleaned reply never contains "```" |
| Analysis.CleanWithoutFencesIsStrip | app.py:135 | a reply without "```" is only stripped |
| Analysis.CleanUnwrapsFencedReply | app.py:135 | "```json" + body + "```" cleans to the body when the body has no backtick |
| Analysis.CleanKeepsOtherLanguageTag | app.py:135 | "```" + tag + body + "```" cleans to tag + body when the tag does not start with 'j' |
| Analysis.CleanNotIdempotent | app.py:135 | a fenced reply with the JSON on its own line cleans to that line with its newlines, and cleaning it again strips them |
| Analysis.UnconfiguredAnalysis | app.py:132 | without a model the analysis is `{"error": "API Key not configured."}` |
| Analysis.FailuresBecomeErrorObjects | app.py:133-138 | a raised call and a parse failure both give `{"error": "An error occurred: " + message}` |
| Analysis.CleanAnalysisComesFromReply | app.py:133-136 | an analysis without an "error" key came from a configured model that replied, and it is the parse of the cleaned reply |
| Template.QuestionFields | app.py:97-106 | the page submits `question_i = q_i` and `answer_i = a_i` for each shown question, and no question or answer field past the last one |
| Template.SubmittedForm | app.py:91-106 | the submitted form carries the question/answer pairs, the edited story and the edited context |
| Template.QuestionTexts | app.py:97 | the texts the template's loop lists, when `clarifying_questions` is a list of strings; none otherwise |
| Template.Texts | app.py:97-99 | the question texts exist exactly when every listed item is a string, and they are those strings in order |
| Template.BlankAnswersGiveBareHeader | app.py:97-106 | questions fed back with every answer blank compose exactly the bare header |
| Template.SubmittedAnswersFolded | app.py:160-170 | the fed-back form composes the header alone when no answer was typed, else the header, the separator and the blocks of the answered questions |
| App.ApplyAnalysis | app.py:175-181 | an object with "error" sets the error markup; any other object sets the rendered `ticket_draft` (default "") and `clarifying_questions` (default []); a non-object, a non-text draft or non-iterable questions is an uncaught exception |
| App.Respond | app.py:142-186 | the key-error page without a model; the initial view on GET; on POST a failure for a missing field, otherwise the analysis of the composed prompt applied to the initial view, with the story and context echoed |
| App.Index | app.py:142-186 | the route returns exactly the specified response for every start-up setting, library behaviour and request |
| App.UnconfiguredAlwaysFails | app.py:144 | started without the credential, every request gets the page with "ERROR: GOOGLE_API_KEY is not set." |
| App.GetShowsBlankForm | app.py:147-150 | with a model, a GET renders empty texts, an empty question list and no key error |
| App.PostEchoesInputs | app.py:183-184 | a page answering a POST shows exactly the submitted story and context, and no key error |
| App.MissingTextFieldRejected | app.py:153-154 | a POST without `user_story`, or with it but without `context`, fails naming the missing field |
| App.MissingAnswerRejected | app.py:164 | a question shown without its answer field makes the whole request fail, naming `answer_k` |
| App.ErrorAnalysisShown | app.py:175-176 | an analysis with an "error" key shows `<p class='error'>Error: …</p>` and leaves the questions empty |
| App.CallFailureShown | app.py:173-176 | a raised model call shows "Error: An error occurred: " followed by the message, with no questions |
| App.AnalysisShown | app.py:177-181 | an error-free object shows the rendered `ticket_draft` (default "") and its `clarifying_questions` (default []), when they are text and iterable |
| App.UniterableQuestionsFail | app.py:97-99 | `clarifying_questions` that are a number, a boolean or null end the request in a 500, because the template's loop over them raises |
| App.OpenQuestionsIgnored | app.py:175-181 | adding or removing `open_questions` in the analysis never changes the page |
| App.FencedReplyShown | app.py:173-181 | a json-fenced reply reaches the page exactly as its unfenced body would |
| App.NextSubmission | app.py:91-106 | the form a rendered page submits carries that page's questions, the typed answers and the edited story and context |
| App.BlankAnswersAreFreshTurn | app.py:160-170 | submitting a page with every answer blank sends exactly the prompt of a first submission of the same story and context, and is otherwise answered the same way |

## Left out

- HTTP and Flask: routing, the 405 for other methods, and rendering the template to HTML. A response is modelled as the values the template receives (`App.Response`).
- The browser-only `required` attribute on the story input. A request without `user_story` is still modelled, and it fails (`App.Response.BadRequest`).
- How Flask answers a missing form field. Outside debug mode it is a 400. `app.run(debug=True)` (app.py:190) runs in debug mode, where Flask traps the KeyError and serves its debugger page instead. The model records only that the request fails and which field was missing.
- `request.form` as a multi-valued dictionary. A repeated field is modelled with a single value.
- The generative model call. It is a function value (`Analysis.Model.generate`): its reply, or the message of whatever it raises.
- Determinism of that call. Being a function, `Analysis.Model.generate` gives the same reply every time it is sent the same prompt, which the real model does not promise. Lemmas that compare two requests, such as `App.BlankAnswersAreFreshTurn`, rely on this. What holds of the program itself is that both requests send the same prompt.
- `json.loads`, `markdown.markdown` and `str()` of a non-text JSON value. These are function values in `Analysis.Env`. JSON numbers are integers only, so floats are not modelled.
- The text of `SYSTEM_PROMPT`. It is a parameter, so nothing depends on its content.
- The CSS and the page layout.
- App.ApplyAnalysis: a `ticket_draft` that is not text is modelled as an uncaught exception (a 500). This assumes `markdown.markdown` raises on non-text input; the library is not part of this model.
- App.ApplyAnalysis: an analysis that is not an object is likewise a 500. For a list or a string, `"error" in analysis` (app.py:175) is only a membership or substring test. The exception comes from `analysis['error']` (app.py:176) or `.get` (app.py:178). For a number, a boolean or null, the `in` test itself raises.
- Template.QuestionTexts, App.NextSubmission, App.BlankAnswersAreFreshTurn: the next submission is modelled only when `clarifying_questions` is a list of strings. An object or a string is iterated over its keys or characters. A list with non-string items has each item rendered with `str()`. Neither of these renderings is modelled.
- HTML escaping of `{{ q }}` in the hidden fields. The browser undoes it on submission, so it is taken as transparent.
- Line-break normalisation by the browser. Submitted values have LF turned into CRLF, so a question holding "\n" comes back in `question_i` with "\r\n". `Template.QuestionFields` takes submitted values to equal the rendered ones.
