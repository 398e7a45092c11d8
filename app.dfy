/** The single route `index` (app.py:142-186): the start-up check, the blank
    form on GET, and on POST the prompt composition, one analysis and the
    mapping of the analysis onto the values the page is rendered with. */
module App {
  import opened Wrappers
  import opened Json
  import opened Composer
  import opened Analysis
  import opened Template

  datatype HttpMethod = Get | Post

  /** A request to `/`: its method and its form fields. */
  datatype Request = Request(verb: HttpMethod, form: map<string, string>)

  /** The template variables `view_data` holds (app.py:147-150). */
  datatype ViewData = ViewData(
    userStory: string,
    context: string,
    previewHtml: string,
    clarifyingQuestions: JsonValue,
    apiKeyError: Option<string>)

  /** What a request produces: the page rendered with only `api_key_error`
      set, the page rendered with a full `view_data`, the failure raised by
      `request.form[...]` for a missing form field (a KeyError, which Flask
      answers with a 400 when not in debug mode), or a 500 for an exception
      the route or the rendering does not catch. */
  datatype Response =
    | ConfigErrorPage(apiKeyError: string)
    | Page(view: ViewData)
    | BadRequest(missingField: string)
    | ServerError(reason: string)

  const ApiKeyMissing := "ERROR: GOOGLE_API_KEY is not set."

  /** The initial `view_data`: empty texts, no questions, no key error. */
  const InitialView := ViewData("", "", "", JArray([]), None)

  /** The preview markup for an error message. */
  function ErrorMarkup(message: string): string {
    "<p class='error'>Error: " + message + "</p>"
  }

  /** A JSON value as an f-string shows it: a string is shown as is, any
      other value through `str()`. */
  function Display(env: Env, v: JsonValue): string {
    if v.JString? then v.s else env.display(v)
  }

  const NotAnObject := "the analysis is not a JSON object"
  const DraftNotText := "ticket_draft is not text"
  const QuestionsNotIterable := "clarifying_questions cannot be iterated"

  /** The values a Jinja `for` loop can run over: a list (its items), an
      object (its keys) or a string (its characters). A number, a boolean or
      null makes the loop raise. */
  predicate Iterable(v: JsonValue) {
    v.JArray? || v.JObject? || v.JString?
  }

  /** How the analysis fills `view_data` (app.py:175-181): an object with an
      `"error"` key shows the error and leaves `view`'s questions unchanged
      (the empty list on the route); any other object
      shows the rendered `ticket_draft` (default empty) and takes
      `clarifying_questions` (default empty list). A value that is not an
      object makes `analysis['error']` (app.py:176) or `.get` (app.py:178)
      raise; a draft that is not text makes `markdown.markdown` raise; and
      questions that cannot be iterated make rendering the template raise
      at its loops over them (app.py:97, app.py:104). */
  function ApplyAnalysis(view: ViewData, analysis: JsonValue, env: Env): Result<ViewData, string> {
    if !analysis.JObject? then Failure(NotAnObject)
    else if "error" in analysis.fields then
      Success(view.(previewHtml := ErrorMarkup(Display(env, analysis.fields["error"]))))
    else
      var draft := GetOr(analysis.fields, "ticket_draft", JString(""));
      var questions := GetOr(analysis.fields, "clarifying_questions", JArray([]));
      if !draft.JString? then Failure(DraftNotText)
      else if !Iterable(questions) then Failure(QuestionsNotIterable)
      else Success(view.(previewHtml := env.renderMarkdown(draft.s), clarifyingQuestions := questions))
  }

  /** The response `index` gives, as a function of the start-up setting, the
      libraries and the request. */
  function Respond(config: Config, env: Env, req: Request): Response {
    if config.model.None? then ConfigErrorPage(ApiKeyMissing)
    else if req.verb == Get then Page(InitialView)
    else if "user_story" !in req.form then BadRequest("user_story")
    else if "context" !in req.form then BadRequest("context")
    else
      var userStory, context := req.form["user_story"], req.form["context"];
      match PromptFor(userStory, context, req.form)
      case Failure(field) => BadRequest(field)
      case Success(prompt) =>
        match ApplyAnalysis(InitialView, GetAiAnalysis(config, env, prompt), env)
        case Failure(reason) => ServerError(reason)
        case Success(view) => Page(view.(userStory := userStory, context := context))
  }

  /** The route itself, filling `view_data` step by step. */
  method Index(config: Config, env: Env, req: Request) returns (resp: Response)
    ensures resp == Respond(config, env, req)
  {
    if config.model.None? {
      return ConfigErrorPage(ApiKeyMissing);
    }
    var viewData := InitialView;
    if req.verb == Post {
      if "user_story" !in req.form {
        return BadRequest("user_story");
      }
      var userStory := req.form["user_story"];
      if "context" !in req.form {
        return BadRequest("context");
      }
      var context := req.form["context"];
      var composed := ComposePrompt(userStory, context, req.form);
      if composed.Failure? {
        return BadRequest(composed.error);
      }
      var analysis := GetAiAnalysis(config, env, composed.value);
      if !analysis.JObject? {
        return ServerError(NotAnObject);
      }
      if "error" in analysis.fields {
        viewData := viewData.(previewHtml := ErrorMarkup(Display(env, analysis.fields["error"])));
      } else {
        var draft := GetOr(analysis.fields, "ticket_draft", JString(""));
        if !draft.JString? {
          return ServerError(DraftNotText);
        }
        viewData := viewData.(previewHtml := env.renderMarkdown(draft.s));
        viewData := viewData.(clarifyingQuestions := GetOr(analysis.fields, "clarifying_questions", JArray([])));
      }
      if !Iterable(viewData.clarifyingQuestions) {
        return ServerError(QuestionsNotIterable);
      }
      viewData := viewData.(userStory := userStory);
      viewData := viewData.(context := context);
    }
    return Page(viewData);
  }

  // ----- Properties of the route -----

  /** Started without the credential, every request gets the key-error page
      and nothing is composed or asked of a model. */
  lemma UnconfiguredAlwaysFails(environ: map<string, string>, connect: (string, string) -> Model,
                                env: Env, req: Request)
    requires CredentialVariable !in environ
    ensures Respond(Initialize(environ, connect), env, req) == ConfigErrorPage(ApiKeyMissing)
  {
  }

  /** With a model, a GET shows the blank form. */
  lemma GetShowsBlankForm(config: Config, env: Env, form: map<string, string>)
    requires config.model.Some?
    ensures Respond(config, env, Request(Get, form)) == Page(ViewData("", "", "", JArray([]), None))
  {
  }

  /** A page answering a POST shows the submitted story and context back and
      no key error. */
  lemma PostEchoesInputs(config: Config, env: Env, form: map<string, string>)
    requires Respond(config, env, Request(Post, form)).Page?
    ensures "user_story" in form && "context" in form
    ensures var v := Respond(config, env, Request(Post, form)).view;
            v.userStory == form["user_story"] && v.context == form["context"] && v.apiKeyError.None?
  {
  }

  /** Either required text field missing from a POST is a 400 naming it. */
  lemma MissingTextFieldRejected(config: Config, env: Env, form: map<string, string>)
    requires config.model.Some?
    ensures "user_story" !in form ==> Respond(config, env, Request(Post, form)) == BadRequest("user_story")
    ensures "user_story" in form && "context" !in form ==>
              Respond(config, env, Request(Post, form)) == BadRequest("context")
  {
  }

  /** A question shown without its answer field fails the whole request with
      a 400 naming `answer_{k}`, instead of counting as unanswered. */
  lemma MissingAnswerRejected(config: Config, env: Env, form: map<string, string>, k: nat)
    requires config.model.Some?
    requires "user_story" in form && "context" in form
    requires forall j :: 0 <= j <= k ==> QuestionKey(j) in form
    requires forall j :: 0 <= j < k ==> AnswerKey(j) in form
    requires AnswerKey(k) !in form
    ensures Respond(config, env, Request(Post, form)) == BadRequest(AnswerKey(k))
  {
    PromptFailsOnMissingAnswer(form["user_story"], form["context"], form, k);
  }

  /** An error object from the analysis is shown as error markup; the
      questions stay the empty list. */
  lemma ErrorAnalysisShown(config: Config, env: Env, form: map<string, string>, prompt: string)
    requires config.model.Some? && "user_story" in form && "context" in form
    requires PromptFor(form["user_story"], form["context"], form) == Success(prompt)
    requires HasErrorKey(GetAiAnalysis(config, env, prompt))
    ensures var err := GetAiAnalysis(config, env, prompt).fields["error"];
            Respond(config, env, Request(Post, form)) ==
              Page(ViewData(form["user_story"], form["context"], ErrorMarkup(Display(env, err)), JArray([]), None))
  {
  }

  /** A model call that raises is shown as "Error: An error occurred: "
      followed by the exception message. */
  lemma CallFailureShown(config: Config, env: Env, form: map<string, string>, prompt: string)
    requires config.model.Some? && "user_story" in form && "context" in form
    requires PromptFor(form["user_story"], form["context"], form) == Success(prompt)
    requires config.model.value.generate(env.systemPrompt, prompt).Raised?
    ensures var message := config.model.value.generate(env.systemPrompt, prompt).message;
            Respond(config, env, Request(Post, form)) ==
              Page(ViewData(form["user_story"], form["context"],
                            ErrorMarkup(ErrorPrefix + message), JArray([]), None))
  {
    FailuresBecomeErrorObjects(config, env, prompt);
  }

  /** An analysis object without `"error"` whose draft is text (or absent)
      is shown rendered, with its `clarifying_questions` (or none); no other
      key of the object, `open_questions` included, affects the page. */
  lemma AnalysisShown(env: Env, fields: map<string, JsonValue>)
    requires "error" !in fields
    requires "ticket_draft" in fields ==> fields["ticket_draft"].JString?
    requires "clarifying_questions" in fields ==> Iterable(fields["clarifying_questions"])
    ensures var draft := if "ticket_draft" in fields then fields["ticket_draft"].s else "";
            ApplyAnalysis(InitialView, JObject(fields), env) ==
              Success(ViewData("", "", env.renderMarkdown(draft),
                               GetOr(fields, "clarifying_questions", JArray([])), None))
  {
  }

  /** An error-free analysis whose text draft comes with questions that are
      a number, a boolean or null ends in a 500: the page cannot be rendered. */
  lemma UniterableQuestionsFail(config: Config, env: Env, form: map<string, string>, prompt: string)
    requires config.model.Some? && "user_story" in form && "context" in form
    requires PromptFor(form["user_story"], form["context"], form) == Success(prompt)
    requires var a := GetAiAnalysis(config, env, prompt);
             && a.JObject? && "error" !in a.fields
             && GetOr(a.fields, "ticket_draft", JString("")).JString?
             && "clarifying_questions" in a.fields && !Iterable(a.fields["clarifying_questions"])
    ensures Respond(config, env, Request(Post, form)) == ServerError(QuestionsNotIterable)
  {
  }

  /** `open_questions` is never read: adding or dropping it changes nothing. */
  lemma OpenQuestionsIgnored(env: Env, view: ViewData, fields: map<string, JsonValue>, v: JsonValue)
    ensures ApplyAnalysis(view, JObject(fields["open_questions" := v]), env)
         == ApplyAnalysis(view, JObject(fields - {"open_questions"}), env)
  {
    var f1, f2 := fields["open_questions" := v], fields - {"open_questions"};
    assert ("error" in f1) == ("error" in f2);
    assert GetOr(f1, "ticket_draft", JString("")) == GetOr(f2, "ticket_draft", JString(""));
    assert GetOr(f1, "clarifying_questions", JArray([])) == GetOr(f2, "clarifying_questions", JArray([]));
  }

  /** A reply fenced as "```json" + json + "```", whose json holds no backtick
      and parses to an error-free object, reaches the page just as the
      unfenced json would. */
  lemma FencedReplyShown(config: Config, env: Env, form: map<string, string>, prompt: string,
                         json: string, fields: map<string, JsonValue>)
    requires config.model.Some? && "user_story" in form && "context" in form
    requires PromptFor(form["user_story"], form["context"], form) == Success(prompt)
    requires config.model.value.generate(env.systemPrompt, prompt) == Replied(JsonFence + json + Fence)
    requires forall i :: 0 <= i < |json| ==> json[i] != '`'
    requires env.parseJson(json) == Success(JObject(fields))
    requires "error" !in fields
    requires "ticket_draft" in fields ==> fields["ticket_draft"].JString?
    requires "clarifying_questions" in fields ==> Iterable(fields["clarifying_questions"])
    ensures var draft := if "ticket_draft" in fields then fields["ticket_draft"].s else "";
            Respond(config, env, Request(Post, form)) ==
              Page(ViewData(form["user_story"], form["context"], env.renderMarkdown(draft),
                            GetOr(fields, "clarifying_questions", JArray([])), None))
  {
    CleanUnwrapsFencedReply(json);
    AnalysisShown(env, fields);
  }

  /** The form a rendered page submits next: the story and context as the
      user edited them, the context the page showed as `previous_context`,
      the page's questions, and what was typed into each answer field. */
  function NextSubmission(view: ViewData, questions: seq<string>, userStory: string, context: string,
                          answers: seq<string>): (req: Request)
    requires QuestionTexts(view.clarifyingQuestions) == Some(questions)
    requires |answers| == |questions|
    ensures req.verb == Post
    ensures CarriesPairs(req.form, questions, answers)
    ensures "user_story" in req.form && req.form["user_story"] == userStory
    ensures "context" in req.form && req.form["context"] == context
  {
    Request(Post, SubmittedForm(userStory, context, view.context, questions, answers))
  }

  /** Submitting a page with every answer left blank sends the model exactly
      the prompt of a first submission of the story and context, and nothing
      else on the route depends on the form: the questions shown never reach
      the model unless answered. */
  lemma BlankAnswersAreFreshTurn(config: Config, env: Env, view: ViewData, questions: seq<string>,
                                 userStory: string, context: string)
    requires QuestionTexts(view.clarifyingQuestions) == Some(questions)
    ensures var next := NextSubmission(view, questions, userStory, context, Unanswered(|questions|));
            PromptFor(userStory, context, next.form) == Success(Header(userStory, context))
         == PromptFor(userStory, context, map["user_story" := userStory, "context" := context])
    ensures Respond(config, env, NextSubmission(view, questions, userStory, context, Unanswered(|questions|)))
         == Respond(config, env, Request(Post, map["user_story" := userStory, "context" := context]))
  {
    var firstTurn := map["user_story" := userStory, "context" := context];
    KeysDistinct(0, 0);
    PromptBareWithoutQuestions(userStory, context, firstTurn);
    BlankAnswersGiveBareHeader(userStory, context, view.context, questions);
  }
}
