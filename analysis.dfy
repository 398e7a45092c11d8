/** `get_ai_analysis` (app.py:131-138): one call of the generative model with
    the fixed instruction text and the composed prompt, fence removal on the
    reply, JSON parsing, and every failure turned into an `{"error": ...}`
    object. The model, the JSON parser and the other libraries are given as
    function values; the model itself as a value fixed at start-up
    (app.py:9-13). */
module Analysis {
  import opened Wrappers
  import opened Text
  import opened Json

  /** What one `model.generate_content(...)` call and its `.text` yield: the
      reply text, or the message of the exception raised. */
  datatype CallResult = Replied(text: string) | Raised(message: string)

  /** A configured model: the call made with the instruction text and the
      prompt, in that order. */
  datatype Model = Model(generate: (string, string) -> CallResult)

  /** The process-wide setting made once at start-up: `model` is None when
      no credential was found. */
  datatype Config = Config(model: Option<Model>)

  /** The libraries and constant text the core uses but does not define: the
      fixed instruction text `SYSTEM_PROMPT`, `json.loads` (the message of its
      exception on failure), `markdown.markdown`, and `str()` of a non-text
      JSON value. */
  datatype Env = Env(
    systemPrompt: string,
    parseJson: string -> Result<JsonValue, string>,
    renderMarkdown: string -> string,
    display: JsonValue -> string)

  /** The environment variable read at start-up and the model requested. */
  const CredentialVariable := "GOOGLE_API_KEY"
  const ModelName := "gemini-2.5-pro"

  /** Start-up (app.py:9-13): with the credential present, `connect` stands
      for `genai.configure` and `GenerativeModel`; without it (the KeyError
      branch) there is no model. */
  function Initialize(environ: map<string, string>, connect: (string, string) -> Model): (c: Config)
    ensures c.model.None? <==> CredentialVariable !in environ
    ensures c.model.Some? ==> c.model.value == connect(environ[CredentialVariable], ModelName)
  {
    if CredentialVariable in environ then Config(Some(connect(environ[CredentialVariable], ModelName)))
    else Config(None)
  }

  const Fence := "```"
  const JsonFence := "```json"

  /** `response.text.strip().replace("```json", "").replace("```", "")`
      (app.py:135). */
  function Clean(raw: string): string {
    RemoveAll(RemoveAll(Strip(raw), JsonFence), Fence)
  }

  /** The dictionary `{"error": message}`. */
  function ErrorObject(message: string): JsonValue {
    JObject(map["error" := JString(message)])
  }

  /** The object carries an `"error"` key. */
  predicate HasErrorKey(v: JsonValue) {
    v.JObject? && "error" in v.fields
  }

  const NotConfiguredMessage := "API Key not configured."
  const ErrorPrefix := "An error occurred: "

  /** `get_ai_analysis(prompt)`: the parsed reply, or an error object. It
      never fails: each exception becomes an error object. */
  function GetAiAnalysis(config: Config, env: Env, prompt: string): JsonValue {
    match config.model
    case None => ErrorObject(NotConfiguredMessage)
    case Some(model) =>
      match model.generate(env.systemPrompt, prompt)
      case Raised(message) => ErrorObject(ErrorPrefix + message)
      case Replied(text) =>
        match env.parseJson(Clean(text))
        case Failure(message) => ErrorObject(ErrorPrefix + message)
        case Success(value) => value
  }

  // ----- Fence removal -----

  /** One pass of `replace("```", "")` leaves no three backticks in a row:
      within each run of backticks the scan deletes whole triples from the
      left, so fewer than three of the run survive, and a kept character
      that is not a backtick separates the runs. */
  lemma {:induction false} FencesRemoved(t: string)
    ensures !Occurs(RemoveAll(t, Fence), Fence)
    decreases |t|
  {
    var r := RemoveAll(t, Fence);
    if |t| < 3 {
      assert |r| < 3;
    } else if t[..3] == Fence {
      FencesRemoved(t[3..]);
    } else {
      var u := t[1..];
      var tail := RemoveAll(u, Fence);
      FencesRemoved(u);
      assert r == [t[0]] + tail;
      HeadAfterRemoval(t);
      NoFenceAfterHead(t[0], tail);
    }
  }

  /** A kept head character that does not start a fence adds none. */
  lemma NoFenceAfterHead(c: char, tail: string)
    requires !Occurs(tail, Fence)
    requires var r := [c] + tail; !(|r| >= 3 && r[0] == '`' && r[1] == '`' && r[2] == '`')
    ensures !Occurs([c] + tail, Fence)
  {
    var r := [c] + tail;
    forall i | 0 < i && OccursAt(r, Fence, i)
      ensures OccursAt(tail, Fence, i - 1)
    {
      SliceShift(c, tail, i - 1, 3);
    }
  }

  lemma SliceShift(c: char, s: string, i: int, n: int)
    requires 0 <= i && 0 <= n && i + n <= |s|
    ensures ([c] + s)[i + 1..i + 1 + n] == s[i..i + n]
  {
  }

  /** When `t` does not start with a fence, the text left after removing the
      fences from `t` does not start with three backticks. */
  lemma HeadAfterRemoval(t: string)
    requires |t| >= 3 && t[..3] != Fence
    ensures var r := RemoveAll(t, Fence);
            !(|r| >= 3 && r[0] == '`' && r[1] == '`' && r[2] == '`')
  {
    var u := t[1..];
    assert RemoveAll(t, Fence) == [t[0]] + RemoveAll(u, Fence);
    if t[0] == '`' {
      if t[1] != '`' {
        RemoveAllKeepsHead(u, Fence);
      } else {
        assert t[2] != '`';
        var w := u[1..];
        if |u| >= 3 {
          assert u[..3][1] == t[2];
          assert u[..3] != Fence;
          assert RemoveAll(u, Fence) == [u[0]] + RemoveAll(w, Fence);
          RemoveAllKeepsHead(w, Fence);
        }
      }
    }
  }

  /** The cleaned reply never contains three backticks in a row. */
  lemma CleanLeavesNoFence(raw: string)
    ensures !Occurs(Clean(raw), Fence)
  {
    FencesRemoved(RemoveAll(Strip(raw), JsonFence));
  }

  /** A reply without any fence is only stripped of surrounding whitespace. */
  lemma CleanWithoutFencesIsStrip(raw: string)
    requires !Occurs(raw, Fence)
    ensures Clean(raw) == Strip(raw)
  {
    var b := StripBounds(raw);
    OccursInSlice(raw, b.0, b.1, Fence);
    var s := Strip(raw);
    assert !Occurs(s, Fence);
    if Occurs(s, JsonFence) {
      OccursPrefixOfPattern(s, JsonFence, Fence);
    }
    RemoveAllAbsent(s, JsonFence);
    RemoveAllAbsent(s, Fence);
  }

  /** A reply fenced as "```json" + inner + "```" gives back `inner` when
      `inner` holds no backtick. Stripping runs before the fences go, so the
      newlines right inside the fences stay. */
  lemma CleanUnwrapsFencedReply(inner: string)
    requires forall i :: 0 <= i < |inner| ==> inner[i] != '`'
    ensures Clean(JsonFence + inner + Fence) == inner
  {
    var raw := JsonFence + inner + Fence;
    StripUnpadded(raw);
    assert raw[..7] == JsonFence;
    assert raw[7..] == inner + Fence;
    assert RemoveAll(raw, JsonFence) == RemoveAll(inner + Fence, JsonFence);
    RemoveAllPlainPrefix(inner, Fence, JsonFence);
    assert RemoveAll(Fence, JsonFence) == Fence;
    RemoveAllPlainPrefix(inner, Fence, Fence);
    assert Fence[3..] == "";
    assert RemoveAll(Fence, Fence) == "";
    assert inner + "" == inner;
  }

  /** Only the "json" tag is removed with the opening fence: a reply fenced
      with any other language tag keeps that tag in front of its body. */
  lemma CleanKeepsOtherLanguageTag(tag: string, body: string)
    requires |tag| > 0 && tag[0] != 'j'
    requires forall i :: 0 <= i < |tag + body| ==> (tag + body)[i] != '`'
    ensures Clean(Fence + (tag + body) + Fence) == tag + body
  {
    var w := tag + body;
    var raw := Fence + w + Fence;
    StripUnpadded(raw);
    NoJsonFenceInFencedText(w);
    RemoveAllAbsent(raw, JsonFence);
    RemoveFencePair(w);
  }

  /** "```json" cannot occur in a text fenced with "```" whose body has no
      backtick and does not start with 'j'. */
  lemma NoJsonFenceInFencedText(w: string)
    requires |w| > 0 && w[0] != 'j'
    requires forall i :: 0 <= i < |w| ==> w[i] != '`'
    ensures !Occurs(Fence + w + Fence, JsonFence)
  {
    var raw := Fence + w + Fence;
    assert forall k :: 3 <= k < 3 + |w| ==> raw[k] == w[k - 3];
    forall i | 0 <= i < |raw|
      ensures !OccursAt(raw, JsonFence, i)
    {
      if i + 7 <= |raw| {
        var window := raw[i..i + 7];
        if i == 0 {
          assert window[3] == w[0] && JsonFence[3] == 'j';
        } else if i < 3 {
          assert window[3 - i] == w[0] && JsonFence[3 - i] == '`';
        } else {
          assert window[0] == w[i - 3] && JsonFence[0] == '`';
        }
        assert window != JsonFence;
      }
    }
  }

  /** Removing "```" from a fenced text with no backtick inside keeps the body. */
  lemma RemoveFencePair(w: string)
    requires forall i :: 0 <= i < |w| ==> w[i] != '`'
    ensures RemoveAll(Fence + w + Fence, Fence) == w
  {
    assert Fence + w + Fence == Fence + (w + Fence);
    RemoveAllLeadingMatch(Fence, w + Fence);
    RemoveAllPlainPrefix(w, Fence, Fence);
    RemoveAllLeadingMatch(Fence, "");
    assert Fence + "" == Fence;
    assert w + "" == w;
  }

  /** Cleaning twice differs from cleaning once: a fenced reply whose JSON
      sits on its own line cleans to that line with its newlines, and only a
      second cleaning would strip them. */
  lemma CleanNotIdempotent(body: string)
    requires |body| > 0 && !IsSpace(body[0]) && !IsSpace(body[|body| - 1])
    requires forall i :: 0 <= i < |body| ==> body[i] != '`'
    ensures Clean(JsonFence + ("\n" + body + "\n") + Fence) == "\n" + body + "\n"
    ensures Clean("\n" + body + "\n") == body
  {
    var inner := "\n" + body + "\n";
    assert forall i :: 0 <= i < |inner| ==> inner[i] == '\n' || inner[i] == body[i - 1];
    CleanUnwrapsFencedReply(inner);
    StripPadded("\n", body, "\n");
    RemovalsKeepBacktickFree(body);
  }

  lemma RemovalsKeepBacktickFree(body: string)
    requires forall i :: 0 <= i < |body| ==> body[i] != '`'
    ensures RemoveAll(RemoveAll(body, JsonFence), Fence) == body
  {
    RemoveAllPlainPrefix(body, "", JsonFence);
    RemoveAllPlainPrefix(body, "", Fence);
    assert body + "" == body;
  }

  // ----- Error wrapping -----

  /** Without a model the analysis is the fixed "not configured" error. */
  lemma UnconfiguredAnalysis(config: Config, env: Env, prompt: string)
    requires config.model.None?
    ensures GetAiAnalysis(config, env, prompt) == ErrorObject(NotConfiguredMessage)
  {
  }

  /** A raised call and a parse failure both become
      `{"error": "An error occurred: " + message}`. */
  lemma FailuresBecomeErrorObjects(config: Config, env: Env, prompt: string)
    requires config.model.Some?
    ensures var call := config.model.value.generate(env.systemPrompt, prompt);
            && (call.Raised? ==>
                 GetAiAnalysis(config, env, prompt) == ErrorObject(ErrorPrefix + call.message))
            && (call.Replied? && env.parseJson(Clean(call.text)).Failure? ==>
                 GetAiAnalysis(config, env, prompt) ==
                 ErrorObject(ErrorPrefix + env.parseJson(Clean(call.text)).error))
  {
  }

  /** Conversely, an analysis without an `"error"` key is exactly what the
      parser made of the cleaned reply to the instruction text and prompt. */
  lemma CleanAnalysisComesFromReply(config: Config, env: Env, prompt: string)
    requires !HasErrorKey(GetAiAnalysis(config, env, prompt))
    ensures config.model.Some?
    ensures var call := config.model.value.generate(env.systemPrompt, prompt);
            call.Replied? && env.parseJson(Clean(call.text)) == Success(GetAiAnalysis(config, env, prompt))
  {
  }
}
