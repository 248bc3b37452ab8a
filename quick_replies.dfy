/**
 * The quick-reply route (src/app/api/chat/quick-replies/route.ts): the
 * transcript of the last twelve turns, the prompt built from it, and the
 * filtering of the model's answer down to at most four strings.
 */
module QuickReplies {
  import opened Wrappers
  import opened JsText
  import opened ChatApi

  /** How many of the latest turns reach the prompt. */
  const Window: nat := 12

  /** How many suggestions are returned at most. */
  const MaxSuggestions: nat := 4

  const SystemPrompt: string :=
    "You are a concise assistant that suggests short, natural Korean quick replies (1 short sentence or phrase each). Return only a JSON array of 3-4 strings, no extra text."

  /** `${m.sender === 'me' ? 'User' : 'Other'}: ${m.text}` */
  function Line(t: Turn): string {
    (if t.sender == "me" then "User" else "Other") + ": " + t.text
  }

  const PromptIntro: string := "Recent chat:\n"
  const PromptOutro: string :=
    "\n\nGenerate 3-4 short, natural Korean quick replies that the user might send next. Output JSON array only."

  /** The user message sent to the model: the transcript, whole, between a fixed intro and outro. */
  function UserPrompt(chatText: string): (r: string)
    ensures |r| == |PromptIntro| + |chatText| + |PromptOutro|
    ensures StartsWith(r, PromptIntro) && r[|r| - |PromptOutro|..] == PromptOutro
    ensures r[|PromptIntro|..|r| - |PromptOutro|] == chatText
  {
    PromptIntro + chatText + PromptOutro
  }

  /** `content?.trim() || '[]'`: a missing or blank answer stands for an empty array. */
  function Content(content: Option<string>): (r: string)
    ensures r != ""
    ensures content.Some? && !AllWhiteSpace(content.value) ==> r == Trim(content.value)
    ensures content.None? || AllWhiteSpace(content.value) ==> r == "[]"
  {
    match content
    case None => "[]"
    case Some(c) =>
      TrimBlank(c);
      if Trim(c) != [] then Trim(c) else "[]"
  }

  /** `items.filter((s) => typeof s === 'string')` */
  function StringsOf(items: seq<Json>): (r: seq<string>)
    ensures |r| <= |items|
  {
    if items == [] then []
    else
      var last := items[|items| - 1];
      StringsOf(items[..|items| - 1]) + if last.JString? then [last.s] else []
  }

  /** The filter keeps exactly the strings of the array. */
  lemma {:induction false} StringsOfMembers(items: seq<Json>, s: string)
    ensures s in StringsOf(items) <==> JString(s) in items
  {
    if items != [] {
      var n := |items| - 1;
      StringsOfMembers(items[..n], s);
      assert items == items[..n] + [items[n]];
    }
  }

  /** The filter keeps the order of the strings: one more element adds at most one string, at the end. */
  lemma StringsOfSnoc(items: seq<Json>, x: Json)
    ensures StringsOf(items + [x]) == StringsOf(items) + if x.JString? then [x.s] else []
  {
    assert (items + [x])[..|items|] == items;
  }

  /** `xs.slice(0, n)` */
  function TakeFirst(xs: seq<string>, n: nat): (r: seq<string>)
    ensures |r| == if |xs| < n then |xs| else n
    ensures r == xs[..|r|]
  {
    if |xs| <= n then xs else xs[..n]
  }

  /**
   * The suggestions made of an answer, `JSON.parse` being `parse` (None when
   * it throws): the first four strings of a parsed array, or none at all.
   */
  function Suggestions(content: string, parse: string -> Option<Json>): (r: seq<string>)
    ensures |r| <= MaxSuggestions
    ensures !(parse(content).Some? && parse(content).value.JArray?) ==> r == []
  {
    match parse(content)
    case Some(JArray(items)) => TakeFirst(StringsOf(items), MaxSuggestions)
    case _ => []
  }

  /** Every suggestion is a string of the parsed array, and they come in the array's order. */
  lemma SuggestionsFromArray(content: string, parse: string -> Option<Json>, items: seq<Json>)
    requires parse(content) == Some(JArray(items))
    ensures Suggestions(content, parse) == StringsOf(items)[..|Suggestions(content, parse)|]
    ensures forall s :: s in Suggestions(content, parse) ==> JString(s) in items
    ensures |StringsOf(items)| >= MaxSuggestions ==> |Suggestions(content, parse)| == MaxSuggestions
  {
    forall s | s in Suggestions(content, parse) ensures JString(s) in items {
      StringsOfMembers(items, s);
    }
  }

  /** The JSON answer of the route. */
  datatype Reply = ErrorReply(status: nat, error: string) | SuggestionsReply(suggestions: seq<string>)

  /** The text of the route's catch: the model call threw, or the body could not be read. */
  const FailureText: string := "Failed to generate quick replies"

  /** The early answer for a request the checks refuse. */
  function RequestErrorReply(e: RequestError): Reply {
    ErrorReply(ErrorStatus(e), ErrorText(e, FailureText))
  }

  /** The prompt sent for a non-empty list of turns. */
  function PromptFor(turns: seq<Turn>): Prompt {
    Prompt(SystemPrompt, UserPrompt(Transcript(turns, Window, Line)))
  }

  /**
   * `POST /api/chat/quick-replies`. `complete` is the model call and `parse`
   * is `JSON.parse`.
   */
  function Post(apiKey: Option<string>, body: RequestBody, complete: Prompt -> Completion,
                parse: string -> Option<Json>): (r: Reply)
    ensures CheckRequest(apiKey, body).Failure? ==> r == RequestErrorReply(CheckRequest(apiKey, body).error)
    ensures CheckRequest(apiKey, body).Success? && complete(PromptFor(CheckRequest(apiKey, body).value)).Threw? ==>
      r == ErrorReply(500, FailureText)
    ensures CheckRequest(apiKey, body).Success? && complete(PromptFor(CheckRequest(apiKey, body).value)).Answered? ==>
      r == SuggestionsReply(Suggestions(Content(complete(PromptFor(CheckRequest(apiKey, body).value)).content), parse))
    ensures r.SuggestionsReply? ==> |r.suggestions| <= MaxSuggestions
  {
    match CheckRequest(apiKey, body)
    case Failure(e) => RequestErrorReply(e)
    case Success(turns) =>
      match complete(PromptFor(turns))
      case Threw => ErrorReply(500, FailureText)
      case Answered(content) => SuggestionsReply(Suggestions(Content(content), parse))
  }

  /** Only the last twelve turns matter: earlier ones change neither the prompt nor the reply. */
  lemma PostUsesLastTwelve(apiKey: Option<string>, earlier: seq<Turn>, turns: seq<Turn>,
                           complete: Prompt -> Completion, parse: string -> Option<Json>)
    requires |turns| >= Window
    ensures Post(apiKey, Some(Turns(earlier + turns)), complete, parse)
         == Post(apiKey, Some(Turns(turns)), complete, parse)
  {
    TranscriptWindow(earlier, turns, Window, Line);
  }

  /**
   * A model that answers nothing, or only white space, yields an empty list
   * of suggestions (given that `JSON.parse('[]')` is the empty array).
   */
  lemma BlankAnswerNoSuggestions(apiKey: Option<string>, body: RequestBody, complete: Prompt -> Completion,
                                 parse: string -> Option<Json>)
    requires parse("[]") == Some(JArray([]))
    requires CheckRequest(apiKey, body).Success?
    requires complete(PromptFor(CheckRequest(apiKey, body).value)).Answered?
    requires var content := complete(PromptFor(CheckRequest(apiKey, body).value)).content;
      content.None? || AllWhiteSpace(content.value)
    ensures Post(apiKey, body, complete, parse) == SuggestionsReply([])
  {
  }
}
