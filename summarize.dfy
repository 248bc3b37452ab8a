/**
 * The chat summary route (src/app/api/chat/summarize/route.ts): the
 * transcript of the last fifty turns with speaker labels, and the trimming of
 * the model's answer.
 */
module Summarize {
  import opened Wrappers
  import opened JsText
  import opened ChatApi

  /** How many of the latest turns reach the prompt. */
  const Window: nat := 50

  const SystemPrompt: string :=
    "You are a helpful assistant that summarizes Korean chats briefly. Keep it concise and clear, 1-2 sentences."

  const PromptIntro: string :=
    "다음 대화의 맥락을 한국어로 1-2문장으로 간단히 요약해 주세요. 핵심 주제, 결정 사항, 다음 액션이 있다면 포함해 주세요.\n\n"

  /**
   * `m.username ?? (m.sender === 'me' ? '나' : '상대')`: a present username is
   * used as it is, even when empty.
   */
  function Label(t: Turn): (r: string)
    ensures t.username.Some? ==> r == t.username.value
    ensures t.username.None? && t.sender == "me" ==> r == "나"
    ensures t.username.None? && t.sender != "me" ==> r == "상대"
  {
    match t.username
    case Some(name) => name
    case None => if t.sender == "me" then "나" else "상대"
  }

  /** `${label}: ${m.text}` */
  function Line(t: Turn): string {
    Label(t) + ": " + t.text
  }

  /** A line starts with the speaker's label, and ends with the text. */
  lemma LineShape(t: Turn)
    ensures StartsWith(Line(t), Label(t) + ": ")
    ensures Line(t)[|Label(t)| + 2..] == t.text
  {
  }

  /** The user message: the fixed instruction followed by the transcript. */
  function UserPrompt(text: string): (r: string)
    ensures StartsWith(r, PromptIntro) && r[|PromptIntro|..] == text
  {
    PromptIntro + text
  }

  /** `content?.trim() ?? ''` */
  function SummaryOf(content: Option<string>): (r: string)
    ensures content.None? ==> r == ""
    ensures content.Some? ==> r == Trim(content.value) && |r| <= |content.value|
  {
    match content
    case None => ""
    case Some(c) => Trim(c)
  }

  /** The summary never starts or ends with white space, and is empty exactly when the answer is blank. */
  lemma SummaryTrimmed(content: Option<string>)
    ensures var r := SummaryOf(content);
      r == [] || (!IsWhiteSpace(r[0]) && !IsWhiteSpace(r[|r| - 1]))
    ensures SummaryOf(content) == [] <==> content.None? || AllWhiteSpace(content.value)
  {
    if content.Some? {
      var _ := TrimShape(content.value);
      TrimBlank(content.value);
    }
  }

  /** The JSON answer of the route. */
  datatype Reply = ErrorReply(status: nat, error: string) | SummaryReply(summary: string)

  /** The text of the route's catch: the model call threw, or the body could not be read. */
  const FailureText: string := "Failed to summarize chat"

  /** The early answer for a request the checks refuse. */
  function RequestErrorReply(e: RequestError): Reply {
    ErrorReply(ErrorStatus(e), ErrorText(e, FailureText))
  }

  /** The prompt sent for a non-empty list of turns. */
  function PromptFor(turns: seq<Turn>): Prompt {
    Prompt(SystemPrompt, UserPrompt(Transcript(turns, Window, Line)))
  }

  /** `POST /api/chat/summarize`. `complete` is the model call. */
  function Post(apiKey: Option<string>, body: RequestBody, complete: Prompt -> Completion): (r: Reply)
    ensures CheckRequest(apiKey, body).Failure? ==> r == RequestErrorReply(CheckRequest(apiKey, body).error)
    ensures CheckRequest(apiKey, body).Success? ==>
      var answer := complete(PromptFor(CheckRequest(apiKey, body).value));
      r == if answer.Threw? then ErrorReply(500, FailureText) else SummaryReply(SummaryOf(answer.content))
  {
    match CheckRequest(apiKey, body)
    case Failure(e) => RequestErrorReply(e)
    case Success(turns) =>
      match complete(PromptFor(turns))
      case Threw => ErrorReply(500, FailureText)
      case Answered(content) => SummaryReply(SummaryOf(content))
  }

  /** Only the last fifty turns matter: earlier ones change neither the prompt nor the reply. */
  lemma PostUsesLastFifty(apiKey: Option<string>, earlier: seq<Turn>, turns: seq<Turn>, complete: Prompt -> Completion)
    requires |turns| >= Window
    ensures Post(apiKey, Some(Turns(earlier + turns)), complete) == Post(apiKey, Some(Turns(turns)), complete)
  {
    TranscriptWindow(earlier, turns, Window, Line);
  }
}
