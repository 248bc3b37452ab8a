/**
 * What the two chat-assistant routes (src/app/api/chat/quick-replies/route.ts
 * and src/app/api/chat/summarize/route.ts) share: the request body they read,
 * the checks they make before calling the language model, and the shape of
 * the model's answer. The environment's API key, the parsed request body, the
 * model's completion and `JSON.parse` are supplied by the caller.
 */
module ChatApi {
  import opened Wrappers
  import opened JsText

  /** One element of `messages`: `sender`, the optional `username` and `text`. */
  datatype Turn = Turn(sender: string, username: Option<string>, text: string)

  /** The `messages` property of the body: an array, or anything else (absent included). */
  datatype MessagesField = NotAnArray | Turns(turns: seq<Turn>)

  /**
   * The body as the route reads it: None when `await req.json()` throws or
   * when destructuring `{ messages }` from its value throws (a `null` body).
   */
  type RequestBody = Option<MessagesField>

  /** The two messages sent to the model. */
  datatype Prompt = Prompt(system: string, user: string)

  /**
   * The model call: Threw when it throws, otherwise
   * `response.choices?.[0]?.message?.content` (None when absent or null).
   */
  datatype Completion = Threw | Answered(content: Option<string>)

  /** The JSON values `JSON.parse` can produce, as far as the routes tell them apart. */
  datatype Json = JString(s: string) | JArray(items: seq<Json>) | JOther

  /** Why a request was answered before the model was asked. */
  datatype RequestError = MissingKey | UnreadableBody | NoMessages

  /** `!process.env.OPENAI_API_KEY`: the key is unset or empty. */
  predicate KeyMissing(apiKey: Option<string>) {
    apiKey.None? || apiKey.value == ""
  }

  /**
   * The checks both routes make, in order: the API key, then reading the body,
   * then `!Array.isArray(messages) || messages.length === 0`. On success the
   * turns are returned.
   */
  function CheckRequest(apiKey: Option<string>, body: RequestBody): (r: Result<seq<Turn>, RequestError>)
    ensures r == Failure(MissingKey) <==> KeyMissing(apiKey)
    ensures r == Failure(UnreadableBody) <==> !KeyMissing(apiKey) && body.None?
    ensures r == Failure(NoMessages) <==>
      !KeyMissing(apiKey) && body.Some? && (body.value.NotAnArray? || body.value.turns == [])
    ensures r.Success? ==> r.value != [] && body == Some(Turns(r.value))
  {
    if KeyMissing(apiKey) then Failure(MissingKey)
    else if body.None? then Failure(UnreadableBody)
    else if body.value.NotAnArray? || |body.value.turns| == 0 then Failure(NoMessages)
    else Success(body.value.turns)
  }

  /** A missing key is reported whatever the body holds: the body is not read. */
  lemma MissingKeyIgnoresBody(apiKey: Option<string>, body1: RequestBody, body2: RequestBody)
    requires KeyMissing(apiKey)
    ensures CheckRequest(apiKey, body1) == CheckRequest(apiKey, body2) == Failure(MissingKey)
  {
  }

  /**
   * The `error` text of each early answer. An unreadable body throws and
   * lands in the route's own catch, whose text is `failure`.
   */
  function ErrorText(e: RequestError, failure: string): string {
    match e
    case MissingKey => "Server missing OPENAI_API_KEY"
    case UnreadableBody => failure
    case NoMessages => "messages array is required"
  }

  /** HTTP status of each early answer. */
  function ErrorStatus(e: RequestError): (status: nat)
    ensures status == 400 <==> e == NoMessages
    ensures status == 500 <==> e != NoMessages
  {
    match e
    case MissingKey => 500
    case UnreadableBody => 500
    case NoMessages => 400
  }

  /** `turns.map(line)` */
  function Lines(turns: seq<Turn>, line: Turn -> string): (r: seq<string>)
    ensures |r| == |turns|
    ensures forall k :: 0 <= k < |turns| ==> r[k] == line(turns[k])
  {
    if turns == [] then [] else Lines(turns[..|turns| - 1], line) + [line(turns[|turns| - 1])]
  }

  /**
   * The `messages.slice(-n).map(line).join('\n')` transcript for a line format:
   * empty without turns, otherwise ending with the line of the last turn.
   */
  function Transcript(turns: seq<Turn>, window: nat, line: Turn -> string): (r: string)
    requires window > 0
    ensures turns == [] ==> r == ""
    ensures turns != [] ==> var last := line(turns[|turns| - 1]); |last| <= |r| && r[|r| - |last|..] == last
  {
    var recent := TakeLast(turns, window);
    assert turns != [] ==> recent[|recent| - 1] == turns[|turns| - 1] by {
      if turns != [] {
        assert turns[|turns| - 1] == (turns[..|turns| - |recent|] + recent)[|turns| - 1];
      }
    }
    Join(Lines(recent, line), "\n")
  }

  /** Turns before the last `window` do not reach the transcript. */
  lemma TranscriptWindow(earlier: seq<Turn>, turns: seq<Turn>, window: nat, line: Turn -> string)
    requires window > 0 && |turns| >= window
    ensures Transcript(earlier + turns, window, line) == Transcript(turns, window, line)
  {
    var all := earlier + turns;
    assert TakeLast(all, window) == all[|all| - window..];
    assert all[|all| - window..] == turns[|turns| - window..];
  }

  /** One more turn adds one more line, after a newline (a single turn is the line alone). */
  lemma TranscriptSnoc(turns: seq<Turn>, t: Turn, window: nat, line: Turn -> string)
    requires window > 0 && |turns| + 1 <= window
    ensures turns == [] ==> Transcript(turns + [t], window, line) == line(t)
    ensures turns != [] ==>
      Transcript(turns + [t], window, line) == Transcript(turns, window, line) + "\n" + line(t)
  {
    var all := turns + [t];
    assert all[..|turns|] == turns;
    assert Lines(all, line) == Lines(turns, line) + [line(t)];
    if turns != [] {
      JoinSnoc(Lines(turns, line), line(t), "\n");
    }
  }
}
