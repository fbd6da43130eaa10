/** The `generate-slides` edge function (supabase/functions/generate-slides/index.ts): request
    validation, the call to the AI gateway, the mapping of its outcome to a status and a JSON
    body, and the cleaning of markdown fences from the model's reply.

    The handler is a pure function here. What it awaits is an input: the request body as
    `req.json()` delivers it, the environment's API key, the gateway's outcome and `JSON.parse`
    (a function from text to an optional value). Its result records whether the gateway was
    called at all. */
module GenerateSlides {
  import opened Options
  import opened JsText
  import opened JsNumber
  import opened Json

  const CorsHeaders: map<string, string> := map[
    "Access-Control-Allow-Origin" := "*",
    "Access-Control-Allow-Headers" := "authorization, x-client-info, apikey, content-type, x-supabase-client-platform, x-supabase-client-platform-version, x-supabase-client-runtime, x-supabase-client-runtime-version"
  ]

  const JsonHeaders: map<string, string> := CorsHeaders["Content-Type" := "application/json"]

  const MissingFieldsMessage := "Missing 'day' or 'answers' field"
  const ApiKeyMessage := "LOVABLE_API_KEY is not configured"
  const RateLimitMessage := "Rate limit exceeded. Please try again in a moment."
  const CreditsMessage := "AI usage limit reached. Please add credits."
  const GenerationFailedMessage := "AI generation failed"
  const NoContentMessage := "No content returned from AI"
  const ParseFailureMessage := "Failed to parse AI response"

  /** The keys of `DAY_PROMPTS`; the prompt texts themselves play no part in any decision. */
  const DayKeys: set<string> := {"1", "2", "3"}

  function InvalidDayMessage(key: string): string {
    "Invalid day: " + key + ". Must be 1, 2, or 3."
  }

  /** What `req.json()` yields: a value, or a rejection with its message. */
  datatype RequestBody = Unreadable(message: string) | Parsed(value: JsonValue)

  datatype Request = Request(httpMethod: string, body: RequestBody)

  /** What the gateway `fetch` yields: a rejection, or a status with a body that `response.json()`
      either reads or fails on. */
  datatype Reply = ReplyUnreadable(message: string) | ReplyJson(value: JsonValue)
  datatype Upstream = FetchThrew(message: string) | Replied(status: int, reply: Reply)

  datatype Env = Env(
    apiKey: Option<string>,
    upstream: Upstream,
    parseJson: string -> Option<JsonValue>)

  /** The TypeErrors the runtime raises on its own; their message text is the engine's. */
  datatype TypeErrorCause = NullRequestBody | NullReply | Unconvertible

  /** The JSON body of a response. */
  datatype Body =
    | NoBody
    | ErrorBody(error: string)
    | TypeErrorBody(cause: TypeErrorCause)
    | ParseFailureBody(error: string, raw: JsonValue)
    | SuccessBody(day: JsonValue, data: JsonValue)

  datatype Response = Response(status: int, body: Body, headers: map<string, string>)

  datatype Handled = Handled(response: Response, upstreamCalled: bool)

  /** One pass of `s.replace(/<tok>\n?/g, "")`: every leftmost occurrence of `tok` is removed
      together with one newline right after it, if there is one. */
  function RemoveToken(s: string, tok: string): (r: string)
    requires tok != []
    ensures |r| <= |s|
    ensures |tok| <= |s| && s[..|tok|] == tok ==> |r| <= |s| - |tok|
    ensures tok[0] == '`' && NoBacktick(s) ==> r == s
    decreases |s|
  {
    if |tok| <= |s| && s[..|tok|] == tok then
      var rest := s[|tok|..];
      RemoveToken(if rest != [] && rest[0] == '\n' then rest[1..] else rest, tok)
    else if s == [] then []
    else [s[0]] + RemoveToken(s[1..], tok)
  }

  const Fence := "```"

  /** Line 205: drop every "```json" fence, then every "```" fence, then trim. The cleaned
      reply holds no fence, whatever the model sent, and has no white space at either end. */
  function CleanFences(content: string): (r: string)
    ensures !HasFence(r)
    ensures r != [] ==> !IsSpace(r[0]) && !IsSpace(r[|r| - 1])
  {
    var u := RemoveToken(RemoveToken(content, "```json"), Fence);
    RemoveFenceNoFence(RemoveToken(content, "```json"));
    TrimKeepsNoFence(u);
    Trim(u)
  }

  /** Three backticks in a row start at index `i` of `s`. */
  predicate FenceAt(s: string, i: int) {
    0 <= i && i + 3 <= |s| && s[i] == '`' && s[i + 1] == '`' && s[i + 2] == '`'
  }

  predicate HasFence(s: string) {
    exists i :: 0 <= i < |s| && FenceAt(s, i)
  }

  predicate NoBacktick(s: string) { forall i :: 0 <= i < |s| ==> s[i] != '`' }

  /** The text that reaches the gateway for this request, or the reason it never does. */
  predicate RequestAccepted(req: Request, strictDays: bool) {
    req.httpMethod != "OPTIONS" && req.body.Parsed?
    && var v := req.body.value;
    v != JNull && v != JUndefined
    && Truthy(Property(v, "day")) && Truthy(Property(v, "answers"))
    && StringOf(Property(v, "day")).Some?
    && DayAccepted(StringOf(Property(v, "day")).value, strictDays)
  }

  /** The `DAY_PROMPTS[day]` truthiness test. As written it is a plain object lookup and so also
      accepts every inherited `Object.prototype` name; the strict test accepts only 1, 2 and 3. */
  predicate DayAccepted(key: string, strictDays: bool): (accepted: bool)
    ensures strictDays ==> (accepted <==> key == "1" || key == "2" || key == "3")
    ensures key in DayKeys ==> accepted
    ensures !strictDays ==> (accepted <==> key in DayKeys || key in ObjectPrototypeNames)
  {
    key in DayKeys || (!strictDays && key in ObjectPrototypeNames)
  }

  predicate ApiKeyPresent(env: Env) {
    env.apiKey.Some? && env.apiKey.value != ""
  }

  function Reject(status: int, body: Body): Handled {
    Handled(Response(status, body, JsonHeaders), false)
  }

  /** The handler (lines 121-225), with the day test as written (`strictDays` false) or as
      intended (true). */
  function Respond(req: Request, env: Env, strictDays: bool): (h: Handled)
    // a preflight gets the CORS headers, no body, and nothing else happens
    ensures req.httpMethod == "OPTIONS" ==> h == Handled(Response(200, NoBody, CorsHeaders), false)
    ensures req.httpMethod != "OPTIONS" ==> h.response.headers == JsonHeaders
    // the gateway is called exactly for a well-formed request with a configured key
    ensures h.upstreamCalled <==> RequestAccepted(req, strictDays) && ApiKeyPresent(env)
                                  && StringOf(Property(req.body.value, "answers")).Some?
    ensures h.response.status in {200, 400, 402, 429, 500}
    // a well-formed request that is turned away names what was wrong
    ensures RequestAccepted(req, strictDays) && !ApiKeyPresent(env) ==>
              h.response == Response(500, ErrorBody(ApiKeyMessage), JsonHeaders)
    // a body that `req.json()` rejects is caught and answered with its message
    ensures req.httpMethod != "OPTIONS" && req.body.Unreadable? ==>
              h == Handled(Response(500, ErrorBody(req.body.message), JsonHeaders), false)
  {
    if req.httpMethod == "OPTIONS" then Handled(Response(200, NoBody, CorsHeaders), false)
    else match req.body
      case Unreadable(msg) => Reject(500, ErrorBody(msg))
      case Parsed(v) =>
        if v == JNull || v == JUndefined then Reject(500, TypeErrorBody(NullRequestBody))
        else
          var day := Property(v, "day");
          var answers := Property(v, "answers");
          if !Truthy(day) || !Truthy(answers) then Reject(400, ErrorBody(MissingFieldsMessage))
          else match StringOf(day)
            case None => Reject(500, TypeErrorBody(Unconvertible))
            case Some(key) =>
              if !DayAccepted(key, strictDays) then Reject(400, ErrorBody(InvalidDayMessage(key)))
              else if !ApiKeyPresent(env) then Reject(500, ErrorBody(ApiKeyMessage))
              // the user message interpolates `answers` before `fetch` is entered
              else if StringOf(answers).None? then Reject(500, TypeErrorBody(Unconvertible))
              else Handled(Response(AfterFetch(env, day).status, AfterFetch(env, day).body, JsonHeaders), true)
  }

  /** Everything from the gateway's outcome on (lines 170-217). */
  function AfterFetch(env: Env, day: JsonValue): (r: Response)
    ensures r.status in {200, 402, 429, 500}
    ensures r.status == 200 <==> r.body.SuccessBody?
    // a rejected `fetch`, and an ok reply that `response.json()` rejects, are caught and
    // answered with the error's message
    ensures env.upstream.FetchThrew? ==> r == Response(500, ErrorBody(env.upstream.message), JsonHeaders)
    ensures env.upstream.Replied? && 200 <= env.upstream.status <= 299 && env.upstream.reply.ReplyUnreadable? ==>
              r == Response(500, ErrorBody(env.upstream.reply.message), JsonHeaders)
  {
    match env.upstream
    case FetchThrew(msg) => Response(500, ErrorBody(msg), JsonHeaders)
    case Replied(status, reply) =>
      if !(200 <= status <= 299) then
        if status == 429 then Response(429, ErrorBody(RateLimitMessage), JsonHeaders)
        else if status == 402 then Response(402, ErrorBody(CreditsMessage), JsonHeaders)
        else Response(500, ErrorBody(GenerationFailedMessage), JsonHeaders)
      else match reply
        case ReplyUnreadable(msg) => Response(500, ErrorBody(msg), JsonHeaders)
        case ReplyJson(result) =>
          if result == JNull || result == JUndefined then Response(500, TypeErrorBody(NullReply), JsonHeaders)
          else
            var content := ReplyContent(result);
            if !Truthy(content) then Response(500, ErrorBody(NoContentMessage), JsonHeaders)
            // a non-string has no `replace`: the TypeError lands in the inner catch
            else if !content.JString? then Response(500, ParseFailureBody(ParseFailureMessage, content), JsonHeaders)
            else match env.parseJson(CleanFences(content.s))
              case None => Response(500, ParseFailureBody(ParseFailureMessage, content), JsonHeaders)
              case Some(data) => Response(200, SuccessBody(day, data), JsonHeaders)
  }

  /** `aiResult.choices?.[0]?.message?.content` for a non-null `aiResult`. */
  function ReplyContent(result: JsonValue): JsonValue {
    OptionalProperty(OptionalProperty(OptionalProperty(Property(result, "choices"), "0"), "message"), "content")
  }

  /** The corrected handler: its day test accepts only 1, 2 and 3. The handler as deployed is
      `HandleAsWritten`, whose plain object lookup also accepts inherited names. */
  function Handle(req: Request, env: Env): (h: Handled)
    // a preflight gets the CORS headers, no body, and nothing else happens
    ensures req.httpMethod == "OPTIONS" ==> h == Handled(Response(200, NoBody, CorsHeaders), false)
    ensures req.httpMethod != "OPTIONS" ==> h.response.headers == JsonHeaders
    // the gateway is called exactly for a well-formed request with a configured key
    ensures h.upstreamCalled <==> RequestAccepted(req, true) && ApiKeyPresent(env)
                                  && StringOf(Property(req.body.value, "answers")).Some?
    ensures h.upstreamCalled ==> StringOf(Property(req.body.value, "day")).value in DayKeys
    ensures h.response.status in {200, 400, 402, 429, 500}
  {
    Respond(req, env, true)
  }

  /** The JSON request body of a non-preflight request that `req.json()` could read. */
  predicate ReadBody(req: Request) {
    req.httpMethod != "OPTIONS" && req.body.Parsed? && req.body.value != JNull && req.body.value != JUndefined
  }

  /** A falsy `day` (0 included) or a falsy `answers` is a 400, before anything else is done. */
  lemma HandleMissingFields(req: Request, env: Env)
    requires ReadBody(req)
    requires !Truthy(Property(req.body.value, "day")) || !Truthy(Property(req.body.value, "answers"))
    ensures Handle(req, env) == Handled(Response(400, ErrorBody(MissingFieldsMessage), JsonHeaders), false)
  {
  }

  /** A day other than 1, 2 or 3 is a 400 naming the day as text, before anything else is done. */
  lemma HandleInvalidDay(req: Request, env: Env)
    requires ReadBody(req)
    requires Truthy(Property(req.body.value, "day")) && Truthy(Property(req.body.value, "answers"))
    requires StringOf(Property(req.body.value, "day")).Some?
    requires StringOf(Property(req.body.value, "day")).value !in DayKeys
    ensures Handle(req, env) == Handled(Response(400, ErrorBody(InvalidDayMessage(
              StringOf(Property(req.body.value, "day")).value)), JsonHeaders), false)
  {
  }

  /** A valid request without a configured key fails with the key's error message. */
  lemma HandleMissingApiKey(req: Request, env: Env)
    requires RequestAccepted(req, true) && !ApiKeyPresent(env)
    ensures Handle(req, env) == Handled(Response(500, ErrorBody(ApiKeyMessage), JsonHeaders), false)
  {
  }

  /** A gateway status outside 200-299: 429 and 402 are passed on with their own messages,
      anything else becomes a 500. */
  lemma HandleUpstreamStatus(req: Request, env: Env)
    requires Handle(req, env).upstreamCalled
    requires env.upstream.Replied? && !(200 <= env.upstream.status <= 299)
    ensures var r := Handle(req, env).response;
            var st := env.upstream.status;
            r.status == (if st == 429 || st == 402 then st else 500)
            && r.body == ErrorBody(if st == 429 then RateLimitMessage
                                   else if st == 402 then CreditsMessage
                                   else GenerationFailedMessage)
  {
  }

  /** An ok reply whose `choices[0].message.content` is missing or falsy is a 500. */
  lemma HandleNoContent(req: Request, env: Env)
    requires Handle(req, env).upstreamCalled
    requires env.upstream.Replied? && 200 <= env.upstream.status <= 299
    requires env.upstream.reply.ReplyJson?
    requires env.upstream.reply.value != JNull && env.upstream.reply.value != JUndefined
    requires !Truthy(ReplyContent(env.upstream.reply.value))
    ensures Handle(req, env).response == Response(500, ErrorBody(NoContentMessage), JsonHeaders)
  {
  }

  /** A parse failure carries the reply's content exactly as it came, before any cleaning. */
  lemma HandleParseFailureRaw(req: Request, env: Env)
    requires Handle(req, env).response.body.ParseFailureBody?
    ensures var r := Handle(req, env).response;
            r.status == 500 && r.body.error == ParseFailureMessage
            && env.upstream.Replied? && env.upstream.reply.ReplyJson?
            && r.body.raw == ReplyContent(env.upstream.reply.value) && Truthy(r.body.raw)
            && (r.body.raw.JString? ==> env.parseJson(CleanFences(r.body.raw.s)).None?)
  {
  }

  /** Success echoes the request's `day` and carries what `JSON.parse` made of the cleaned reply. */
  lemma HandleSuccess(req: Request, env: Env)
    requires req.httpMethod != "OPTIONS" && Handle(req, env).response.status == 200
    ensures Handle(req, env).upstreamCalled
    ensures var r := Handle(req, env).response;
            r.body.SuccessBody? && r.body.day == Property(req.body.value, "day")
            && env.upstream.Replied? && env.upstream.reply.ReplyJson?
            && ReplyContent(env.upstream.reply.value).JString?
            && env.parseJson(CleanFences(ReplyContent(env.upstream.reply.value).s)) == Some(r.body.data)
  {
  }

  /** The handler exactly as written: `DAY_PROMPTS[day]` is a plain object property lookup. */
  function HandleAsWritten(req: Request, env: Env): (h: Handled)
    ensures h.upstreamCalled <==> RequestAccepted(req, false) && ApiKeyPresent(env)
                                  && StringOf(Property(req.body.value, "answers")).Some?
  {
    Respond(req, env, false)
  }

  /** The two handlers differ only on days named after `Object.prototype` members. */
  lemma AsWrittenDiffersOnlyOnPrototypeNames(req: Request, env: Env)
    requires Handle(req, env) != HandleAsWritten(req, env)
    ensures req.body.Parsed?
    ensures StringOf(Property(req.body.value, "day")).Some?
    ensures StringOf(Property(req.body.value, "day")).value in ObjectPrototypeNames
  {
  }

  /** `{"day": "constructor", "answers": "x"}` passes the day test as written: with a key set,
      the gateway is called. Its system prompt is then the inherited `Object` function, which
      `JSON.stringify` leaves out, so the system message goes without any content. The corrected
      handler answers 400 "Invalid day". */
  lemma PrototypeDayReachesGateway(env: Env)
    requires ApiKeyPresent(env)
    ensures var req := Request("POST", Parsed(JObject([Member("day", JString("constructor")),
                                                       Member("answers", JString("x"))])));
            HandleAsWritten(req, env).upstreamCalled
            && Handle(req, env) == Handled(Response(400, ErrorBody(InvalidDayMessage("constructor")), JsonHeaders), false)
  {
    var ms := [Member("day", JString("constructor")), Member("answers", JString("x"))];
    assert Field(ms, "day") == JString("constructor");
    assert Field(ms, "answers") == JString("x") by {
      assert ms[1..] == [Member("answers", JString("x"))];
    }
  }

  /** What is left once RemoveToken(_, "```") has run never holds three backticks: a kept
      backtick is never the start of a fence, and the character after it is kept too. */
  lemma {:induction false} RemoveFenceNoFence(s: string)
    ensures !HasFence(RemoveToken(s, Fence))
    decreases |s|
  {
    var r := RemoveToken(s, Fence);
    if |Fence| <= |s| && s[..3] == Fence {
      var rest := s[3..];
      RemoveFenceNoFence(if rest != [] && rest[0] == '\n' then rest[1..] else rest);
    } else if s != [] {
      var tail := RemoveToken(s[1..], Fence);
      RemoveFenceNoFence(s[1..]);
      RemoveFenceKeepsLeadingBackticks(s[1..]);
      assert r == [s[0]] + tail;
      forall i | 0 <= i < |r|
        ensures !FenceAt(r, i)
      {
        if 0 < i && i + 3 <= |r| {
          assert r[i] == tail[i - 1] && r[i + 1] == tail[i] && r[i + 2] == tail[i + 1];
          assert !FenceAt(tail, i - 1);
        }
      }
    }
  }

  /** The first two characters that survive fence removal, if backticks, were already the first
      two characters of the input. */
  lemma {:induction false} RemoveFenceKeepsLeadingBackticks(t: string)
    ensures var r := RemoveToken(t, Fence);
            |r| >= 1 && r[0] == '`' ==> |t| >= 1 && t[0] == '`'
    ensures var r := RemoveToken(t, Fence);
            |r| >= 2 && r[0] == '`' && r[1] == '`' ==> |t| >= 2 && t[1] == '`'
    decreases |t|
  {
    if |Fence| <= |t| && t[..3] == Fence {
      assert t[0] == t[..3][0] && t[1] == t[..3][1];
    } else if t != [] {
      var tail := RemoveToken(t[1..], Fence);
      assert RemoveToken(t, Fence) == [t[0]] + tail;
      RemoveFenceKeepsLeadingBackticks(t[1..]);
    }
  }

  /** Trimming cannot create a fence. */
  lemma TrimKeepsNoFence(u: string)
    requires !HasFence(u)
    ensures !HasFence(Trim(u))
  {
    NoFenceInSlice(u, TrimOffset(u), TrimOffset(u) + |Trim(u)|);
  }

  lemma NoFenceInSlice(u: string, lo: nat, hi: nat)
    requires lo <= hi <= |u| && !HasFence(u)
    ensures !HasFence(u[lo..hi])
  {
    var r := u[lo..hi];
    forall i | 0 <= i < |r|
      ensures !FenceAt(r, i)
    {
      if i + 3 <= |r| {
        assert r[i] == u[lo + i] && r[i + 1] == u[lo + i + 1] && r[i + 2] == u[lo + i + 2];
        assert !FenceAt(u, lo + i);
      }
    }
  }

  /** Text with no backtick passes a fence-removal pass untouched, and so does whatever follows
      it keep its own treatment. */
  lemma {:induction false} RemoveTokenPrefix(p: string, s: string, tok: string)
    requires tok != [] && tok[0] == '`'
    requires NoBacktick(p)
    ensures RemoveToken(p + s, tok) == p + RemoveToken(s, tok)
    decreases |p|
  {
    if p != [] {
      var ps := p + s;
      assert ps[0] == p[0] != '`';
      assert !(|tok| <= |ps| && ps[..|tok|] == tok) by {
        if |tok| <= |ps| { assert ps[..|tok|][0] == ps[0]; }
      }
      assert ps[1..] == p[1..] + s;
      RemoveTokenPrefix(p[1..], s, tok);
      calc {
        RemoveToken(ps, tok);
        [ps[0]] + RemoveToken(ps[1..], tok);
        [p[0]] + (p[1..] + RemoveToken(s, tok));
        { assert [p[0]] + p[1..] == p; }
        p + RemoveToken(s, tok);
      }
    } else {
      assert p + s == s;
    }
  }

  /** The opening fence and the newline after it go in the first pass. */
  lemma OpeningFenceRemoved(x: string)
    ensures RemoveToken("```json\n" + x, "```json") == RemoveToken(x, "```json")
  {
    var t := "```json\n" + x;
    assert t[..7] == "```json";
    assert t[7..][1..] == x;
  }

  lemma NoBacktickConcat(p: string, b: string)
    requires NoBacktick(p) && NoBacktick(b)
    ensures NoBacktick(p + b)
  {
    forall i | 0 <= i < |p + b|
      ensures (p + b)[i] != '`'
    {
      if i < |p| { assert (p + b)[i] == p[i]; } else { assert (p + b)[i] == b[i - |p|]; }
    }
  }

  /** A reply wrapped in a ```json fence cleans to the prose around it and the fenced text, with
      only the fences and the newline after the opening one removed. */
  lemma CleanKeepsProse(p: string, b: string)
    requires NoBacktick(p) && NoBacktick(b)
    ensures CleanFences(p + "```json\n" + b + Fence) == Trim(p + b)
  {
    var content := p + "```json\n" + b + Fence;
    assert content == p + ("```json\n" + (b + Fence));
    RemoveTokenPrefix(p, "```json\n" + (b + Fence), "```json");
    OpeningFenceRemoved(b + Fence);
    RemoveTokenPrefix(b, Fence, "```json");
    assert RemoveToken(Fence, "```json") == Fence;
    var q := p + b;
    assert RemoveToken(content, "```json") == q + Fence;
    NoBacktickConcat(p, b);
    RemoveTokenPrefix(q, Fence, Fence);
    assert RemoveToken(Fence, Fence) == [];
    assert q + [] == q;
  }

  /** A reply without backticks is only trimmed. */
  lemma CleanPlain(content: string)
    requires NoBacktick(content)
    ensures CleanFences(content) == Trim(content)
  {
    // both passes leave backtick-free text as it is (the contract of `RemoveToken`)
  }
}
