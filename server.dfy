/**
 * The Flask server of app.py around its single `GeminiClient`: the global
 * cookie jar (`GEMINI_COOKIES`, which is also `gemini_client.cookies`), the
 * client's readiness (`gemini_client.client` being set), and the handlers
 * `/api/health`, `/api/generate`, `/api/chat/send` and `/api/update_cookies`.
 *
 * Upstream calls are oracles: `handshakeOk` is whether the test request of
 * `_initialize_client` succeeded, `decoded` whether the reference image was
 * decoded and written, `responses` what each image request returned or
 * raised, and `upstream` what the chat request returned or raised.
 */
module Server {
  import opened Wrappers
  import Text
  import BackendRules
  import PromptAssembly
  import Collection
  import RequestValidation

  /** The server state the handlers read and write. */
  datatype ServerState = ServerState(cookies: BackendRules.Jar, clientReady: bool)

  /** What `generate_images` returns. */
  datatype GenResult =
    | GenSuccess(images: seq<Collection.GeneratedImage>, count: nat, attempts: nat, prompt: string)
    | GenFailure(error: string)

  /** The text, cookie jar and attached file of the upstream image requests. */
  datatype UpstreamRequest = UpstreamRequest(text: string, jar: BackendRules.Jar, withReference: bool)

  /** The `/api/generate` response body. */
  datatype GenerateResponse = Refused(error: string) | Generated(result: GenResult)

  /** What the upstream chat request returned or raised. */
  datatype ChatUpstream = Answered(text: string) | Failed(message: string)

  /** The `/api/chat/send` response body; a crash carries the exception's text, not modelled. */
  datatype ChatResponse = ChatText(text: string) | ChatError(error: string) | ChatCrashed

  /** The `/api/update_cookies` response body. */
  datatype UpdateResponse = UpdateResponse(success: bool, message: string)

  const NoImagesError: string := "No images were generated by Gemini. Try a different prompt."
  const FailurePrefix: string := "Failed to generate images: "
  const MissingChatCookies: string := "Missing PSID or PSIDTS in cookies"
  const CookiesUpdated: string := "Cookies updated successfully!"

  /** The largest number of upstream image requests one accepted call can make. */
  const MaxResponses: nat := 12

  function Options(call: RequestValidation.GenerateCall): PromptAssembly.Options {
    PromptAssembly.Options(call.aspectRatio, call.style, call.hdMode)
  }

  /** The upstream request `generate_images` repeats: the assembled text, the selected jar, the reference file if decoded. */
  function Upstream(s: ServerState, call: RequestValidation.GenerateCall, decoded: bool): (u: UpstreamRequest)
    ensures u.jar == BackendRules.SelectJar(call.user, s.cookies)
    ensures u.withReference <==> BackendRules.Truthy(call.referenceImage) && decoded
    ensures u.text == PromptAssembly.GenerationPrompt(call.prompt, Options(call), call.referenceImage, decoded)
  {
    UpstreamRequest(PromptAssembly.GenerationPrompt(call.prompt, Options(call), call.referenceImage, decoded),
                    BackendRules.SelectJar(call.user, s.cookies),
                    BackendRules.Truthy(call.referenceImage) && decoded)
  }

  /**
   * `generate_images` after its collection loop: no image is a failure with
   * the fixed message, some images a success counting them; an exception is
   * a failure carrying its text and, for an authentication failure, drops
   * the client. Nothing else of the server changes.
   */
  function Generate(s: ServerState, call: RequestValidation.GenerateCall, responses: seq<Collection.Attempt>): (r: (ServerState, GenResult))
    requires |responses| >= Collection.MaxAttempts(call.quantity)
    ensures r.0.cookies == s.cookies
    ensures r.0.clientReady == (s.clientReady && !(Collection.Collect(responses, call.quantity, call.prompt).Aborted?
                                                 && BackendRules.IsAuthFailure(Collection.Collect(responses, call.quantity, call.prompt).message)))
    ensures r.1.GenSuccess? ==> && 1 <= r.1.count == |r.1.images| <= Collection.Cap(call.quantity)
                                && Collection.WellFormed(r.1.images, call.quantity)
                                && r.1.prompt == call.prompt
                                && r.1.attempts <= Collection.MaxAttempts(call.quantity)
    ensures r.1.GenFailure? && Collection.Collect(responses, call.quantity, call.prompt).Collected? ==> r.1.error == NoImagesError
    ensures var c := Collection.Collect(responses, call.quantity, call.prompt);
            c.Collected? ==> && (r.1.GenSuccess? <==> c.images != [])
                             && (r.1.GenSuccess? ==> r.1.images == c.images && r.1.count == |c.images|
                                                     && r.1.attempts == c.attempts)
    ensures var c := Collection.Collect(responses, call.quantity, call.prompt);
            c.Aborted? ==> r.1 == GenFailure(FailurePrefix + c.message)
  {
    match Collection.Collect(responses, call.quantity, call.prompt)
    case Collected(images, attempts) =>
      (s, if images == [] then GenFailure(NoImagesError) else GenSuccess(images, |images|, attempts, call.prompt))
    case Aborted(m, _) =>
      (s.(clientReady := if BackendRules.IsAuthFailure(m) then false else s.clientReady), GenFailure(FailurePrefix + m))
  }

  /** The `/api/generate` handler: the checks, then `generate_images`; the status and the body. */
  function HandleGenerate(s: ServerState, body: Option<RequestValidation.GenerateBody>, responses: seq<Collection.Attempt>): (r: (ServerState, nat, GenerateResponse))
    requires |responses| >= MaxResponses
    ensures r.2.Refused? <==> RequestValidation.ValidateGenerate(body, s.cookies, s.clientReady).Reject?
    ensures r.2.Refused? ==> r.0 == s && r.1 != 200
    ensures r.2.Generated? ==> r.1 == 200 && r.0.cookies == s.cookies
    ensures var v := RequestValidation.ValidateGenerate(body, s.cookies, s.clientReady);
            v.Reject? ==> r == (s, v.status, Refused(v.refusal.Message()))
    ensures var v := RequestValidation.ValidateGenerate(body, s.cookies, s.clientReady);
            v.Accept? ==> Collection.MaxAttempts(v.call.quantity) <= |responses|
                          && r == (Generate(s, v.call, responses).0, 200, Generated(Generate(s, v.call, responses).1))
  {
    match RequestValidation.ValidateGenerate(body, s.cookies, s.clientReady)
    case Reject(status, refusal) => (s, status, Refused(refusal.Message()))
    case Accept(call) =>
      var g := Generate(s, call, responses);
      (g.0, 200, Generated(g.1))
  }

  /** `send_message` after the handler's checks: both values of the selected jar are needed. */
  function SendMessage(s: ServerState, user: Option<BackendRules.Jar>, upstream: ChatUpstream): (r: ChatResponse)
    ensures var jar := BackendRules.SelectJar(user, s.cookies);
            !(BackendRules.Truthy(jar.psid) && BackendRules.Truthy(jar.psidts)) ==> r == ChatError(MissingChatCookies)
    ensures r.ChatText? ==> upstream == Answered(r.text)
    ensures var jar := BackendRules.SelectJar(user, s.cookies);
            BackendRules.Truthy(jar.psid) && BackendRules.Truthy(jar.psidts) ==>
              r == (match upstream case Answered(t) => ChatText(t) case Failed(e) => ChatError(e))
  {
    var jar := BackendRules.SelectJar(user, s.cookies);
    if !BackendRules.Truthy(jar.psid) || !BackendRules.Truthy(jar.psidts) then ChatError(MissingChatCookies)
    else match upstream
      case Answered(text) => ChatText(text)
      case Failed(message) => ChatError(message)
  }

  /** The `/api/chat/send` handler: 200 only with the upstream's text, 400 for an empty request, 500 otherwise. */
  function HandleChat(s: ServerState, body: RequestValidation.ChatBody, upstream: ChatUpstream): (r: (nat, ChatResponse))
    ensures r.0 == 200 <==> r.1.ChatText?
    ensures r.0 == 400 <==> RequestValidation.ValidateChat(body).ChatReject?
    ensures r.0 in {200, 400, 500}
    ensures var v := RequestValidation.ValidateChat(body);
            v.ChatAccept? ==> r.1 == SendMessage(s, v.user, upstream)
    ensures var v := RequestValidation.ValidateChat(body);
            v.ChatReject? ==> r == (400, ChatError(RequestValidation.MessageRequired))
    ensures RequestValidation.ValidateChat(body).ChatCrash? ==> r == (500, ChatCrashed)
  {
    match RequestValidation.ValidateChat(body)
    case ChatReject(status, error) => (status, ChatError(error))
    case ChatCrash => (500, ChatCrashed)
    case ChatAccept(_, _, user) =>
      var reply := SendMessage(s, user, upstream);
      (if reply.ChatText? then 200 else 500, reply)
  }

  /**
   * `/api/update_cookies`: with both values truthy the jar takes them and
   * the client is rebuilt; otherwise nothing changes and the refusal says so.
   */
  function UpdateCookies(s: ServerState, psid: Option<string>, psidts: Option<string>, handshakeOk: bool): (r: (ServerState, UpdateResponse))
    ensures !RequestValidation.CookieUpdateAccepted(psid, psidts) ==>
              r == (s, UpdateResponse(false, RequestValidation.BothCookiesRequired))
    ensures RequestValidation.CookieUpdateAccepted(psid, psidts) ==>
              r.0 == ServerState(BackendRules.Jar(psid, psidts), handshakeOk) && r.1 == UpdateResponse(true, CookiesUpdated)
  {
    if !RequestValidation.CookieUpdateAccepted(psid, psidts) then
      (s, UpdateResponse(false, RequestValidation.BothCookiesRequired))
    else
      var jar := BackendRules.Jar(psid, psidts);
      (ServerState(jar, BackendRules.Initialized(jar, handshakeOk)), UpdateResponse(true, CookiesUpdated))
  }

  /** `/api/health`: `validate_cookies()` on the server's own jar. */
  function Health(s: ServerState): (r: (bool, string))
    ensures r.0 <==> BackendRules.Truthy(s.cookies.psid) && s.clientReady
  {
    BackendRules.ValidateCookies(None, s.cookies, s.clientReady)
  }

  /**
   * After an upstream exception that reads as an authentication failure,
   * the health check reports invalid cookies, and a request without cookies
   * of its own is refused with 401 until the cookies are updated.
   */
  lemma AuthFailureInvalidatesSession(s: ServerState, call: RequestValidation.GenerateCall, responses: seq<Collection.Attempt>,
                                      next: RequestValidation.GenerateBody, more: seq<Collection.Attempt>)
    requires |responses| >= Collection.MaxAttempts(call.quantity) && |more| >= MaxResponses
    requires Collection.Collect(responses, call.quantity, call.prompt).Aborted?
    requires BackendRules.IsAuthFailure(Collection.Collect(responses, call.quantity, call.prompt).message)
    requires next.prompt.Str? && |Text.Trim(next.prompt.s)| >= 3
    requires next.quantity == RequestValidation.QuantityInt(2) && next.aspectRatio.None?
    requires next.cookies.None?
    ensures var after := Generate(s, call, responses).0;
            !Health(after).0 && HandleGenerate(after, Some(next), more).1 == 401
  {
  }

  /** A request with a truthy `psid` of its own is not blocked by an invalidated client. */
  lemma UserCookiesBypassInvalidClient(s: ServerState, next: RequestValidation.GenerateBody, more: seq<Collection.Attempt>)
    requires |more| >= MaxResponses && !s.clientReady
    requires next.prompt.Str? && |Text.Trim(next.prompt.s)| >= 3
    requires next.quantity == RequestValidation.QuantityInt(2) && next.aspectRatio == Some("landscape")
    requires next.cookies.Some? && BackendRules.Truthy(next.cookies.value.psid)
    ensures HandleGenerate(s, Some(next), more).1 == 200
  {
  }

  /**
   * An exception in an attempt made while the collection is still short ends
   * the call with "Failed to generate images: " and the exception's text;
   * the images collected so far are dropped.
   */
  lemma ExceptionFailsCall(s: ServerState, call: RequestValidation.GenerateCall, responses: seq<Collection.Attempt>, k: nat, m: string)
    requires |responses| >= Collection.MaxAttempts(call.quantity) && k < Collection.MaxAttempts(call.quantity)
    requires Collection.NoneRaised(responses[..k])
    requires |Collection.AdmitAll([], Collection.Flatten(responses[..k]), call.quantity, call.prompt)| < call.quantity
    requires responses[k] == Collection.Raised(m)
    ensures Generate(s, call, responses).1 == GenFailure(FailurePrefix + m)
  {
    Collection.CollectAborts(responses, call.quantity, call.prompt, k, m);
  }

  /** Any other upstream exception leaves the client as it was. */
  lemma OtherFailureKeepsClient(s: ServerState, call: RequestValidation.GenerateCall, responses: seq<Collection.Attempt>)
    requires |responses| >= Collection.MaxAttempts(call.quantity)
    requires !(Collection.Collect(responses, call.quantity, call.prompt).Aborted?
               && BackendRules.IsAuthFailure(Collection.Collect(responses, call.quantity, call.prompt).message))
    ensures Generate(s, call, responses).0 == s
  {
  }

  /** Updating both cookies with a working handshake makes the server healthy again. */
  lemma UpdateRevivesHealth(s: ServerState, psid: string, psidts: string)
    requires psid != "" && psidts != ""
    ensures var r := UpdateCookies(s, Some(psid), Some(psidts), true);
            r.1.success && Health(r.0).0 && r.0.cookies == BackendRules.Jar(Some(psid), Some(psidts))
  {
  }

  /** The global PSID the server starts with is the one `_initialize_client` checked. */
  class GeminiServer {
    var cookies: BackendRules.Jar
    var clientReady: bool

    function Snapshot(): ServerState
      reads this
    {
      ServerState(cookies, clientReady)
    }

    /** Module load: the jar from the environment, then `GeminiClient(GEMINI_COOKIES)`. */
    constructor (envPsid: string, envPsidts: string, handshakeOk: bool)
      ensures Snapshot() == ServerState(BackendRules.Jar(Some(envPsid), Some(envPsidts)),
                                        BackendRules.Initialized(BackendRules.Jar(Some(envPsid), Some(envPsidts)), handshakeOk))
    {
      cookies := BackendRules.Jar(Some(envPsid), Some(envPsidts));
      clientReady := BackendRules.Initialized(BackendRules.Jar(Some(envPsid), Some(envPsidts)), handshakeOk);
    }

    /** `_initialize_client`. */
    method InitializeClient(handshakeOk: bool)
      modifies this
      ensures Snapshot() == old(Snapshot()).(clientReady := BackendRules.Initialized(cookies, handshakeOk))
    {
      if !BackendRules.Truthy(cookies.psid) || !BackendRules.Truthy(cookies.psidts) {
        clientReady := false;
        return;
      }
      clientReady := handshakeOk;
    }

    /** `health_check`. */
    method HealthCheck() returns (valid: bool, message: string)
      ensures (valid, message) == Health(Snapshot())
      ensures valid <==> BackendRules.Truthy(cookies.psid) && clientReady
    {
      if !BackendRules.Truthy(cookies.psid) {
        return false, BackendRules.MissingPsid;
      }
      if !clientReady {
        return false, BackendRules.NotInitialized;
      }
      return true, BackendRules.CookiesValid;
    }

    /** `GeminiClient.generate_images` for an accepted call; `upstream` is the request it repeats. */
    method GenerateImages(call: RequestValidation.GenerateCall, decoded: bool, responses: seq<Collection.Attempt>)
      returns (result: GenResult, upstream: UpstreamRequest)
      requires |responses| >= Collection.MaxAttempts(call.quantity)
      modifies this
      ensures (Snapshot(), result) == Generate(old(Snapshot()), call, responses)
      ensures upstream == Upstream(old(Snapshot()), call, decoded)
    {
      var jar := BackendRules.SelectJar(call.user, cookies);
      var text := PromptAssembly.TextPrompt(call.prompt, Options(call));
      var withReference := false;
      if BackendRules.Truthy(call.referenceImage) && decoded {
        text := PromptAssembly.VariationPrompt(call.prompt, call.style);
        withReference := true;
      }
      upstream := UpstreamRequest(text, jar, withReference);
      var collected := Collection.CollectImages(call.prompt, call.quantity, responses);
      match collected {
        case Aborted(m, _) =>
          if BackendRules.IsAuthFailure(m) {
            clientReady := false;
          }
          result := GenFailure(FailurePrefix + m);
        case Collected(images, attempts) =>
          if images == [] {
            result := GenFailure(NoImagesError);
          } else {
            result := GenSuccess(images, |images|, attempts, call.prompt);
          }
      }
    }

    /** The `/api/generate` handler. */
    method GenerateEndpoint(body: Option<RequestValidation.GenerateBody>, decoded: bool, responses: seq<Collection.Attempt>)
      returns (status: nat, response: GenerateResponse)
      requires |responses| >= MaxResponses
      modifies this
      ensures (Snapshot(), status, response) == HandleGenerate(old(Snapshot()), body, responses)
    {
      match RequestValidation.ValidateGenerate(body, cookies, clientReady) {
        case Reject(code, refusal) =>
          return code, Refused(refusal.Message());
        case Accept(call) =>
          var result, _ := GenerateImages(call, decoded, responses);
          return 200, Generated(result);
      }
    }

    /** The `/api/chat/send` handler; it changes no server state. */
    method ChatEndpoint(body: RequestValidation.ChatBody, upstream: ChatUpstream) returns (status: nat, response: ChatResponse)
      ensures (status, response) == HandleChat(Snapshot(), body, upstream)
      ensures status == 200 ==> RequestValidation.ValidateChat(body).ChatAccept? && upstream.Answered?
    {
      match RequestValidation.ValidateChat(body) {
        case ChatReject(code, error) =>
          return code, ChatError(error);
        case ChatCrash =>
          return 500, ChatCrashed;
        case ChatAccept(_, _, user) =>
          var jar := BackendRules.SelectJar(user, cookies);
          if !BackendRules.Truthy(jar.psid) || !BackendRules.Truthy(jar.psidts) {
            return 500, ChatError(MissingChatCookies);
          }
          match upstream {
            case Answered(text) => return 200, ChatText(text);
            case Failed(message) => return 500, ChatError(message);
          }
      }
    }

    /** The `/api/update_cookies` handler: the jar updated in place, then `_initialize_client`. */
    method UpdateCookiesEndpoint(psid: Option<string>, psidts: Option<string>, handshakeOk: bool) returns (response: UpdateResponse)
      modifies this
      ensures (Snapshot(), response) == UpdateCookies(old(Snapshot()), psid, psidts, handshakeOk)
    {
      if !BackendRules.Truthy(psid) || !BackendRules.Truthy(psidts) {
        return UpdateResponse(false, RequestValidation.BothCookiesRequired);
      }
      cookies := cookies.(psid := psid);
      cookies := cookies.(psidts := psidts);
      InitializeClient(handshakeOk);
      return UpdateResponse(true, CookiesUpdated);
    }
  }
}
