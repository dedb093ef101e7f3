/**
 * The input checks of the `/api/generate`, `/api/chat/send` and
 * `/api/update_cookies` handlers in app.py, in the order the handlers run
 * them, each refusal with its HTTP status and error text.
 */
module RequestValidation {
  import opened Wrappers
  import Text
  import BackendRules

  /** A string field of a JSON body: missing, a string, or a value of another type (null included). */
  datatype Field = Absent | Str(s: string) | NotString

  /** The `quantity` field: missing, a number (a boolean counts as 0 or 1), a string, or another value. */
  datatype QuantityField = QuantityAbsent | QuantityInt(n: int) | QuantityText(s: string) | QuantityOther

  /** `data.get(key, '').strip()` for a field that is not of another type. */
  function StrippedText(f: Field): (r: string)
    requires !f.NotString?
    ensures f.Absent? ==> r == []
    ensures f.Str? ==> r == Text.Trim(f.s)
  {
    if f.Str? then Text.Trim(f.s) else []
  }

  /** A non-empty `/api/generate` body; an absent or empty body is `None`. */
  datatype GenerateBody = GenerateBody(
    prompt: Field,
    aspectRatio: Option<string>,
    quantity: QuantityField,
    referenceImage: Option<string>,
    style: Option<string>,
    hdMode: bool,
    cookies: Option<BackendRules.CookieData>)

  /** The arguments `gemini_client.generate_images` is called with. */
  datatype GenerateCall = GenerateCall(
    prompt: string,
    aspectRatio: string,
    quantity: int,
    referenceImage: Option<string>,
    style: Option<string>,
    hdMode: bool,
    user: Option<BackendRules.Jar>)

  /** Why `/api/generate` refuses a request; `Message` is the `error` text it returns. */
  datatype Refusal =
    | NoData | PromptRequired | PromptTooShort | NotAnInteger(text: string)
    | InvalidAspect | QuantityRange | AuthFailed | Crashed
  {
    function Message(): string {
      match this
      case NoData => "No data provided"
      case PromptRequired => "Prompt is required"
      case PromptTooShort => "Prompt too short (minimum 3 characters)"
      case NotAnInteger(text) => InvalidInputPrefix + IntLiteralError + "'" + text + "'"
      case InvalidAspect => "Invalid aspect ratio"
      case QuantityRange => "Quantity must be between 1 and 4"
      case AuthFailed => "Cookie authentication failed"
      case Crashed => "Failed to generate images"
    }
  }

  /** A refusal with its status and reason, or the call the handler goes on to make. */
  datatype Verdict = Reject(status: nat, refusal: Refusal) | Accept(call: GenerateCall)

  /** The HTTP statuses of the refusals. */
  const BadRequest: nat := 400
  const Unauthorized: nat := 401
  const ServerError: nat := 500

  const InvalidInputPrefix: string := "Invalid input: "
  const IntLiteralError: string := "invalid literal for int() with base 10: "

  const AspectRatios: set<string> := {"square", "landscape", "portrait"}

  predicate AllDigits(s: string) {
    forall k :: 0 <= k < |s| ==> Text.IsDigit(s[k])
  }

  /** A sign followed by at least one decimal digit. */
  predicate SignedDigits(t: string) {
    |t| > 1 && (t[0] == '+' || t[0] == '-') && AllDigits(t[1..])
  }

  /**
   * Python `int(s)` on a string: surrounding white space, an optional sign,
   * then at least one decimal digit; anything else raises `ValueError`.
   */
  function ParseInt(s: string): (r: Option<int>)
    ensures r.Some? && AllDigits(Text.Trim(s)) ==> r.value == Text.DecimalValue(Text.Trim(s))
    ensures AllDigits(Text.Trim(s)) && Text.Trim(s) != [] ==> r.Some?
    ensures Text.Trim(s) == [] ==> r.None?
    ensures SignedDigits(Text.Trim(s)) ==>
              r.Some? && r.value == (if Text.Trim(s)[0] == '-' then -(Text.DecimalValue(Text.Trim(s)[1..]) as int)
                                     else Text.DecimalValue(Text.Trim(s)[1..]))
    ensures r.Some? <==> (AllDigits(Text.Trim(s)) && Text.Trim(s) != []) || SignedDigits(Text.Trim(s))
  {
    var t := Text.Trim(s);
    if t == [] then None
    else if (t[0] == '+' || t[0] == '-') && |t| > 1 && AllDigits(t[1..]) then
      var v: int := Text.DecimalValue(t[1..]);
      Some(if t[0] == '-' then -v else v)
    else if AllDigits(t) then Some(Text.DecimalValue(t))
    else None
  }

  /** The quantity after `int(data.get('quantity', 4))`: a number, a `ValueError` (`None`), or a crash for other types. */
  datatype Quantity = Number(n: int) | NotNumeric(text: string) | NotConvertible

  function ReadQuantity(q: QuantityField): (r: Quantity)
    ensures q.QuantityAbsent? ==> r == Number(4)
    ensures q.QuantityInt? ==> r == Number(q.n)
    ensures q.QuantityOther? ==> r == NotConvertible
    ensures q.QuantityText? ==> (r.Number? <==> ParseInt(q.s).Some?)
    ensures q.QuantityText? ==> r == (if ParseInt(q.s).Some? then Number(ParseInt(q.s).value) else NotNumeric(q.s))
  {
    match q
    case QuantityAbsent => Number(4)
    case QuantityInt(n) => Number(n)
    case QuantityText(s) => (match ParseInt(s) case Some(n) => Number(n) case None => NotNumeric(s))
    case QuantityOther => NotConvertible
  }

  /** The prompt is a string, or missing, and strips to 3 or more characters. */
  predicate PromptLongEnough(b: GenerateBody) {
    !b.prompt.NotString? && |StrippedText(b.prompt)| >= 3
  }

  /**
   * The `/api/generate` checks, first failure wins: a body; a prompt that is
   * a string and, stripped, non-empty and at least 3 characters long; a
   * quantity `int()` accepts; an allowed aspect ratio; a quantity from 1 to
   * 4; and cookies `validate_cookies` accepts. `global` and `clientReady`
   * are the server's own cookie jar and client.
   */
  function ValidateGenerate(body: Option<GenerateBody>, global: BackendRules.Jar, clientReady: bool): (v: Verdict)
    ensures v.Accept? ==>
              && body.Some? && body.value.prompt.Str?
              && v.call.prompt == Text.Trim(body.value.prompt.s)
              && |v.call.prompt| >= 3
              && v.call.aspectRatio in AspectRatios
              && 1 <= v.call.quantity <= 4
              && v.call.user == BackendRules.UserCookies(body.value.cookies)
              && BackendRules.ValidateCookies(v.call.user, global, clientReady).0
    ensures body.None? ==> v == Reject(400, NoData)
    ensures body.Some? && body.value.prompt.NotString? ==> v == Reject(500, Crashed)
    ensures body.Some? && !body.value.prompt.NotString? && StrippedText(body.value.prompt) == [] ==> v == Reject(400, PromptRequired)
    ensures body.Some? && !body.value.prompt.NotString? && 0 < |StrippedText(body.value.prompt)| < 3 ==> v == Reject(400, PromptTooShort)
    ensures body.Some? && PromptLongEnough(body.value) ==>
              match ReadQuantity(body.value.quantity)
              case NotConvertible => v == Reject(500, Crashed)
              case NotNumeric(t) => v == Reject(400, NotAnInteger(t))
              case Number(n) =>
                && (body.value.aspectRatio.GetOr("square") !in AspectRatios ==> v == Reject(400, InvalidAspect))
                && (body.value.aspectRatio.GetOr("square") in AspectRatios && (n < 1 || n > 4) ==> v == Reject(400, QuantityRange))
                && (body.value.aspectRatio.GetOr("square") in AspectRatios && 1 <= n <= 4 ==>
                      (v.Accept? <==> BackendRules.ValidateCookies(BackendRules.UserCookies(body.value.cookies), global, clientReady).0)
                      && (v.Reject? ==> v == Reject(401, AuthFailed))
                      && (v.Accept? ==> v.call == GenerateCall(StrippedText(body.value.prompt), body.value.aspectRatio.GetOr("square"), n,
                                                               body.value.referenceImage, body.value.style, body.value.hdMode,
                                                               BackendRules.UserCookies(body.value.cookies))))
    ensures v.Reject? ==> v.status in {400, 401, 500}
    ensures v.Reject? && v.status == 401 <==> v.Reject? && v.refusal == AuthFailed
    ensures v.Reject? && v.status == 500 <==> v.Reject? && v.refusal == Crashed
  {
    match body
    case None => Reject(BadRequest, NoData)
    case Some(b) =>
      match b.prompt
      case NotString => Reject(ServerError, Crashed)
      case _ =>
        var prompt := StrippedText(b.prompt);
        if prompt == [] then Reject(BadRequest, PromptRequired)
        else if |prompt| < 3 then Reject(BadRequest, PromptTooShort)
        else
          match ReadQuantity(b.quantity)
          case NotConvertible => Reject(ServerError, Crashed)
          case NotNumeric(s) => Reject(BadRequest, NotAnInteger(s))
          case Number(quantity) =>
            var aspectRatio := b.aspectRatio.GetOr("square");
            if aspectRatio !in AspectRatios then Reject(BadRequest, InvalidAspect)
            else if quantity < 1 || quantity > 4 then Reject(BadRequest, QuantityRange)
            else
              var user := BackendRules.UserCookies(b.cookies);
              if !BackendRules.ValidateCookies(user, global, clientReady).0 then Reject(Unauthorized, AuthFailed)
              else Accept(GenerateCall(prompt, aspectRatio, quantity, b.referenceImage, b.style, b.hdMode, user))
  }

  /** A prompt that strips to 3 or more characters is never refused for its prompt. */
  lemma LongPromptPasses(b: GenerateBody, global: BackendRules.Jar, clientReady: bool)
    requires b.prompt.Str? && |Text.Trim(b.prompt.s)| >= 3
    ensures var v := ValidateGenerate(Some(b), global, clientReady);
            !(v.Reject? && v.refusal in {PromptRequired, PromptTooShort})
  {
  }

  /**
   * With valid fields and a truthy `psid` of its own, a request is accepted
   * whatever the server's cookies and client, and the call carries the
   * stripped prompt, the fields as sent and the request's own jar.
   */
  lemma OwnCookiesAccepted(b: GenerateBody, global: BackendRules.Jar, clientReady: bool, q: int)
    requires b.prompt.Str? && |Text.Trim(b.prompt.s)| >= 3
    requires ReadQuantity(b.quantity) == Number(q) && 1 <= q <= 4
    requires b.aspectRatio.GetOr("square") in AspectRatios
    requires BackendRules.UserCookies(b.cookies).Some?
    ensures ValidateGenerate(Some(b), global, clientReady)
              == Accept(GenerateCall(Text.Trim(b.prompt.s), b.aspectRatio.GetOr("square"), q,
                                     b.referenceImage, b.style, b.hdMode, BackendRules.UserCookies(b.cookies)))
  {
  }

  /** Quantities are refused, never clamped: 0 and 5 are errors even with everything else valid. */
  lemma QuantityNotClamped(b: GenerateBody, global: BackendRules.Jar, clientReady: bool, n: int)
    requires b.prompt.Str? && |Text.Trim(b.prompt.s)| >= 3
    requires b.aspectRatio.GetOr("square") in AspectRatios
    requires ReadQuantity(b.quantity) == Number(n) && (n < 1 || n > 4)
    ensures ValidateGenerate(Some(b), global, clientReady) == Reject(400, QuantityRange)
  {
  }

  /** `int()` reads back a rendered natural, white space around it included: `int(" 42 ")` is 42. */
  lemma ParseIntRendered(n: nat)
    ensures ParseInt(" " + Text.NatToString(n) + " ") == Some(n)
  {
    var d := Text.NatToString(n);
    var s := " " + d + " ";
    assert s[1..] == d + " ";
    assert Text.TrimStart(s) == d + " ";
    assert (d + " ")[..|d|] == d;
    assert Text.TrimEnd(d + " ") == d;
    Text.DecimalRoundTrip(n);
  }

  /** A sign is read too: `int("-42")` is -42, and `int("+42")` is 42. */
  lemma ParseIntSigned(n: nat)
    ensures ParseInt("-" + Text.NatToString(n)) == Some(-(n as int))
    ensures ParseInt("+" + Text.NatToString(n)) == Some(n)
  {
    var d := Text.NatToString(n);
    SignedTrimmed('-', d);
    SignedTrimmed('+', d);
    assert ("-" + d)[1..] == d && ("+" + d)[1..] == d;
    Text.DecimalRoundTrip(n);
  }

  /** A sign followed by digits has no white space to trim. */
  lemma SignedTrimmed(sign: char, d: string)
    requires sign == '-' || sign == '+'
    requires d != [] && AllDigits(d)
    ensures Text.Trim([sign] + d) == [sign] + d
  {
    var t := [sign] + d;
    assert !Text.IsSpace(t[0]);
    assert t[|t| - 1] == d[|d| - 1];
    assert !Text.IsSpace(t[|t| - 1]);
    assert Text.TrimStart(t) == t;
    assert Text.TrimEnd(t) == t;
  }

  /** A short prompt is refused before the quantity or the aspect ratio is looked at. */
  lemma ShortPromptFirst(b: GenerateBody, global: BackendRules.Jar, clientReady: bool)
    requires b.prompt.Str? && 0 < |Text.Trim(b.prompt.s)| < 3
    ensures ValidateGenerate(Some(b), global, clientReady) == Reject(400, PromptTooShort)
  {
  }

  /**
   * With valid fields, the server's own cookies decide: without a truthy
   * `psid` from the body, the request passes exactly when the server's
   * PSID is set and its client is initialised.
   */
  lemma DefaultCookiesNeedReadyClient(b: GenerateBody, global: BackendRules.Jar, clientReady: bool)
    requires b.prompt.Str? && |Text.Trim(b.prompt.s)| >= 3
    requires b.quantity == QuantityInt(1) && b.aspectRatio == Some("portrait")
    requires b.cookies.None? || !BackendRules.Truthy(b.cookies.value.psid)
    ensures ValidateGenerate(Some(b), global, clientReady).Accept? <==> BackendRules.Truthy(global.psid) && clientReady
  {
  }

  // ---------------------------------------------------------------------
  // `/api/chat/send`
  // ---------------------------------------------------------------------

  /** A `/api/chat/send` body. */
  datatype ChatBody = ChatBody(message: Field, image: Option<string>, cookies: Option<BackendRules.CookieData>)

  /** A refusal, a crash of the handler (a `500` with the exception's text), or the call it goes on to make. */
  datatype ChatVerdict =
    | ChatReject(status: nat, error: string)
    | ChatCrash
    | ChatAccept(message: string, image: Option<string>, user: Option<BackendRules.Jar>)

  const MessageRequired: string := "Message or image is required"

  /** The `/api/chat/send` checks: a string message (or none), and a non-empty stripped message or a truthy image. */
  function ValidateChat(body: ChatBody): (v: ChatVerdict)
    ensures v.ChatReject? <==> !body.message.NotString? && StrippedText(body.message) == [] && !BackendRules.Truthy(body.image)
    ensures v.ChatReject? ==> v == ChatReject(400, MessageRequired)
    ensures v.ChatCrash? <==> body.message.NotString?
    ensures v.ChatAccept? ==> v.user == BackendRules.UserCookies(body.cookies) && v.image == body.image
                              && (v.message != [] || BackendRules.Truthy(v.image))
    ensures v.ChatAccept? ==> !body.message.NotString? && v.message == StrippedText(body.message)
  {
    match body.message
    case NotString => ChatCrash
    case _ =>
      var message := StrippedText(body.message);
      if message == [] && !BackendRules.Truthy(body.image) then ChatReject(400, MessageRequired)
      else ChatAccept(message, body.image, BackendRules.UserCookies(body.cookies))
  }

  // ---------------------------------------------------------------------
  // `/api/update_cookies`
  // ---------------------------------------------------------------------

  const BothCookiesRequired: string := "Both cookies are required"

  /** `update_cookies` goes on only with both values truthy; the refusal is a `success:false` body with status 200. */
  predicate CookieUpdateAccepted(psid: Option<string>, psidts: Option<string>) {
    BackendRules.Truthy(psid) && BackendRules.Truthy(psidts)
  }
}
