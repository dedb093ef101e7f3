/**
 * The generation controller of static/js/app.js: the global `state` object,
 * the connectivity dot, the inline progress bar and the `generateImages`
 * request cycle with its progress intervals.
 *
 * `generateImages` is split at its awaits: `GenerateImages` runs up to the
 * `fetch` and returns the request it issues, `ReceiveReply` is the code after
 * the reply arrives, and `FinishDelay` the code after the 500 ms "Finalizing"
 * pause of a successful reply. Each interval of `animateProgress` is one
 * `Progress.Ticker`, and each of its ticks a call of `Tick`.
 */
module Generation {
  import opened Wrappers
  import Text
  import Progress
  import LocalStorage

  /** One entry of `data.images` as the page uses it. */
  datatype ImageRef = ImageRef(url: string)

  /** The body of the `/api/generate` request built by `generateImages`. */
  datatype Payload = Payload(
    prompt: string,
    aspectRatio: string,
    quantity: int,
    style: Option<string>,
    hdMode: bool,
    psid: Option<string>,
    psidts: Option<string>,
    referenceImage: Option<string>)

  /** What the `fetch` of `/api/generate` resolves to. */
  datatype Reply =
    | NonJson(status: nat)                                        // content-type lacks application/json
    | Json(success: bool, images: seq<ImageRef>, error: Option<string>)
    | Thrown(message: string)                                     // the fetch or the JSON parse threw

  /** Where the pending `generateImages` call is suspended. */
  datatype Phase = Idle | Awaiting | Finalizing(images: seq<ImageRef>)

  /** `/api/health` as `checkSystemHealth` sees it. */
  datatype HealthReply = HealthJson(cookieValid: bool) | HealthFailed

  /** One `downloadImage(url, index)` call made by `downloadAllImages`. */
  datatype Download = Download(url: string, index: nat)

  /** The page state the controller reads and writes. */
  datatype State = State(
    aspectRatio: string,
    quantity: int,
    style: Option<string>,
    reference: Option<string>,
    isGenerating: bool,
    images: seq<ImageRef>,
    phase: Phase,
    connected: bool,
    progressVisible: bool,
    shownPercent: int,
    shownText: string,
    tickers: seq<Progress.Ticker>,
    notices: seq<string>)

  const EmptyPromptError: string := "Please enter a prompt"
  const ShortPromptError: string := "Prompt is too short. Please be more descriptive."
  const GenerationFailed: string := "Generation failed"
  const FallbackError: string := "Failed to generate images. Please try again."
  const FinalizingText: string := "Finalizing..."
  const LargeFileError: string := "File too large. Maximum size is 5MB"
  const MaxUploadBytes: int := 5 * 1024 * 1024

  /** The state at page load. */
  const Initial: State := State("square", 4, None, None, false, [], Idle, false, false, 0, "", [], [])

  /**
   * The controller's invariant: the busy flag is set exactly while a call is
   * suspended, every interval's counters are in range, and the bar never
   * shows more than the simulator's ceiling before the reply has arrived.
   */
  predicate Inv(s: State) {
    && (s.isGenerating <==> !s.phase.Idle?)
    && (forall k :: 0 <= k < |s.tickers| ==> Progress.Valid(s.tickers[k]))
    && 0 <= s.shownPercent <= 100
    && (s.phase.Awaiting? ==> s.shownPercent <= Progress.Ceiling)
  }

  lemma InitialInv()
    ensures Inv(Initial)
  {
  }

  /**
   * The local validation of the trimmed prompt, run before anything else.
   * Its length is JavaScript's, in UTF-16 code units.
   */
  function PromptError(prompt: string): (r: Option<string>)
    ensures r.None? <==> Text.JsLength(prompt) >= 3
    ensures prompt == [] ==> r == Some(EmptyPromptError)
    ensures prompt != [] && Text.JsLength(prompt) < 3 ==> r == Some(ShortPromptError)
  {
    if prompt == [] then Some(EmptyPromptError)
    else if Text.JsLength(prompt) < 3 then Some(ShortPromptError)
    else None
  }

  /** The request body: form state, the trimmed prompt and both stored credentials. */
  function BuildPayload(s: State, prompt: string, hdMode: bool, store: LocalStorage.Store): (p: Payload)
    ensures p.prompt == prompt && p.aspectRatio == s.aspectRatio && p.quantity == s.quantity
    ensures p.style == s.style && p.hdMode == hdMode
    ensures p.psid == LocalStorage.GetItem(store, LocalStorage.PsidKey)
    ensures p.psidts == LocalStorage.GetItem(store, LocalStorage.PsidtsKey)
    ensures p.referenceImage.Some? <==> LocalStorage.Truthy(s.reference)
    ensures p.referenceImage.Some? ==> p.referenceImage == s.reference
  {
    Payload(prompt, s.aspectRatio, s.quantity, s.style, hdMode,
            LocalStorage.GetItem(store, LocalStorage.PsidKey),
            LocalStorage.GetItem(store, LocalStorage.PsidtsKey),
            if LocalStorage.Truthy(s.reference) then s.reference else None)
  }

  /** Entering the busy state: flag set, bar shown at 0 %, a fresh interval started; the rest is kept. */
  function Begin(s: State): (r: State)
    ensures r.isGenerating && r.phase == Awaiting && r.progressVisible
    ensures r.shownPercent == 0 && r.shownText == Progress.Messages[0]
    ensures r.tickers == s.tickers + [Progress.Start]
    ensures r.images == s.images && r.notices == s.notices && r.connected == s.connected
    ensures r.style == s.style && r.aspectRatio == s.aspectRatio && r.quantity == s.quantity && r.reference == s.reference
  {
    s.(isGenerating := true, phase := Awaiting, progressVisible := true,
       shownPercent := 0, shownText := Progress.Messages[0],
       tickers := s.tickers + [Progress.Start])
  }

  /**
   * `generateImages` up to its `fetch`: the new state and the request issued.
   * A rejected prompt only adds a notice, whether or not a call is pending;
   * a busy controller ignores the call; otherwise exactly one request is
   * issued, built from the state before the call.
   */
  function Submit(s: State, promptText: string, hdMode: bool, store: LocalStorage.Store): (r: (State, Option<Payload>))
    requires Inv(s)
    ensures Inv(r.0)
    ensures r.1.Some? <==> Text.JsLength(Text.Trim(promptText)) >= 3 && !s.isGenerating
    ensures PromptError(Text.Trim(promptText)).Some? ==>
              r.0 == s.(notices := s.notices + [PromptError(Text.Trim(promptText)).value])
    ensures PromptError(Text.Trim(promptText)).None? && s.isGenerating ==> r.0 == s
    ensures r.1.Some? ==> r.0 == Begin(s) && r.1.value == BuildPayload(s, Text.Trim(promptText), hdMode, store)
  {
    var prompt := Text.Trim(promptText);
    match PromptError(prompt)
    case Some(msg) => (s.(notices := s.notices + [msg]), None)
    case None =>
      if s.isGenerating then (s, None)
      else (Begin(s), Some(BuildPayload(s, prompt, hdMode, store)))
  }

  /** The text of a server error page: "Server Error (<status>): ...", the status in decimal. */
  function ServerErrorText(status: nat): (t: string)
    ensures ServerErrorHead <= t
    ensures |t| == |ServerErrorHead| + |Text.NatToString(status)| + |ServerErrorMiddle + ServerErrorCause + ServerErrorTail|
    ensures t[|ServerErrorHead|..|ServerErrorHead| + |Text.NatToString(status)|] == Text.NatToString(status)
    ensures t[..|ServerErrorHead| + |Text.NatToString(status)| + 1] == ServerErrorHead + Text.NatToString(status) + ")"
  {
    var d := Text.NatToString(status);
    var rest := ServerErrorMiddle + ServerErrorCause + ServerErrorTail;
    var t := ServerErrorHead + d + ServerErrorMiddle + ServerErrorCause + ServerErrorTail;
    assert t == ServerErrorHead + d + rest;
    assert rest[0] == ')';
    StatusSlices(t, ServerErrorHead, d, rest);
    t
  }

  /** `t` is `head`, then `digits`, then a text opening with ')': both slices read back. */
  lemma StatusSlices(t: string, head: string, digits: string, rest: string)
    requires t == head + digits + rest && rest != [] && rest[0] == ')'
    ensures t[|head|..|head| + |digits|] == digits
    ensures t[..|head| + |digits| + 1] == head + digits + ")"
  {
    assert t[..|head| + |digits| + 1] == head + digits + [rest[0]];
  }

  /** The status can be read back from the error text: two statuses give the same text only when equal. */
  lemma ServerErrorTextInjective(a: nat, b: nat)
    requires ServerErrorText(a) == ServerErrorText(b)
    ensures a == b
  {
    var n := |ServerErrorHead|;
    var da := Text.NatToString(a);
    var db := Text.NatToString(b);
    assert |da| == |db|;
    assert da == ServerErrorText(a)[n..n + |da|];
    assert db == ServerErrorText(b)[n..n + |db|];
    Text.DecimalRoundTrip(a);
    Text.DecimalRoundTrip(b);
  }

  predicate IsSuccess(reply: Reply) {
    reply.Json? && reply.success
  }

  /** `error.message || 'Failed to generate images. Please try again.'` for the error a failed reply throws. */
  function ErrorMessage(reply: Reply): (m: string)
    requires !IsSuccess(reply)
    ensures m != []
    ensures reply.Json? ==> m == if LocalStorage.Truthy(reply.error) then reply.error.value else GenerationFailed
    ensures reply.NonJson? ==> m == ServerErrorText(reply.status)
    ensures reply.Thrown? ==> m == if reply.message == "" then FallbackError else reply.message
  {
    match reply
    case NonJson(status) => ServerErrorText(status)
    case Json(_, _, error) => if LocalStorage.Truthy(error) then error.value else GenerationFailed
    case Thrown(message) => if message == "" then FallbackError else message
  }

  /** The case-sensitive test that marks an error as an authentication failure. */
  predicate IsAuthMessage(m: string) {
    Text.Contains(m, "expired") || Text.Contains(m, "initialize") || Text.Contains(m, "cookie")
  }

  /** The `finally` block: leave the busy state; hide the bar when no images are held. */
  function Settle(s: State): (r: State)
    ensures !r.isGenerating && r.phase == Idle
    ensures r.progressVisible == (if |s.images| == 0 then false else s.progressVisible)
    ensures r.images == s.images && r.connected == s.connected && r.notices == s.notices
    ensures r.aspectRatio == s.aspectRatio && r.quantity == s.quantity && r.style == s.style && r.reference == s.reference
    ensures r.shownPercent == s.shownPercent && r.shownText == s.shownText && r.tickers == s.tickers
  {
    s.(isGenerating := false, phase := Idle,
       progressVisible := if |s.images| == 0 then false else s.progressVisible)
  }

  /**
   * The code after the reply arrives. Success forces the bar to 100 % and
   * waits before storing the images; any failure adds one notice, marks the
   * connection lost for an authentication message, hides the bar and leaves
   * the busy state with the previously held images untouched.
   */
  function Receive(s: State, reply: Reply): (r: State)
    requires Inv(s) && s.phase == Awaiting
    ensures Inv(r)
    ensures IsSuccess(reply) ==> r == s.(shownPercent := 100, shownText := FinalizingText,
                                        phase := Finalizing(reply.images))
    ensures !IsSuccess(reply) ==>
              && !r.isGenerating && r.phase == Idle && !r.progressVisible
              && r.images == s.images
              && r.notices == s.notices + [ErrorMessage(reply)]
              && r.connected == (s.connected && !IsAuthMessage(ErrorMessage(reply)))
              && r.tickers == s.tickers && r.style == s.style
  {
    if IsSuccess(reply) then
      s.(shownPercent := 100, shownText := FinalizingText, phase := Finalizing(reply.images))
    else
      var m := ErrorMessage(reply);
      Settle(s.(notices := s.notices + [m],
                connected := if IsAuthMessage(m) then false else s.connected,
                progressVisible := false))
  }

  /** The code after the 500 ms pause: store the reply's images unchanged, then leave the busy state. */
  function Finish(s: State): (r: State)
    requires Inv(s) && s.phase.Finalizing?
    ensures Inv(r)
    ensures r.images == s.phase.images && !r.isGenerating && r.phase == Idle
    ensures r.shownPercent == s.shownPercent && r.connected == s.connected && r.notices == s.notices
    ensures r.progressVisible == (if |s.phase.images| == 0 then false else s.progressVisible)
    ensures r.aspectRatio == s.aspectRatio && r.quantity == s.quantity && r.style == s.style && r.reference == s.reference
    ensures r.shownText == s.shownText && r.tickers == s.tickers
  {
    Settle(s.(images := s.phase.images))
  }

  /** The whole reply handling: whatever the reply, the controller ends idle. */
  function Resolve(s: State, reply: Reply): (r: State)
    requires Inv(s) && s.phase == Awaiting
    ensures Inv(r) && !r.isGenerating && r.phase == Idle
  {
    var t := Receive(s, reply);
    if t.phase.Finalizing? then Finish(t) else t
  }

  /**
   * One tick of interval `k`: it clears itself once generation is over or
   * its percent reached 95, and otherwise advances and redraws the bar.
   */
  function TickState(s: State, k: nat, draw: int): (r: State)
    requires Inv(s) && k < |s.tickers| && Progress.IsDraw(draw)
    ensures Inv(r)
    ensures Progress.Stops(s.tickers[k], s.isGenerating) ==>
              r == s.(tickers := s.tickers[..k] + s.tickers[k + 1..])
    ensures !Progress.Stops(s.tickers[k], s.isGenerating) ==>
              && |r.tickers| == |s.tickers|
              && r.tickers[k] == Progress.Advance(s.tickers[k], draw)
              && s.tickers[k].percent < r.shownPercent == r.tickers[k].percent <= Progress.Ceiling
              && r.isGenerating == s.isGenerating && r.images == s.images && r.phase == s.phase
  {
    var t := s.tickers[k];
    if Progress.Stops(t, s.isGenerating) then
      s.(tickers := s.tickers[..k] + s.tickers[k + 1..])
    else
      var u := Progress.Advance(t, draw);
      s.(tickers := s.tickers[k := u], shownPercent := u.percent, shownText := Progress.Label(u))
  }

  /** The style chip toggle: choosing the selected style clears it, any other style selects it. */
  function ToggleStyle(s: State, style: string): (r: State)
    ensures r.style == Some(style) <==> s.style != Some(style)
    ensures r.style.None? <==> s.style == Some(style)
    ensures r == s.(style := r.style)
  {
    s.(style := if s.style == Some(style) then None else Some(style))
  }

  /** A reference image is taken only up to 5 MB; a larger file only adds a notice. */
  function AttachReference(s: State, sizeBytes: nat, dataUrl: string): (r: State)
    ensures sizeBytes > MaxUploadBytes ==> r == s.(notices := s.notices + [LargeFileError])
    ensures sizeBytes <= MaxUploadBytes ==> r == s.(reference := Some(dataUrl))
  {
    if sizeBytes > MaxUploadBytes then s.(notices := s.notices + [LargeFileError])
    else s.(reference := Some(dataUrl))
  }

  /** The connectivity reported by one health poll; a failed poll reads as disconnected. */
  function CheckHealth(s: State, reply: HealthReply): (r: State)
    ensures r.connected <==> reply.HealthJson? && reply.cookieValid
    ensures r == s.(connected := r.connected)
  {
    s.(connected := match reply case HealthJson(valid) => valid case HealthFailed => false)
  }

  const ServerErrorHead: string := "Server Error ("
  const ServerErrorMiddle: string := "): The server timed out"
  const ServerErrorCause: string := " or crashed."
  const ServerErrorTail: string := " Please try reducing quantity."

  /** None of the fixed parts of the server error text holds an 'x', a 'z' or a 'k'. */
  lemma HeadLacksAuthLetters()
    ensures 'x' !in ServerErrorHead && 'z' !in ServerErrorHead && 'k' !in ServerErrorHead
  {
  }

  lemma MiddleLacksAuthLetters()
    ensures 'x' !in ServerErrorMiddle && 'z' !in ServerErrorMiddle && 'k' !in ServerErrorMiddle
  {
  }

  lemma CauseLacksAuthLetters()
    ensures 'x' !in ServerErrorCause && 'z' !in ServerErrorCause && 'k' !in ServerErrorCause
  {
  }

  lemma TailLacksAuthLetters()
    ensures 'x' !in ServerErrorTail && 'z' !in ServerErrorTail && 'k' !in ServerErrorTail
  {
  }

  /** The error text of a non-JSON reply never reads as an authentication failure. */
  lemma ServerErrorIsNotAuth(status: nat)
    ensures !IsAuthMessage(ErrorMessage(NonJson(status)))
  {
    var d := Text.NatToString(status);
    var m := ServerErrorText(status);
    assert m == ServerErrorHead + d + ServerErrorMiddle + ServerErrorCause + ServerErrorTail;
    HeadLacksAuthLetters();
    MiddleLacksAuthLetters();
    CauseLacksAuthLetters();
    TailLacksAuthLetters();
    forall c | c in d
      ensures c != 'x' && c != 'z' && c != 'k'
    {
      var i :| 0 <= i < |d| && d[i] == c;
      assert Text.IsDigit(d[i]);
    }
    Text.AbsentCharExcludes(m, "expired", 'x');
    Text.AbsentCharExcludes(m, "initialize", 'z');
    Text.AbsentCharExcludes(m, "cookie", 'k');
  }

  /** A `success:false` reply carrying "cookie expired" marks the page disconnected and ends idle. */
  lemma ExpiredCookieDisconnects(s: State, images: seq<ImageRef>)
    requires Inv(s) && s.phase == Awaiting
    ensures var r := Resolve(s, Json(false, images, Some("cookie expired")));
            !r.connected && !r.isGenerating && !r.progressVisible
            && r.notices == s.notices + ["cookie expired"]
  {
    assert Text.OccursAt("cookie expired", "cookie", 0);
  }

  /** A successful reply ends with exactly its images, in order, and the bar at 100 %. */
  lemma SuccessStoresImages(s: State, images: seq<ImageRef>, error: Option<string>)
    requires Inv(s) && s.phase == Awaiting
    ensures var r := Resolve(s, Json(true, images, error));
            r.images == images && r.shownPercent == 100 && r.connected == s.connected
            && r.notices == s.notices
  {
  }

  /**
   * A tick that fires during the 500 ms pause after a successful reply
   * redraws the bar with its own percent, which is at most 95: the forced
   * 100 % does not stay on screen while an interval is still running.
   */
  lemma TickDuringFinalizing(s: State, images: seq<ImageRef>, error: Option<string>, k: nat, draw: int)
    requires Inv(s) && s.phase == Awaiting && k < |s.tickers| && Progress.IsDraw(draw)
    requires s.tickers[k].percent < Progress.Ceiling
    ensures var f := Receive(s, Json(true, images, error));
            f.shownPercent == 100 && TickState(f, k, draw).shownPercent <= Progress.Ceiling
  {
  }

  /** The page's controller: the fields of `state` and the parts of the page the core drives. */
  class Studio {
    var aspectRatio: string
    var quantity: int
    var style: Option<string>
    var reference: Option<string>
    var isGenerating: bool
    var images: seq<ImageRef>
    var phase: Phase
    var connected: bool
    var progressVisible: bool
    var shownPercent: int
    var shownText: string
    var tickers: seq<Progress.Ticker>
    var notices: seq<string>

    function Snapshot(): State
      reads this
    {
      State(aspectRatio, quantity, style, reference, isGenerating, images, phase, connected,
            progressVisible, shownPercent, shownText, tickers, notices)
    }

    constructor ()
      ensures Snapshot() == Initial && Inv(Snapshot())
    {
      aspectRatio, quantity, style, reference := "square", 4, None, None;
      isGenerating, images, phase, connected := false, [], Idle, false;
      progressVisible, shownPercent, shownText := false, 0, "";
      tickers, notices := [], [];
    }

    /** `showError(message)`: one more notice on screen. */
    method ShowError(message: string)
      modifies this
      ensures Snapshot() == old(Snapshot()).(notices := old(notices) + [message])
    {
      notices := notices + [message];
    }

    /** `updateProgress(percent, text)`. */
    method UpdateProgress(percent: int, text: string)
      modifies this
      ensures Snapshot() == old(Snapshot()).(shownPercent := percent, shownText := text)
    {
      shownPercent, shownText := percent, text;
    }

    /** `updateStatusIndicator(isConnected)`, the declaration that wins (the later one). */
    method UpdateStatusIndicator(isConnected: bool)
      modifies this
      ensures Snapshot() == old(Snapshot()).(connected := isConnected)
    {
      connected := isConnected;
    }

    /** `checkSystemHealth` after its `fetch` settled. */
    method CheckSystemHealth(reply: HealthReply)
      modifies this
      ensures Snapshot() == CheckHealth(old(Snapshot()), reply)
    {
      match reply {
        case HealthJson(valid) => UpdateStatusIndicator(valid);
        case HealthFailed => UpdateStatusIndicator(false);
      }
    }

    /** `animateProgress`: reset the bar and start one more interval. */
    method AnimateProgress()
      modifies this
      ensures Snapshot() == old(Snapshot()).(shownPercent := 0, shownText := Progress.Messages[0],
                                             tickers := old(tickers) + [Progress.Start])
    {
      UpdateProgress(0, Progress.Messages[0]);
      tickers := tickers + [Progress.Start];
    }

    /** `generateImages` up to its `fetch`; `sent` is the request issued, if any. */
    method GenerateImages(promptText: string, hdChecked: bool, store: LocalStorage.Store)
      returns (sent: Option<Payload>)
      requires Inv(Snapshot())
      modifies this
      ensures (Snapshot(), sent) == Submit(old(Snapshot()), promptText, hdChecked, store)
    {
      var prompt := Text.Trim(promptText);
      if prompt == [] {
        ShowError(EmptyPromptError);
        return None;
      }
      if Text.JsLength(prompt) < 3 {
        ShowError(ShortPromptError);
        return None;
      }
      if isGenerating {
        return None;
      }
      isGenerating := true;
      progressVisible := true;
      AnimateProgress();
      var request := Payload(prompt, aspectRatio, quantity, style, hdChecked,
                             LocalStorage.GetItem(store, LocalStorage.PsidKey),
                             LocalStorage.GetItem(store, LocalStorage.PsidtsKey), None);
      if LocalStorage.Truthy(reference) {
        request := request.(referenceImage := reference);
      }
      phase := Awaiting;
      sent := Some(request);
    }

    /** The `finally` block of `generateImages`. */
    method LeaveBusyState()
      modifies this
      ensures Snapshot() == Settle(old(Snapshot()))
    {
      isGenerating := false;
      phase := Idle;
      if |images| == 0 {
        progressVisible := false;
      }
    }

    /** `generateImages` from the reply to the pause (success) or to its end (failure). */
    method ReceiveReply(reply: Reply)
      requires Inv(Snapshot()) && phase == Awaiting
      modifies this
      ensures Snapshot() == Receive(old(Snapshot()), reply)
    {
      if IsSuccess(reply) {
        UpdateProgress(100, FinalizingText);
        phase := Finalizing(reply.images);
        return;
      }
      var errorMsg := ErrorMessage(reply);
      ShowError(errorMsg);
      if IsAuthMessage(errorMsg) {
        UpdateStatusIndicator(false);
      }
      progressVisible := false;
      LeaveBusyState();
    }

    /** `generateImages` after the pause: keep the images, then the `finally` block. */
    method FinishDelay()
      requires Inv(Snapshot()) && phase.Finalizing?
      modifies this
      ensures Snapshot() == Finish(old(Snapshot()))
    {
      images := phase.images;
      LeaveBusyState();
    }

    /** One 500 ms tick of interval `k`, with `Math.random()` equal to `draw / RandomScale`. */
    method Tick(k: nat, draw: int)
      requires Inv(Snapshot()) && k < |tickers| && Progress.IsDraw(draw)
      modifies this
      ensures Snapshot() == TickState(old(Snapshot()), k, draw)
    {
      var t := tickers[k];
      if !isGenerating || t.percent >= Progress.Ceiling {
        tickers := tickers[..k] + tickers[k + 1..];
        return;
      }
      var next := Progress.Advance(t, draw);
      tickers := tickers[k := next];
      UpdateProgress(next.percent, Progress.Label(next));
    }

    /** `selectStyle(style)`. */
    method SelectStyle(style: string)
      modifies this
      ensures Snapshot() == ToggleStyle(old(Snapshot()), style)
    {
      if this.style == Some(style) {
        this.style := None;
      } else {
        this.style := Some(style);
      }
    }

    /** `selectAspectRatio(ratio)`. */
    method SelectAspectRatio(ratio: string)
      modifies this
      ensures Snapshot() == old(Snapshot()).(aspectRatio := ratio)
    {
      aspectRatio := ratio;
    }

    /** `selectQuantity(quantity)`. */
    method SelectQuantity(q: int)
      modifies this
      ensures Snapshot() == old(Snapshot()).(quantity := q)
    {
      quantity := q;
    }

    /** `processImageFile(file)` with the file reader's result already in hand. */
    method ProcessImageFile(sizeBytes: nat, dataUrl: string)
      modifies this
      ensures Snapshot() == AttachReference(old(Snapshot()), sizeBytes, dataUrl)
    {
      if sizeBytes > MaxUploadBytes {
        ShowError(LargeFileError);
        return;
      }
      reference := Some(dataUrl);
    }

    /** `removeReferenceImage()`. */
    method RemoveReferenceImage()
      modifies this
      ensures Snapshot() == old(Snapshot()).(reference := None)
    {
      reference := None;
    }

    /** `downloadAllImages`: one download per held image, in gallery order, numbered from 0. */
    method DownloadAllImages() returns (downloads: seq<Download>)
      ensures |downloads| == |images|
      ensures forall i :: 0 <= i < |images| ==> downloads[i] == Download(images[i].url, i)
    {
      downloads := [];
      if |images| == 0 {
        return;
      }
      var i := 0;
      while i < |images|
        invariant 0 <= i <= |images|
        invariant |downloads| == i
        invariant forall j :: 0 <= j < i ==> downloads[j] == Download(images[j].url, j)
      {
        downloads := downloads + [Download(images[i].url, i)];
        i := i + 1;
      }
    }
  }
}
