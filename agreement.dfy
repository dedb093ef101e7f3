/**
 * How the three clients' requests fare at the server's checks. The page
 * (static/js/app.js) and the React front end (frontend/src) post to the same
 * endpoints of app.py with different client-side rules. The lemmas below
 * put each client's request through the server's validation.
 */
module Agreement {
  import opened Wrappers
  import Text
  import LocalStorage
  import BackendRules
  import RequestValidation
  import Server
  import Generation
  import Chat
  import Credentials
  import ControlPanel
  import SettingsModal

  /** The `/api/generate` body the page posts, as the server reads it. */
  function PageBody(p: Generation.Payload): RequestValidation.GenerateBody {
    RequestValidation.GenerateBody(
      RequestValidation.Str(p.prompt), Some(p.aspectRatio), RequestValidation.QuantityInt(p.quantity),
      p.referenceImage, p.style, p.hdMode, Some(BackendRules.CookieData(p.psid, p.psidts)))
  }

  /** The `/api/generate` body the React panel posts: no style, no HD flag and no cookies. */
  function PanelBody(d: ControlPanel.PromptData): RequestValidation.GenerateBody {
    RequestValidation.GenerateBody(
      RequestValidation.Str(d.prompt), Some(d.aspectRatio), RequestValidation.QuantityInt(d.quantity),
      d.referenceImage, None, false, None)
  }

  /** The `/api/chat/send` body the page posts. */
  function ChatBody(p: Chat.ChatPayload): RequestValidation.ChatBody {
    RequestValidation.ChatBody(RequestValidation.Str(p.message), p.image, Some(BackendRules.CookieData(p.psid, p.psidts)))
  }

  /**
   * The page trims as the server strips, but counts the length in UTF-16
   * code units where the server counts code points. A prompt the page sends
   * is never refused as missing, and is refused as too short only when it
   * holds a character outside the Basic Multilingual Plane.
   */
  lemma PagePromptPassesServer(s: Generation.State, promptText: string, hdMode: bool, store: LocalStorage.Store,
                               global: BackendRules.Jar, clientReady: bool)
    requires Generation.Inv(s)
    requires Generation.Submit(s, promptText, hdMode, store).1.Some?
    ensures var v := RequestValidation.ValidateGenerate(Some(PageBody(Generation.Submit(s, promptText, hdMode, store).1.value)), global, clientReady);
            !(v.Reject? && v.refusal == RequestValidation.PromptRequired)
    ensures var v := RequestValidation.ValidateGenerate(Some(PageBody(Generation.Submit(s, promptText, hdMode, store).1.value)), global, clientReady);
            v.Reject? && v.refusal == RequestValidation.PromptTooShort ==> !Text.Bmp(Text.Trim(promptText))
  {
    var p := Generation.Submit(s, promptText, hdMode, store).1.value;
    assert p.prompt == Text.Trim(promptText) && Text.JsLength(p.prompt) >= 3;
    Text.TrimIdempotent(promptText);
    assert RequestValidation.StrippedText(PageBody(p).prompt) == p.prompt != [];
    if Text.Bmp(p.prompt) {
      RequestValidation.LongPromptPasses(PageBody(p), global, clientReady);
    }
  }

  /**
   * Two emoji make a prompt of length 4 for the page and of length 2 for
   * the server: the page sends it, and the server refuses it as too short.
   */
  lemma AstralPromptRefused(s: Generation.State, hdMode: bool, store: LocalStorage.Store,
                            global: BackendRules.Jar, clientReady: bool)
    requires Generation.Inv(s) && !s.isGenerating
    ensures Generation.Submit(s, "\U{1F600}\U{1F600}", hdMode, store).1.Some?
    ensures RequestValidation.ValidateGenerate(Some(PageBody(Generation.Submit(s, "\U{1F600}\U{1F600}", hdMode, store).1.value)), global, clientReady)
              == RequestValidation.Reject(400, RequestValidation.PromptTooShort)
  {
    var t := "\U{1F600}\U{1F600}";
    assert !Text.IsSpace(t[0]) && !Text.IsSpace(t[1]);
    assert Text.TrimStart(t) == t;
    assert Text.TrimEnd(t) == t;
    assert Text.JsLength(t) == 4 by {
      assert t[1..] == ['\U{1F600}'];
      assert t[1..][1..] == [];
    }
  }

  /**
   * With an allowed aspect, a quantity from 1 to 4 and a stored PSID, the
   * page's request is accepted exactly when its trimmed prompt has 3 or
   * more code points, whatever the server's own cookies; the server then
   * generates for that prompt with the stored cookies. Otherwise it is
   * refused as too short.
   */
  lemma PageRequestWithStoredCookiesAccepted(s: Generation.State, promptText: string, hdMode: bool, store: LocalStorage.Store,
                                             global: BackendRules.Jar, clientReady: bool)
    requires Generation.Inv(s)
    requires Generation.Submit(s, promptText, hdMode, store).1.Some?
    requires s.aspectRatio in RequestValidation.AspectRatios && 1 <= s.quantity <= 4
    requires LocalStorage.Truthy(LocalStorage.GetItem(store, LocalStorage.PsidKey))
    ensures var p := Generation.Submit(s, promptText, hdMode, store).1.value;
            var v := RequestValidation.ValidateGenerate(Some(PageBody(p)), global, clientReady);
            && (v.Accept? <==> |Text.Trim(promptText)| >= 3)
            && (v.Accept? ==> v.call.prompt == Text.Trim(promptText)
                              && v.call.user == Some(BackendRules.Jar(p.psid, p.psidts)))
            && (!v.Accept? ==> v == RequestValidation.Reject(400, RequestValidation.PromptTooShort))
  {
    var p := Generation.Submit(s, promptText, hdMode, store).1.value;
    assert p == Generation.BuildPayload(s, Text.Trim(promptText), hdMode, store);
    assert p.prompt == Text.Trim(promptText) && Text.JsLength(p.prompt) >= 3;
    var b := PageBody(p);
    Text.TrimIdempotent(promptText);
    assert RequestValidation.StrippedText(b.prompt) == p.prompt != [];
    assert BackendRules.UserCookies(b.cookies) == Some(BackendRules.Jar(p.psid, p.psidts));
    if |p.prompt| >= 3 {
      RequestValidation.OwnCookiesAccepted(b, global, clientReady, s.quantity);
    }
  }

  /** The React panel has no minimum length, so a two-character prompt is sent and the server refuses it. */
  lemma PanelShortPromptRefused(f: ControlPanel.Form, global: BackendRules.Jar, clientReady: bool)
    requires f.prompt == "ab" && ControlPanel.Valid(f)
    ensures ControlPanel.HandleSubmit(f).Some?
    ensures RequestValidation.ValidateGenerate(Some(PanelBody(ControlPanel.HandleSubmit(f).value)), global, clientReady)
              == RequestValidation.Reject(400, RequestValidation.PromptTooShort)
  {
    assert !Text.IsSpace(f.prompt[0]) && !Text.IsSpace(f.prompt[1]);
    assert Text.TrimStart(f.prompt) == f.prompt;
    assert Text.TrimEnd(f.prompt) == f.prompt;
  }

  /**
   * The React panel sends no cookies, so a request with a long enough
   * prompt is accepted exactly when the server's own PSID is set and its
   * client is initialised.
   */
  lemma PanelRequestsUseServerCookies(f: ControlPanel.Form, global: BackendRules.Jar, clientReady: bool)
    requires ControlPanel.Valid(f) && |Text.Trim(f.prompt)| >= 3
    ensures ControlPanel.HandleSubmit(f).Some?
    ensures (RequestValidation.ValidateGenerate(Some(PanelBody(ControlPanel.HandleSubmit(f).value)), global, clientReady).Accept?
             <==> BackendRules.Truthy(global.psid) && clientReady)
  {
    var d := ControlPanel.HandleSubmit(f).value;
    var b := PanelBody(d);
    assert d.prompt == f.prompt && d.aspectRatio in RequestValidation.AspectRatios && 1 <= d.quantity <= 4;
    assert RequestValidation.StrippedText(b.prompt) == Text.Trim(f.prompt);
    assert RequestValidation.ReadQuantity(b.quantity) == RequestValidation.Number(d.quantity);
    assert b.aspectRatio.GetOr("square") == d.aspectRatio;
    assert BackendRules.UserCookies(b.cookies).None?;
  }

  /** The page sends a chat message only when the server would take it: the same trim, the same image test. */
  lemma PageChatNeverRefused(s: Chat.ChatState, now: nat, store: LocalStorage.Store)
    requires Chat.Send(s, now, store).1.Some?
    ensures var p := Chat.Send(s, now, store).1.value.payload;
            var v := RequestValidation.ValidateChat(ChatBody(p));
            v.ChatAccept? && v.message == p.message && v.image == s.preview
  {
    var p := Chat.Send(s, now, store).1.value.payload;
    assert p.message == Text.Trim(s.input) && p.image == s.preview;
    Text.TrimIdempotent(s.input);
    assert RequestValidation.StrippedText(ChatBody(p).message) == p.message;
    assert p.message != [] || LocalStorage.Truthy(p.image);
  }

  /** A pair the page's `saveSettings` sends always passes the server's "both cookies" check. */
  lemma PageSavePassesUpdate(f: Credentials.Form)
    requires Credentials.Save(f).1.Some?
    ensures var pair := Credentials.Save(f).1.value;
            RequestValidation.CookieUpdateAccepted(Some(pair.psid), Some(pair.psidts))
  {
  }

  /** A pair the React dialog sends always passes it too. */
  lemma ModalSavePassesUpdate(m: SettingsModal.Modal)
    requires SettingsModal.Save(m).1.Some?
    ensures var body := SettingsModal.Save(m).1.value;
            RequestValidation.CookieUpdateAccepted(Some(body.psid), Some(body.psidts))
  {
  }

  /**
   * The two settings forms differ on white space: the page refuses blank
   * values, the React dialog sends them, and the server stores them as the
   * new cookies.
   */
  lemma BlankCookiesOnlyThroughDialog(f: Credentials.Form, m: SettingsModal.Modal, s: Server.ServerState, handshakeOk: bool)
    requires f.inputPsid == " " && f.inputPsidts == " "
    requires m.psid == " " && m.psidts == " "
    ensures Credentials.Save(f).1.None?
    ensures SettingsModal.Save(m).1 == Some(SettingsModal.CookieBody(" ", " "))
    ensures Server.UpdateCookies(s, Some(" "), Some(" "), handshakeOk).0.cookies == BackendRules.Jar(Some(" "), Some(" "))
  {
    assert Text.IsSpace(f.inputPsid[0]);
    assert Text.TrimStart(f.inputPsid) == [];
  }
}
