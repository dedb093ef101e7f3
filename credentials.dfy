/**
 * The credential store lifecycle of static/js/app.js: `saveSettings` sends
 * the two cookies to the server and keeps them in `localStorage` once the
 * server accepted them; `loadSavedSettings` fills the inputs back in at
 * page load.
 *
 * `saveSettings` is split at its `fetch`: `SaveSettings` runs up to the
 * request and `ReceiveSaveReply` is the code after the reply. The page
 * reload scheduled after a successful save is the flag `reloadScheduled`.
 */
module Credentials {
  import opened Wrappers
  import Text
  import LocalStorage

  /** What the save button shows. */
  datatype ButtonLabel = SaveLabel | SavingLabel | SavedLabel

  /** The body of the `/api/update_cookies` request. */
  datatype CookiePair = CookiePair(psid: string, psidts: string)

  /** What the `fetch` of `/api/update_cookies` resolves to. */
  datatype SaveReply = SaveJson(success: bool, error: Option<string>) | SaveThrown(message: string)

  /** The settings inputs, the save button, the browser storage and the notices shown. */
  datatype Form = Form(
    inputPsid: string,
    inputPsidts: string,
    button: ButtonLabel,
    disabled: bool,
    store: LocalStorage.Store,
    notices: seq<string>,
    reloadScheduled: bool)

  const MissingCookies: string := "Please enter both cookies!"
  const SaveFailedPrefix: string := "Failed to save: "
  const SaveFailedDefault: string := "Failed to save settings"

  /**
   * `saveSettings` up to its `fetch`: both inputs are trimmed; when either
   * is then empty one notice is shown and nothing else changes, otherwise
   * the button is locked and the trimmed pair is sent.
   */
  function Save(f: Form): (r: (Form, Option<CookiePair>))
    ensures r.1.None? <==> Text.Trim(f.inputPsid) == [] || Text.Trim(f.inputPsidts) == []
    ensures r.1.None? ==> r.0 == f.(notices := f.notices + [MissingCookies])
    ensures r.1.Some? ==> r.1.value == CookiePair(Text.Trim(f.inputPsid), Text.Trim(f.inputPsidts))
                          && r.0 == f.(button := SavingLabel, disabled := true)
    ensures r.0.store == f.store
  {
    var psid := Text.Trim(f.inputPsid);
    var psidts := Text.Trim(f.inputPsidts);
    if psid == [] || psidts == [] then
      (f.(notices := f.notices + [MissingCookies]), None)
    else
      (f.(button := SavingLabel, disabled := true), Some(CookiePair(psid, psidts)))
  }

  /** The message of the error the `catch` receives for a failed reply. */
  function FailureText(reply: SaveReply): (m: string)
    requires !(reply.SaveJson? && reply.success)
    ensures reply.SaveJson? && LocalStorage.Truthy(reply.error) ==> m == SaveFailedPrefix + reply.error.value
    ensures reply.SaveJson? && !LocalStorage.Truthy(reply.error) ==> m == SaveFailedPrefix + SaveFailedDefault
    ensures reply.SaveThrown? ==> m == SaveFailedPrefix + reply.message
  {
    SaveFailedPrefix + match reply
      case SaveJson(_, error) => if LocalStorage.Truthy(error) then error.value else SaveFailedDefault
      case SaveThrown(message) => message
  }

  /**
   * `saveSettings` after the reply to the request for `sent`. Only a
   * `success:true` reply writes storage, both keys at once, and schedules the
   * reload; every failure restores the button and shows one notice.
   */
  function ReceiveSave(f: Form, sent: CookiePair, reply: SaveReply): (r: Form)
    ensures reply.SaveJson? && reply.success ==>
              r == f.(store := f.store[LocalStorage.PsidKey := sent.psid][LocalStorage.PsidtsKey := sent.psidts],
                      button := SavedLabel, reloadScheduled := true)
    ensures !(reply.SaveJson? && reply.success) ==>
              r == f.(button := SaveLabel, disabled := false, notices := f.notices + [FailureText(reply)])
  {
    if reply.SaveJson? && reply.success then
      f.(store := f.store[LocalStorage.PsidKey := sent.psid][LocalStorage.PsidtsKey := sent.psidts],
         button := SavedLabel, reloadScheduled := true)
    else
      f.(button := SaveLabel, disabled := false, notices := f.notices + [FailureText(reply)])
  }

  /** `loadSavedSettings`: an input is filled only from a truthy stored value. */
  function Load(f: Form): (r: Form)
    ensures LocalStorage.Truthy(LocalStorage.GetItem(f.store, LocalStorage.PsidKey)) ==>
              r.inputPsid == f.store[LocalStorage.PsidKey]
    ensures !LocalStorage.Truthy(LocalStorage.GetItem(f.store, LocalStorage.PsidKey)) ==> r.inputPsid == f.inputPsid
    ensures LocalStorage.Truthy(LocalStorage.GetItem(f.store, LocalStorage.PsidtsKey)) ==>
              r.inputPsidts == f.store[LocalStorage.PsidtsKey]
    ensures !LocalStorage.Truthy(LocalStorage.GetItem(f.store, LocalStorage.PsidtsKey)) ==> r.inputPsidts == f.inputPsidts
    ensures r.store == f.store && r.notices == f.notices
  {
    var psid := LocalStorage.GetItem(f.store, LocalStorage.PsidKey);
    var psidts := LocalStorage.GetItem(f.store, LocalStorage.PsidtsKey);
    f.(inputPsid := if LocalStorage.Truthy(psid) then psid.value else f.inputPsid,
       inputPsidts := if LocalStorage.Truthy(psidts) then psidts.value else f.inputPsidts)
  }

  /** A freshly loaded page over the given storage, before `loadSavedSettings`. */
  function FreshPage(store: LocalStorage.Store): Form {
    Form([], [], SaveLabel, false, store, [], false)
  }

  /** The two keys are distinct, so writing one leaves the other. */
  lemma KeysDistinct()
    ensures LocalStorage.PsidKey != LocalStorage.PsidtsKey
  {
    assert |LocalStorage.PsidKey| != |LocalStorage.PsidtsKey|;
  }

  /**
   * Storage is written only by a successful reply: a rejected form, a
   * failed reply and a thrown request all leave it as it was.
   */
  lemma StoreWrittenOnlyOnSuccess(f: Form, reply: SaveReply)
    requires !(reply.SaveJson? && reply.success)
    ensures Save(f).0.store == f.store
    ensures Save(f).1.Some? ==> ReceiveSave(Save(f).0, Save(f).1.value, reply).store == f.store
  {
  }

  /**
   * Save then reload: after a successful save the reloaded page shows the
   * trimmed cookies that were sent, whatever the inputs held before.
   */
  lemma SaveThenReload(f: Form, reply: SaveReply)
    requires Save(f).1.Some? && reply.SaveJson? && reply.success
    ensures var sent := Save(f).1.value;
            var saved := ReceiveSave(Save(f).0, sent, reply);
            var page := Load(FreshPage(saved.store));
            saved.reloadScheduled && page.inputPsid == sent.psid && page.inputPsidts == sent.psidts
  {
    KeysDistinct();
  }

  /** The settings panel's elements and the browser storage. */
  class SettingsForm {
    var inputPsid: string
    var inputPsidts: string
    var button: ButtonLabel
    var disabled: bool
    var store: LocalStorage.Store
    var notices: seq<string>
    var reloadScheduled: bool

    function Snapshot(): Form
      reads this
    {
      Form(inputPsid, inputPsidts, button, disabled, store, notices, reloadScheduled)
    }

    /** A page just loaded over `saved`, with empty inputs. */
    constructor (saved: LocalStorage.Store)
      ensures Snapshot() == FreshPage(saved)
    {
      inputPsid, inputPsidts, button, disabled := [], [], SaveLabel, false;
      store, notices, reloadScheduled := saved, [], false;
    }

    /** `saveSettings` up to its `fetch`; `sent` is the request issued, if any. */
    method SaveSettings() returns (sent: Option<CookiePair>)
      modifies this
      ensures (Snapshot(), sent) == Save(old(Snapshot()))
    {
      var psid := Text.Trim(inputPsid);
      var psidts := Text.Trim(inputPsidts);
      if psid == [] || psidts == [] {
        notices := notices + [MissingCookies];
        return None;
      }
      button := SavingLabel;
      disabled := true;
      sent := Some(CookiePair(psid, psidts));
    }

    /** `saveSettings` after the reply to the request for `sent`. */
    method ReceiveSaveReply(sent: CookiePair, reply: SaveReply)
      modifies this
      ensures Snapshot() == ReceiveSave(old(Snapshot()), sent, reply)
    {
      if reply.SaveJson? && reply.success {
        store := store[LocalStorage.PsidKey := sent.psid];
        store := store[LocalStorage.PsidtsKey := sent.psidts];
        button := SavedLabel;
        reloadScheduled := true;
        return;
      }
      button := SaveLabel;
      disabled := false;
      notices := notices + [FailureText(reply)];
    }

    /** `loadSavedSettings`. */
    method LoadSavedSettings()
      modifies this
      ensures Snapshot() == Load(old(Snapshot()))
    {
      var psid := LocalStorage.GetItem(store, LocalStorage.PsidKey);
      var psidts := LocalStorage.GetItem(store, LocalStorage.PsidtsKey);
      if LocalStorage.Truthy(psid) {
        inputPsid := psid.value;
      }
      if LocalStorage.Truthy(psidts) {
        inputPsidts := psidts.value;
      }
    }
  }
}
