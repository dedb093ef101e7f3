/**
 * The React `SettingsModal` of frontend/src/components/SettingsModal.jsx:
 * the two cookie fields, the status line, the saving flag, and `handleSave`
 * split at its `await` into `Save` and `ReceiveSave`. The delayed close
 * after a success is `CloseTimer`, called once per pending timeout. The
 * dialog keeps nothing in browser storage: its state below is all it has.
 */
module SettingsModal {
  import opened Wrappers
  import LocalStorage

  /** The status `type`: `''`, `'error'` or `'success'`. */
  datatype StatusKind = Plain | ErrorKind | SuccessKind

  datatype Status = Status(kind: StatusKind, message: string)

  const Cleared: Status := Status(Plain, "")

  /** What `fetch` and `response.json()` give the handler. */
  datatype SaveReply = SaveJson(success: bool, error: Option<string>) | SaveThrown(message: string)

  /** The request body `{ psid, psidts }`. */
  datatype CookieBody = CookieBody(psid: string, psidts: string)

  /** The dialog's state; `open` is the parent's flag, `pendingCloses` the success timeouts not yet run. */
  datatype Modal = Modal(open: bool, psid: string, psidts: string, status: Status, isSaving: bool, pendingCloses: nat)

  const BothCookiesPrompt: string := "\U{26A0}\U{FE0F} Please enter both cookies!"
  const SavedReconnecting: string := "\U{2705} Cookies saved! Reconnecting..."
  const FailedToSave: string := "Failed to save"
  const ConnectionFailedPrefix: string := "Connection failed: "

  /**
   * `handleSave` before its `await`: an empty field (emptiness only, no
   * trimming) sets the error status and stops; otherwise the status is
   * cleared, the saving flag set and both fields sent as typed.
   */
  function Save(m: Modal): (r: (Modal, Option<CookieBody>))
    ensures r.1.None? <==> m.psid == [] || m.psidts == []
    ensures r.1.None? ==> r.0 == m.(status := Status(ErrorKind, BothCookiesPrompt))
    ensures r.1.Some? ==> r.1.value == CookieBody(m.psid, m.psidts)
                          && r.0 == m.(isSaving := true, status := Cleared)
  {
    if m.psid == [] || m.psidts == [] then (m.(status := Status(ErrorKind, BothCookiesPrompt)), None)
    else (m.(isSaving := true, status := Cleared), Some(CookieBody(m.psid, m.psidts)))
  }

  predicate Succeeded(reply: SaveReply) {
    reply.SaveJson? && reply.success
  }

  /** The error status text: the server's `error` or "Failed to save", or the exception's message after "Connection failed: ". */
  function FailureMessage(reply: SaveReply): (t: string)
    requires !Succeeded(reply)
    ensures reply.SaveJson? && LocalStorage.Truthy(reply.error) ==> t == reply.error.value
    ensures reply.SaveJson? && !LocalStorage.Truthy(reply.error) ==> t == FailedToSave
    ensures reply.SaveThrown? ==> t == ConnectionFailedPrefix + reply.message
    ensures t != []
  {
    match reply
    case SaveJson(_, error) => if LocalStorage.Truthy(error) then error.value else FailedToSave
    case SaveThrown(message) => ConnectionFailedPrefix + message
  }

  /**
   * `handleSave` after its `await`: a success status with one more close
   * pending, or an error status; `finally` clears the saving flag. The
   * fields and the open flag are untouched.
   */
  function ReceiveSave(m: Modal, reply: SaveReply): (r: Modal)
    ensures !r.isSaving
    ensures r.open == m.open && r.psid == m.psid && r.psidts == m.psidts
    ensures Succeeded(reply) ==> r.status == Status(SuccessKind, SavedReconnecting) && r.pendingCloses == m.pendingCloses + 1
    ensures !Succeeded(reply) ==> r.status == Status(ErrorKind, FailureMessage(reply)) && r.pendingCloses == m.pendingCloses
  {
    if Succeeded(reply) then
      m.(status := Status(SuccessKind, SavedReconnecting), pendingCloses := m.pendingCloses + 1, isSaving := false)
    else
      m.(status := Status(ErrorKind, FailureMessage(reply)), isSaving := false)
  }

  /** The delayed callback after a success: the dialog closes and the fields and the status are cleared. */
  function CloseTimer(m: Modal): (r: Modal)
    requires m.pendingCloses > 0
    ensures !r.open && r.psid == [] && r.psidts == [] && r.status == Cleared
    ensures r.isSaving == m.isSaving && r.pendingCloses == m.pendingCloses - 1
  {
    Modal(false, [], [], Cleared, m.isSaving, m.pendingCloses - 1)
  }

  /** A refused save changes only the status: the saving flag keeps its value and nothing is sent. */
  lemma RefusalKeepsSavingFlag(m: Modal)
    requires m.psid == [] || m.psidts == []
    ensures Save(m).0.isSaving == m.isSaving && Save(m).1.None?
    ensures Save(m).0.status.kind == ErrorKind
  {
  }

  /** Fields of white space only are not empty, so they are sent as they are. */
  lemma WhitespaceIsSent(m: Modal)
    requires m.psid == " " && m.psidts == "\t"
    ensures Save(m).1 == Some(CookieBody(" ", "\t"))
  {
  }

  /** Whatever the reply, a sent save ends with the saving flag cleared and a non-empty status. */
  lemma SaveAlwaysSettles(m: Modal, reply: SaveReply)
    requires Save(m).1.Some?
    ensures var r := ReceiveSave(Save(m).0, reply);
            !r.isSaving && r.status.message != [] && (r.status.kind == SuccessKind <==> Succeeded(reply))
  {
  }

  /** A successful save, once its timeout has run, leaves a closed, empty dialog. */
  lemma SuccessThenClose(m: Modal, reply: SaveReply)
    requires Save(m).1.Some? && Succeeded(reply)
    ensures var r := CloseTimer(ReceiveSave(Save(m).0, reply));
            r == Modal(false, [], [], Cleared, false, m.pendingCloses)
  {
  }

  /** The dialog component with its state setters. */
  class Dialog {
    var open: bool
    var psid: string
    var psidts: string
    var status: Status
    var isSaving: bool
    var pendingCloses: nat

    function Snapshot(): Modal
      reads this
    {
      Modal(open, psid, psidts, status, isSaving, pendingCloses)
    }

    constructor (isOpen: bool)
      ensures Snapshot() == Modal(isOpen, [], [], Cleared, false, 0)
    {
      open := isOpen;
      psid := [];
      psidts := [];
      status := Cleared;
      isSaving := false;
      pendingCloses := 0;
    }

    /** The `onOpenChange` of the dialog, which sets the parent's flag. */
    method SetOpen(isOpen: bool)
      modifies this
      ensures Snapshot() == old(Snapshot()).(open := isOpen)
    {
      open := isOpen;
    }

    /** The PSID input's `onChange`. */
    method SetPsid(value: string)
      modifies this
      ensures Snapshot() == old(Snapshot()).(psid := value)
    {
      psid := value;
    }

    /** The PSIDTS input's `onChange`. */
    method SetPsidts(value: string)
      modifies this
      ensures Snapshot() == old(Snapshot()).(psidts := value)
    {
      psidts := value;
    }

    /** `handleSave` before its `await`. */
    method HandleSave() returns (request: Option<CookieBody>)
      modifies this
      ensures (Snapshot(), request) == Save(old(Snapshot()))
    {
      if psid == [] || psidts == [] {
        status := Status(ErrorKind, BothCookiesPrompt);
        return None;
      }
      isSaving := true;
      status := Cleared;
      request := Some(CookieBody(psid, psidts));
    }

    /** `handleSave` after its `await`, through `finally`. */
    method ReceiveSaveReply(reply: SaveReply)
      modifies this
      ensures Snapshot() == ReceiveSave(old(Snapshot()), reply)
    {
      if Succeeded(reply) {
        status := Status(SuccessKind, SavedReconnecting);
        pendingCloses := pendingCloses + 1;
      } else {
        status := Status(ErrorKind, FailureMessage(reply));
      }
      isSaving := false;
    }

    /** One pending success timeout runs. */
    method CloseTimerFires()
      requires pendingCloses > 0
      modifies this
      ensures Snapshot() == CloseTimer(old(Snapshot()))
    {
      open := false;
      status := Cleared;
      psid := [];
      psidts := [];
      pendingCloses := pendingCloses - 1;
    }
  }
}
