/**
 * The chat panel of static/js/app.js: `sendChatMessage` and the message log
 * `appendMessage` writes to.
 *
 * `sendChatMessage` is split at its `fetch`: `SendChatMessage` runs up to the
 * request and returns it together with the id of the loading placeholder,
 * and `ReceiveChatReply` is the code after the reply arrived. `Date.now()`
 * is the parameter `now`.
 */
module Chat {
  import opened Wrappers
  import Text
  import LocalStorage
  import Emphasis

  datatype Role = User | Ai

  /**
   * One child of the chat history: a message bubble holding the formatted
   * text and the image shown above it, or the loading placeholder with its id.
   */
  datatype Entry = Message(role: Role, body: string, image: Option<string>) | Loading(id: string)

  /** The body of the `/api/chat/send` request. */
  datatype ChatPayload = ChatPayload(message: string, image: Option<string>, psid: Option<string>, psidts: Option<string>)

  /** A request issued and the id of the placeholder that waits for its reply. */
  datatype Outgoing = Outgoing(payload: ChatPayload, loadingId: string)

  /** What the `fetch` of `/api/chat/send` resolves to. */
  datatype ChatReply =
    | ChatJson(success: bool, text: Option<string>, error: Option<string>)
    | ChatThrown                                   // the fetch or the JSON parse threw

  /**
   * The panel: the input box, the image preview (`Some(src)` while it is
   * displayed) and the history.
   */
  datatype ChatState = ChatState(input: string, preview: Option<string>, history: seq<Entry>)

  const Warning: string := "\U{26A0}\U{FE0F}"
  const ErrorPrefix: string := Warning + " Error: "
  const ConnectionError: string := Warning + " Connection Error"
  const LoadingPrefix: string := "loading-"

  /** The placeholder's element id for a send at time `now`. */
  function LoadingId(now: nat): (id: string)
    ensures LoadingPrefix < id
    ensures forall k :: |LoadingPrefix| <= k < |id| ==> Text.IsDigit(id[k])
    ensures Text.DecimalValue(id[|LoadingPrefix|..]) == now
  {
    Text.DecimalRoundTrip(now);
    var id := LoadingPrefix + Text.NatToString(now);
    assert id[|LoadingPrefix|..] == Text.NatToString(now);
    id
  }

  /** `appendMessage(text, role, image)`: the bubble shows the image only when it is truthy. */
  function Bubble(role: Role, text: string, image: Option<string>): (e: Entry)
    ensures e.Message? && e.role == role && e.body == Emphasis.Format(text)
    ensures e.image.Some? <==> LocalStorage.Truthy(image)
  {
    Message(role, Emphasis.Format(text), if LocalStorage.Truthy(image) then image else None)
  }

  /**
   * `sendChatMessage` up to its `fetch`. Nothing happens when the trimmed
   * text is empty and no truthy image is previewed; otherwise the user's
   * bubble and then the placeholder are appended, the input and the preview
   * are cleared, and one request carries the trimmed text, the previewed
   * image and both stored credentials.
   */
  function Send(s: ChatState, now: nat, store: LocalStorage.Store): (r: (ChatState, Option<Outgoing>))
    ensures r.1.None? <==> Text.Trim(s.input) == [] && !LocalStorage.Truthy(s.preview)
    ensures r.1.None? ==> r.0 == s
    ensures r.1.Some? ==>
              && r.0.input == [] && r.0.preview.None?
              && r.0.history == s.history + [Bubble(User, Text.Trim(s.input), s.preview), Loading(r.1.value.loadingId)]
              && r.1.value.loadingId == LoadingId(now)
              && r.1.value.payload == ChatPayload(Text.Trim(s.input), s.preview,
                                                  LocalStorage.GetItem(store, LocalStorage.PsidKey),
                                                  LocalStorage.GetItem(store, LocalStorage.PsidtsKey))
  {
    var message := Text.Trim(s.input);
    if message == [] && !LocalStorage.Truthy(s.preview) then
      (s, None)
    else
      var id := LoadingId(now);
      var payload := ChatPayload(message, s.preview,
                                 LocalStorage.GetItem(store, LocalStorage.PsidKey),
                                 LocalStorage.GetItem(store, LocalStorage.PsidtsKey));
      (ChatState([], None, s.history + [Bubble(User, message, s.preview), Loading(id)]), Some(Outgoing(payload, id)))
  }

  /** The history without the first placeholder whose id is `id`, as `getElementById(id).remove()` leaves it. */
  function RemoveLoading(h: seq<Entry>, id: string): (r: seq<Entry>)
    ensures Loading(id) in h ==> |r| == |h| - 1
    ensures Loading(id) !in h ==> r == h
  {
    if h == [] then []
    else if h[0] == Loading(id) then h[1..]
    else [h[0]] + RemoveLoading(h[1..], id)
  }

  /** Removal takes away one occurrence of the placeholder, when there is one, and nothing else. */
  lemma {:induction false} RemoveLoadingCount(h: seq<Entry>, id: string)
    ensures multiset(RemoveLoading(h, id)) == multiset(h) - multiset{Loading(id)}
  {
    if h != [] {
      assert h == [h[0]] + h[1..];
      if h[0] != Loading(id) {
        RemoveLoadingCount(h[1..], id);
        assert multiset([h[0]] + RemoveLoading(h[1..], id)) == multiset{h[0]} + multiset(RemoveLoading(h[1..], id));
      }
    }
  }

  /** The message bubbles of a history, in order, placeholders left out. */
  function Messages(h: seq<Entry>): (r: seq<Entry>)
    ensures |r| <= |h|
    ensures forall k :: 0 <= k < |r| ==> r[k].Message?
    ensures forall e {:trigger e in r} :: e in r <==> e in h && e.Message?
  {
    if h == [] then []
    else
      assert forall e :: e in h <==> e == h[0] || e in h[1..];
      (if h[0].Message? then [h[0]] else []) + Messages(h[1..])
  }

  predicate ReplyCarriesText(reply: ChatReply) {
    reply.ChatJson? && reply.success && reply.text.Some?
  }

  /**
   * The text of the AI bubble a reply produces. A successful reply without a
   * text makes `appendMessage` throw, and the `catch` shows the connection
   * error; a missing error reads "undefined".
   */
  function ReplyText(reply: ChatReply): (t: string)
    ensures ReplyCarriesText(reply) ==> t == reply.text.value
    ensures !ReplyCarriesText(reply) ==> Warning <= t
    ensures reply.ChatJson? && !reply.success ==> t == ErrorPrefix + reply.error.GetOr("undefined")
  {
    match reply
    case ChatJson(success, text, error) =>
      if success then (if text.Some? then text.value else ConnectionError)
      else ErrorPrefix + error.GetOr("undefined")
    case ChatThrown => ConnectionError
  }

  /**
   * The placeholders a reply's handling removes by `id`: one, or two when a
   * successful reply without a text removes again in the `catch`.
   */
  function Removed(id: string, reply: ChatReply): multiset<Entry> {
    if reply.ChatJson? && reply.success && reply.text.None? then multiset{Loading(id), Loading(id)}
    else multiset{Loading(id)}
  }

  /**
   * `sendChatMessage` after the reply: the placeholder goes, then exactly one
   * AI bubble is appended. A successful reply without a text removes by the
   * same id once more in the `catch` before the connection error is shown.
   */
  function Receive(s: ChatState, id: string, reply: ChatReply): (r: ChatState)
    ensures r.input == s.input && r.preview == s.preview
    ensures Messages(r.history) == Messages(s.history) + [Bubble(Ai, ReplyText(reply), None)]
    ensures multiset(r.history) == multiset(s.history) - Removed(id, reply) + multiset{Bubble(Ai, ReplyText(reply), None)}
    ensures multiset(s.history)[Loading(id)] <= 1 ==> Loading(id) !in r.history
  {
    var once := RemoveLoading(s.history, id);
    var kept := if reply.ChatJson? && reply.success && reply.text.None? then RemoveLoading(once, id) else once;
    var ai := Bubble(Ai, ReplyText(reply), None);
    ReceiveHistory(s.history, kept, id, reply, ai);
    s.(history := kept + [ai])
  }

  /** The bookkeeping of `Receive`: what was removed by `id`, and the one bubble added. */
  lemma ReceiveHistory(h: seq<Entry>, kept: seq<Entry>, id: string, reply: ChatReply, ai: Entry)
    requires ai.Message?
    requires kept == (var once := RemoveLoading(h, id);
                      if reply.ChatJson? && reply.success && reply.text.None? then RemoveLoading(once, id) else once)
    ensures Messages(kept + [ai]) == Messages(h) + [ai]
    ensures multiset(kept + [ai]) == multiset(h) - Removed(id, reply) + multiset{ai}
    ensures multiset(h)[Loading(id)] <= 1 ==> Loading(id) !in kept + [ai]
  {
    assert Messages(kept) == Messages(h) by {
      RemoveLoadingKeepsMessages(h, id);
      RemoveLoadingKeepsMessages(RemoveLoading(h, id), id);
    }
    assert Messages(kept + [ai]) == Messages(kept) + [ai] by {
      MessagesAppend(kept, [ai]);
    }
    assert multiset(kept) == multiset(h) - Removed(id, reply) by {
      KeptCount(h, kept, id, reply);
    }
    AddMessage(multiset(h) - Removed(id, reply), kept, ai, Loading(id));
  }

  lemma KeptCount(h: seq<Entry>, kept: seq<Entry>, id: string, reply: ChatReply)
    requires kept == (var once := RemoveLoading(h, id);
                      if reply.ChatJson? && reply.success && reply.text.None? then RemoveLoading(once, id) else once)
    ensures multiset(kept) == multiset(h) - Removed(id, reply)
  {
    var l := Loading(id);
    var once := RemoveLoading(h, id);
    RemoveLoadingCount(h, id);
    RemoveLoadingCount(once, id);
    if reply.ChatJson? && reply.success && reply.text.None? {
      assert multiset(h) - multiset{l} - multiset{l} == multiset(h) - multiset{l, l};
    }
  }

  lemma AddMessage(m: multiset<Entry>, kept: seq<Entry>, ai: Entry, l: Entry)
    requires multiset(kept) == m && ai.Message? && l.Loading?
    ensures multiset(kept + [ai]) == m + multiset{ai}
    ensures m[l] == 0 ==> l !in kept + [ai]
  {
    assert multiset(kept + [ai]) == multiset(kept) + multiset{ai};
    if m[l] == 0 {
      assert multiset(kept + [ai])[l] == 0;
    }
  }

  /** Removing a placeholder leaves every message bubble where it was. */
  lemma {:induction false} RemoveLoadingKeepsMessages(h: seq<Entry>, id: string)
    ensures Messages(RemoveLoading(h, id)) == Messages(h)
  {
    if h != [] && h[0] != Loading(id) {
      RemoveLoadingKeepsMessages(h[1..], id);
      MessagesAppend([h[0]], RemoveLoading(h[1..], id));
      assert ([h[0]] + RemoveLoading(h[1..], id))[1..] == RemoveLoading(h[1..], id);
    } else if h != [] {
      assert !h[0].Message?;
    }
  }

  lemma {:induction false} MessagesAppend(a: seq<Entry>, b: seq<Entry>)
    ensures Messages(a + b) == Messages(a) + Messages(b)
  {
    if a != [] {
      assert (a + b)[1..] == a[1..] + b;
      MessagesAppend(a[1..], b);
    } else {
      assert a + b == b;
    }
  }

  /** Removal by an id no earlier placeholder carries reaches past the prefix untouched. */
  lemma {:induction false} RemoveLoadingAfter(h: seq<Entry>, t: seq<Entry>, id: string)
    requires Loading(id) !in h
    ensures RemoveLoading(h + t, id) == h + RemoveLoading(t, id)
  {
    if h != [] {
      assert (h + t)[0] == h[0];
      assert (h + t)[1..] == h[1..] + t;
      RemoveLoadingAfter(h[1..], t, id);
    } else {
      assert h + t == t;
    }
  }

  /**
   * A full exchange with a fresh placeholder id: the history gains exactly
   * the user's bubble and then the AI's bubble, and no placeholder remains.
   */
  lemma SendThenReceive(s: ChatState, now: nat, store: LocalStorage.Store, reply: ChatReply)
    requires Send(s, now, store).1.Some?
    requires Loading(LoadingId(now)) !in s.history
    ensures var id := LoadingId(now);
            Receive(Send(s, now, store).0, id, reply).history
              == s.history + [Bubble(User, Text.Trim(s.input), s.preview), Bubble(Ai, ReplyText(reply), None)]
  {
    var id := LoadingId(now);
    var user := Bubble(User, Text.Trim(s.input), s.preview);
    var pre := s.history + [user];
    assert Loading(id) !in pre;
    assert Send(s, now, store).0.history == pre + [Loading(id)];
    RemoveLoadingAfter(pre, [Loading(id)], id);
    assert RemoveLoading([Loading(id)], id) == [];
    assert RemoveLoading(pre + [Loading(id)], id) == pre;
  }

  /** The chat panel's elements. */
  class Session {
    var input: string
    var preview: Option<string>
    var history: seq<Entry>

    function Snapshot(): ChatState
      reads this
    {
      ChatState(input, preview, history)
    }

    constructor ()
      ensures Snapshot() == ChatState([], None, [])
    {
      input, preview, history := [], None, [];
    }

    /** The file reader's `onload`: the preview shows the data URL. */
    method ShowPreview(dataUrl: string)
      modifies this
      ensures Snapshot() == old(Snapshot()).(preview := Some(dataUrl))
    {
      preview := Some(dataUrl);
    }

    /** The remove button: the preview is hidden. */
    method HidePreview()
      modifies this
      ensures Snapshot() == old(Snapshot()).(preview := None)
    {
      preview := None;
    }

    /** `appendMessage(text, role, image)`. */
    method AppendMessage(text: string, role: Role, image: Option<string>)
      modifies this
      ensures Snapshot() == old(Snapshot()).(history := old(history) + [Bubble(role, text, image)])
    {
      var shown: Option<string> := None;
      if LocalStorage.Truthy(image) {
        shown := image;
      }
      history := history + [Message(role, Emphasis.Format(text), shown)];
    }

    /** `document.getElementById(id)?.remove()`. */
    method RemoveElement(id: string)
      modifies this
      ensures Snapshot() == old(Snapshot()).(history := RemoveLoading(old(history), id))
    {
      history := RemoveLoading(history, id);
    }

    /** `sendChatMessage` up to its `fetch`. */
    method SendChatMessage(now: nat, store: LocalStorage.Store) returns (sent: Option<Outgoing>)
      modifies this
      ensures (Snapshot(), sent) == Send(old(Snapshot()), now, store)
    {
      var message := Text.Trim(input);
      var imageBase64 := preview;
      if message == [] && !LocalStorage.Truthy(imageBase64) {
        return None;
      }
      ghost var expected := Send(old(Snapshot()), now, store);
      ghost var before := history;
      AppendMessage(message, User, imageBase64);
      input := [];
      preview := None;
      var loadingId := LoadingId(now);
      history := history + [Loading(loadingId)];
      assert history == before + [Bubble(User, message, imageBase64), Loading(loadingId)];
      var payload := ChatPayload(message, imageBase64,
                                 LocalStorage.GetItem(store, LocalStorage.PsidKey),
                                 LocalStorage.GetItem(store, LocalStorage.PsidtsKey));
      sent := Some(Outgoing(payload, loadingId));
      assert expected.1 == sent;
      assert expected.0 == ChatState([], None, history);
    }

    /** `sendChatMessage` once the reply for the placeholder `loadingId` arrived. */
    method ReceiveChatReply(loadingId: string, reply: ChatReply)
      modifies this
      ensures Snapshot() == Receive(old(Snapshot()), loadingId, reply)
    {
      match reply {
        case ChatThrown =>
          RemoveElement(loadingId);
          AppendMessage(ConnectionError, Ai, None);
        case ChatJson(success, text, error) =>
          RemoveElement(loadingId);
          if !success {
            AppendMessage(ErrorPrefix + error.GetOr("undefined"), Ai, None);
          } else if text.Some? {
            AppendMessage(text.value, Ai, None);
          } else {
            // `data.text.replace` throws; the `catch` removes by the same id once more.
            RemoveElement(loadingId);
            AppendMessage(ConnectionError, Ai, None);
          }
      }
    }
  }
}
