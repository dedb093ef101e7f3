/**
 * The React `App` of frontend/src/App.jsx: `handleGenerate` with its two
 * state variables `isGenerating` and `generatedImages`, the alert raised on
 * a failure, and which parts of the page are rendered. The handler is split
 * at its `await`: `Start` runs before the request, `Finish` once the reply
 * (or the exception) is in.
 */
module AppView {
  import opened Wrappers
  import LocalStorage
  import Collection
  import ControlPanel

  /** What `fetch` and `response.json()` give the handler: a parsed body, or an exception with its message. */
  datatype GenerateReply =
    | ReplyJson(success: bool, images: seq<Collection.GeneratedImage>, error: Option<string>)
    | ReplyThrown(message: string)

  /** The component's state; `alerts` are the `alert` calls made so far. */
  datatype AppState = AppState(
    isGenerating: bool,
    generatedImages: seq<Collection.GeneratedImage>,
    isSettingsOpen: bool,
    alerts: seq<string>)

  const Initial: AppState := AppState(false, [], false, [])

  const AlertPrefix: string := "Failed to generate: "

  /** `handleGenerate` up to its `fetch`, whether or not a generation is already running. */
  function Start(s: AppState): (r: AppState)
    ensures r.isGenerating && r.generatedImages == []
    ensures r.isSettingsOpen == s.isSettingsOpen && r.alerts == s.alerts
  {
    s.(isGenerating := true, generatedImages := [])
  }

  predicate Succeeded(reply: GenerateReply) {
    reply.ReplyJson? && reply.success
  }

  /**
   * The message of the error the handler catches: `new Error(data.error)`
   * for a failed reply (an empty message when `error` is missing), or the
   * exception's own message.
   */
  function CaughtMessage(reply: GenerateReply): (m: string)
    requires !Succeeded(reply)
    ensures reply.ReplyJson? ==> m == reply.error.GetOr([])
    ensures reply.ReplyThrown? ==> m == reply.message
  {
    match reply
    case ReplyJson(_, _, error) => error.GetOr([])
    case ReplyThrown(message) => message
  }

  /**
   * The handler after its `await`: a success stores the reply's images as
   * they are; anything else raises one alert and leaves the images alone.
   * Either way `finally` ends the busy state.
   */
  function Finish(s: AppState, reply: GenerateReply): (r: AppState)
    ensures !r.isGenerating && r.isSettingsOpen == s.isSettingsOpen
    ensures Succeeded(reply) ==> r.generatedImages == reply.images && r.alerts == s.alerts
    ensures !Succeeded(reply) ==> r.generatedImages == s.generatedImages
                                  && r.alerts == s.alerts + [AlertPrefix + CaughtMessage(reply)]
  {
    if Succeeded(reply) then s.(isGenerating := false, generatedImages := reply.images)
    else s.(isGenerating := false, alerts := s.alerts + [AlertPrefix + CaughtMessage(reply)])
  }

  /** The gallery is rendered only with images to show. */
  predicate GalleryShown(s: AppState) {
    |s.generatedImages| > 0
  }

  /** The loading overlay is rendered only while a generation runs. */
  predicate OverlayShown(s: AppState) {
    s.isGenerating
  }

  /** While the request is out, the overlay is up and the old gallery is gone. */
  lemma StartShowsOverlayOnly(s: AppState)
    ensures OverlayShown(Start(s)) && !GalleryShown(Start(s))
  {
  }

  /**
   * A whole `handleGenerate`: the overlay is gone afterwards; a success shows
   * exactly the reply's images, in order; a failure shows no gallery and
   * adds exactly one alert, which carries the error text.
   */
  lemma HandleGenerateOutcome(s: AppState, reply: GenerateReply)
    ensures var r := Finish(Start(s), reply);
            && !OverlayShown(r)
            && (Succeeded(reply) ==> r.generatedImages == reply.images && (GalleryShown(r) <==> reply.images != []))
            && (!Succeeded(reply) ==> !GalleryShown(r) && |r.alerts| == |s.alerts| + 1
                                      && r.alerts[|s.alerts|] == AlertPrefix + CaughtMessage(reply))
  {
  }

  /** The handler has no busy guard of its own: a second call while one runs restarts the same way. */
  lemma NoBusyGuard(s: AppState)
    ensures Start(s.(isGenerating := true)) == Start(s.(isGenerating := false))
  {
  }

  /** The component with its state setters. */
  class App {
    var isGenerating: bool
    var generatedImages: seq<Collection.GeneratedImage>
    var isSettingsOpen: bool
    var alerts: seq<string>

    function Snapshot(): AppState
      reads this
    {
      AppState(isGenerating, generatedImages, isSettingsOpen, alerts)
    }

    constructor ()
      ensures Snapshot() == Initial
    {
      isGenerating := false;
      generatedImages := [];
      isSettingsOpen := false;
      alerts := [];
    }

    /** `handleGenerate` before its `await`; the request body is the object the panel submitted. */
    method HandleGenerateStart(promptData: ControlPanel.PromptData) returns (request: ControlPanel.PromptData)
      modifies this
      ensures Snapshot() == Start(old(Snapshot()))
      ensures request == promptData
    {
      isGenerating := true;
      generatedImages := [];
      request := promptData;
    }

    /** `handleGenerate` after its `await`, through `finally`. */
    method HandleGenerateFinish(reply: GenerateReply)
      modifies this
      ensures Snapshot() == Finish(old(Snapshot()), reply)
    {
      if Succeeded(reply) {
        generatedImages := reply.images;
      } else {
        alerts := alerts + [AlertPrefix + CaughtMessage(reply)];
      }
      isGenerating := false;
    }

    /** `setIsSettingsOpen`, used by the header's settings button and by the dialog. */
    method SetSettingsOpen(open: bool)
      modifies this
      ensures Snapshot() == old(Snapshot()).(isSettingsOpen := open)
    {
      isSettingsOpen := open;
    }
  }
}
