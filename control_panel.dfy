/**
 * The React `ControlPanel` of frontend/src/components/ControlPanel.jsx: the
 * form state behind its inputs, the gate of `handleSubmit` and the object it
 * hands to `onGenerate`, and the rule that disables the generate button.
 */
module ControlPanel {
  import opened Wrappers
  import Text

  /** The three aspect buttons; each sets the aspect to its own id. */
  datatype AspectId = Square | Portrait | Landscape {
    function Id(): (id: string)
      ensures |id| >= 6
    {
      match this
      case Square => "square"
      case Portrait => "portrait"
      case Landscape => "landscape"
    }
  }

  /** The object `handleSubmit` passes to `onGenerate`, which posts it as the request body. */
  datatype PromptData = PromptData(prompt: string, aspectRatio: string, quantity: int, referenceImage: Option<string>)

  /** The component's state: the textarea, the aspect, the slider and the loaded reference image (`None` for `null`). */
  datatype Form = Form(prompt: string, aspect: AspectId, quantity: int, referenceImage: Option<string>)

  /** The state a freshly mounted panel starts from. */
  const Initial: Form := Form("", Landscape, 1, None)

  /** The slider only produces the values 1 to 4. */
  predicate Valid(f: Form) {
    1 <= f.quantity <= 4
  }

  /**
   * `handleSubmit`: nothing when the trimmed prompt is empty, otherwise one
   * `onGenerate` call carrying the prompt as typed (not trimmed) and the
   * current aspect, quantity and reference image.
   */
  function HandleSubmit(f: Form): (r: Option<PromptData>)
    ensures r.None? <==> Text.AllSpace(f.prompt)
    ensures r.Some? ==> r.value.prompt == f.prompt && r.value.referenceImage == f.referenceImage
    ensures r.Some? ==> r.value.aspectRatio in {"square", "portrait", "landscape"}
    ensures r.Some? && Valid(f) ==> 1 <= r.value.quantity <= 4
    ensures r.Some? ==> r.value == PromptData(f.prompt, f.aspect.Id(), f.quantity, f.referenceImage)
  {
    if Text.Trim(f.prompt) == [] then None
    else Some(PromptData(f.prompt, f.aspect.Id(), f.quantity, f.referenceImage))
  }

  /** The generate button is disabled while the trimmed prompt is empty or a generation runs. */
  predicate ButtonDisabled(f: Form, isGenerating: bool)
    ensures ButtonDisabled(f, isGenerating) <==> Text.AllSpace(f.prompt) || isGenerating
  {
    Text.Trim(f.prompt) == [] || isGenerating
  }

  /** Unlike the server, the panel has no minimum length: a two-character prompt is sent, untrimmed. */
  lemma NoMinimumLength(f: Form)
    requires f.prompt == " ab"
    ensures HandleSubmit(f) == Some(PromptData(" ab", f.aspect.Id(), f.quantity, f.referenceImage))
  {
    assert !Text.IsSpace(f.prompt[1]);
  }

  /** An enabled button always submits; a disabled one only because of the prompt or a running generation. */
  lemma EnabledButtonSubmits(f: Form, isGenerating: bool)
    ensures !ButtonDisabled(f, isGenerating) ==> HandleSubmit(f).Some?
    ensures HandleSubmit(f).None? ==> ButtonDisabled(f, isGenerating)
  {
  }

  /** The panel as mounted: its request, if submitted with a prompt, is a landscape request for one image. */
  lemma InitialRequest(prompt: string)
    requires !Text.AllSpace(prompt)
    ensures Valid(Initial)
    ensures HandleSubmit(Initial.(prompt := prompt)) == Some(PromptData(prompt, "landscape", 1, None))
  {
  }

  /** The component with its state setters. */
  class Panel {
    var prompt: string
    var aspect: AspectId
    var quantity: int
    var referenceImage: Option<string>

    function Snapshot(): Form
      reads this
    {
      Form(prompt, aspect, quantity, referenceImage)
    }

    constructor ()
      ensures Snapshot() == Initial && Valid(Snapshot())
    {
      prompt := "";
      aspect := Landscape;
      quantity := 1;
      referenceImage := None;
    }

    /** The textarea's `onChange`. */
    method SetPrompt(text: string)
      modifies this
      ensures Snapshot() == old(Snapshot()).(prompt := text)
    {
      prompt := text;
    }

    /** An aspect button's `onClick`. */
    method SelectAspect(choice: AspectId)
      modifies this
      ensures Snapshot() == old(Snapshot()).(aspect := choice)
    {
      aspect := choice;
    }

    /** The slider's `onChange`; `position` is the range input's value, between its `min` and `max`. */
    method SetQuantity(position: int)
      requires 1 <= position <= 4
      modifies this
      ensures Snapshot() == old(Snapshot()).(quantity := position) && Valid(Snapshot())
    {
      quantity := position;
    }

    /** The file reader's `onload` after a file was chosen: the data URL becomes the reference image. */
    method ReferenceLoaded(dataUrl: string)
      modifies this
      ensures Snapshot() == old(Snapshot()).(referenceImage := Some(dataUrl))
    {
      referenceImage := Some(dataUrl);
    }

    /** The remove button over the reference image: back to `null`, nothing else touched. */
    method RemoveReferenceImage()
      modifies this
      ensures Snapshot() == old(Snapshot()).(referenceImage := None)
    {
      referenceImage := None;
    }

    /** `handleSubmit`; it reads the state and changes none of it. */
    method Submit() returns (sent: Option<PromptData>)
      ensures sent == HandleSubmit(Snapshot())
      ensures sent.None? <==> Text.Trim(prompt) == []
    {
      if Text.Trim(prompt) == [] {
        return None;
      }
      return Some(PromptData(prompt, aspect.Id(), quantity, referenceImage));
    }
  }
}
