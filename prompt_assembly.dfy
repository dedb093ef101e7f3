/**
 * The text `GeminiClient.generate_images` in app.py sends upstream: the
 * user's prompt followed by the style, the HD quality boosters, the aspect
 * instruction and a fixed negative suffix; or, when a reference image was
 * decoded, a short variation request instead.
 */
module PromptAssembly {
  import opened Wrappers
  import LocalStorage

  const Boosters: string := "highly detailed, 8k resolution, photorealistic, cinematic lighting, HDR, professional photography, masterpiece"
  const WideSuffix: string := ", wide view, 16:9 aspect ratio"
  const TallSuffix: string := ", tall view, 9:16 aspect ratio"
  const NegativeSuffix: string := " --no grid, collage, text, watermark, blur"
  const VariationPrefix: string := "Make a variation of this image: "

  /** The generation options that shape the text. */
  datatype Options = Options(aspectRatio: string, style: Option<string>, hdMode: bool)

  /** `quality_boosters`: the fixed list, prefixed by the style when one is set. */
  function QualityBoosters(style: Option<string>): (b: string)
    ensures LocalStorage.Truthy(style) ==> b == style.value + ", " + Boosters
    ensures !LocalStorage.Truthy(style) ==> b == Boosters
  {
    if LocalStorage.Truthy(style) then style.value + ", " + Boosters else Boosters
  }

  /** The aspect instruction: only landscape and portrait add one. */
  function AspectSuffix(aspectRatio: string): (s: string)
    ensures aspectRatio == "landscape" ==> s == WideSuffix
    ensures aspectRatio == "portrait" ==> s == TallSuffix
    ensures aspectRatio != "landscape" && aspectRatio != "portrait" ==> s == []
  {
    if aspectRatio == "landscape" then WideSuffix
    else if aspectRatio == "portrait" then TallSuffix
    else []
  }

  /** What the options add between the prompt and the aspect instruction: the style, then the boosters. */
  function Decoration(o: Options): (d: string)
    ensures LocalStorage.Truthy(o.style) && o.hdMode ==> d == ", " + o.style.value + " style" + ", " + o.style.value + ", " + Boosters
    ensures LocalStorage.Truthy(o.style) && !o.hdMode ==> d == ", " + o.style.value + " style"
    ensures !LocalStorage.Truthy(o.style) && o.hdMode ==> d == ", " + Boosters
    ensures !LocalStorage.Truthy(o.style) && !o.hdMode ==> d == []
  {
    (if LocalStorage.Truthy(o.style) then ", " + o.style.value + " style" else [])
    + (if o.hdMode then ", " + QualityBoosters(o.style) else [])
  }

  /**
   * The text-to-image prompt, laid out as the raw prompt, the decoration,
   * the aspect instruction and the negative suffix, each in its place.
   */
  function TextPrompt(prompt: string, o: Options): (r: string)
    ensures |r| == |prompt| + |Decoration(o)| + |AspectSuffix(o.aspectRatio)| + |NegativeSuffix|
    ensures r[..|prompt|] == prompt
    ensures r[|prompt|..|prompt| + |Decoration(o)|] == Decoration(o)
    ensures r[|prompt| + |Decoration(o)|..|r| - |NegativeSuffix|] == AspectSuffix(o.aspectRatio)
    ensures r[|r| - |NegativeSuffix|..] == NegativeSuffix
  {
    var d := Decoration(o);
    var a := AspectSuffix(o.aspectRatio);
    var r := prompt + d + a + NegativeSuffix;
    assert r[..|prompt|] == prompt;
    assert r[|prompt|..|prompt| + |d|] == d;
    assert r[|prompt| + |d|..|r| - |NegativeSuffix|] == a;
    assert r[|r| - |NegativeSuffix|..] == NegativeSuffix;
    r
  }

  /** The image-to-image prompt used once a reference image was decoded. */
  function VariationPrompt(prompt: string, style: Option<string>): (r: string)
    ensures LocalStorage.Truthy(style) ==> r == VariationPrefix + prompt + " in " + style.value + " style"
    ensures !LocalStorage.Truthy(style) ==> r == VariationPrefix + prompt
  {
    VariationPrefix + prompt + (if LocalStorage.Truthy(style) then " in " + style.value + " style" else [])
  }

  /**
   * `generation_prompt` as finally sent: the variation request when a
   * truthy reference image was decoded (`decoded` is whether the base64
   * decode and the temporary file write succeeded), the text prompt
   * otherwise.
   */
  function GenerationPrompt(prompt: string, o: Options, reference: Option<string>, decoded: bool): (r: string)
    ensures LocalStorage.Truthy(reference) && decoded ==> r == VariationPrompt(prompt, o.style)
    ensures !(LocalStorage.Truthy(reference) && decoded) ==> r == TextPrompt(prompt, o)
  {
    if LocalStorage.Truthy(reference) && decoded then VariationPrompt(prompt, o.style) else TextPrompt(prompt, o)
  }

  /**
   * With both a style and HD mode, the style is named twice: once as
   * ", <style> style" and once leading the boosters.
   */
  lemma StyledHdPrompt(prompt: string, style: string, aspectRatio: string)
    requires style != ""
    ensures TextPrompt(prompt, Options(aspectRatio, Some(style), true))
              == prompt + (", " + style + " style" + ", " + style + ", " + Boosters) + AspectSuffix(aspectRatio) + NegativeSuffix
  {
    TextPromptLayout(prompt, Options(aspectRatio, Some(style), true));
  }

  /** A style without HD mode names the style once, right after the prompt. */
  lemma StyledPrompt(prompt: string, style: string, aspectRatio: string)
    requires style != ""
    ensures TextPrompt(prompt, Options(aspectRatio, Some(style), false))
              == prompt + (", " + style + " style") + AspectSuffix(aspectRatio) + NegativeSuffix
  {
    TextPromptLayout(prompt, Options(aspectRatio, Some(style), false));
  }

  /** HD mode without a style adds the plain boosters. */
  lemma HdPrompt(prompt: string, aspectRatio: string)
    ensures TextPrompt(prompt, Options(aspectRatio, None, true))
              == prompt + (", " + Boosters) + AspectSuffix(aspectRatio) + NegativeSuffix
  {
    TextPromptLayout(prompt, Options(aspectRatio, None, true));
  }

  /** Neither a style nor HD mode: only the aspect instruction and the negative suffix follow the prompt. */
  lemma UndecoratedPrompt(prompt: string, aspectRatio: string)
    ensures TextPrompt(prompt, Options(aspectRatio, None, false)) == prompt + AspectSuffix(aspectRatio) + NegativeSuffix
  {
    var o := Options(aspectRatio, None, false);
    TextPromptLayout(prompt, o);
    EmptyMiddle(prompt, Decoration(o), AspectSuffix(aspectRatio), NegativeSuffix);
  }

  /** An empty middle part drops out of a concatenation. */
  lemma EmptyMiddle(p: string, d: string, a: string, n: string)
    requires d == []
    ensures p + d + a + n == p + a + n
  {
    assert p + d == p;
  }

  /** A landscape request ends with the wide-view instruction, a portrait one with the tall-view one. */
  lemma AspectInstruction(prompt: string, o: Options)
    ensures o.aspectRatio == "landscape" ==> TextPrompt(prompt, o) == prompt + Decoration(o) + WideSuffix + NegativeSuffix
    ensures o.aspectRatio == "portrait" ==> TextPrompt(prompt, o) == prompt + Decoration(o) + TallSuffix + NegativeSuffix
  {
    TextPromptLayout(prompt, o);
  }

  /** The layout of `TextPrompt`'s contract, put back together as one concatenation. */
  lemma TextPromptLayout(prompt: string, o: Options)
    ensures TextPrompt(prompt, o) == prompt + Decoration(o) + AspectSuffix(o.aspectRatio) + NegativeSuffix
  {
    FourSlices(TextPrompt(prompt, o), prompt, Decoration(o), AspectSuffix(o.aspectRatio), NegativeSuffix);
  }

  /** A text cut into four consecutive slices is their concatenation. */
  lemma FourSlices(r: string, p: string, d: string, a: string, n: string)
    requires |r| == |p| + |d| + |a| + |n|
    requires r[..|p|] == p && r[|p|..|p| + |d|] == d
    requires r[|p| + |d|..|r| - |n|] == a && r[|r| - |n|..] == n
    ensures r == p + d + a + n
  {
    var i := |p| + |d|;
    assert r == r[..|p|] + r[|p|..i] + r[i..|r| - |n|] + r[|r| - |n|..];
  }

  /** A plain square request adds only the negative suffix. */
  lemma PlainSquarePrompt(prompt: string)
    ensures TextPrompt(prompt, Options("square", None, false)) == prompt + NegativeSuffix
  {
    UndecoratedPrompt(prompt, "square");
  }

  /**
   * The options decide everything but the leading prompt: under the same
   * options, two prompts give the same text only when they are equal.
   */
  lemma TextPromptInjective(p: string, q: string, o: Options)
    requires TextPrompt(p, o) == TextPrompt(q, o)
    ensures p == q
  {
    assert |p| == |q|;
    assert p == TextPrompt(p, o)[..|p|];
    assert q == TextPrompt(q, o)[..|q|];
  }

  /** The variation request keeps the prompt too: the same style and text give back the same prompt. */
  lemma VariationPromptInjective(p: string, q: string, style: Option<string>)
    requires VariationPrompt(p, style) == VariationPrompt(q, style)
    ensures p == q
  {
    var n := |VariationPrefix|;
    assert |p| == |q|;
    assert p == (VariationPrefix + p)[n..];
    assert q == (VariationPrefix + q)[n..];
    assert VariationPrefix + p == VariationPrompt(p, style)[..n + |p|];
  }

  /** A decoded reference image makes the aspect ratio and HD mode irrelevant. */
  lemma VariationIgnoresAspectAndHd(prompt: string, o1: Options, o2: Options, reference: Option<string>)
    requires LocalStorage.Truthy(reference) && o1.style == o2.style
    ensures GenerationPrompt(prompt, o1, reference, true) == GenerationPrompt(prompt, o2, reference, true)
  {
  }
}
