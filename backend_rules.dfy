/**
 * The small decision rules of app.py: which cookie jar a request uses,
 * `GeminiClient.validate_cookies`, `allowed_file`, the size gate of
 * `/api/upscale` and the rule that invalidates the client after an
 * authentication failure.
 */
module BackendRules {
  import opened Wrappers
  import Text
  import LocalStorage

  /** A cookie jar: the values under `__Secure-1PSID` and `__Secure-1PSIDTS` (`None` for a missing or null value). */
  datatype Jar = Jar(psid: Option<string>, psidts: Option<string>)

  /** The `cookies` object of a request body. */
  datatype CookieData = CookieData(psid: Option<string>, psidts: Option<string>)

  const MissingPsid: string := "Missing __Secure-1PSID cookie"
  const NotInitialized: string := "Gemini client not initialized"
  const CookiesValid: string := "Cookies are valid"

  /** A Python value that is true in `if v:`, for an optional string. */
  predicate Truthy(v: Option<string>) {
    LocalStorage.Truthy(v)
  }

  /**
   * The per-request jar the handlers build: only when the body's `cookies`
   * is present and its `psid` is truthy, carrying both values as sent.
   */
  function UserCookies(data: Option<CookieData>): (r: Option<Jar>)
    ensures r.Some? <==> data.Some? && Truthy(data.value.psid)
    ensures r.Some? ==> r.value == Jar(data.value.psid, data.value.psidts)
  {
    match data
    case Some(d) => if Truthy(d.psid) then Some(Jar(d.psid, d.psidts)) else None
    case None => None
  }

  /**
   * The jar `generate_images` and `send_message` talk to the upstream with:
   * the per-request jar when it has a truthy PSID, else the global one.
   */
  function SelectJar(user: Option<Jar>, global: Jar): (j: Jar)
    ensures user.Some? && Truthy(user.value.psid) ==> j == user.value
    ensures !(user.Some? && Truthy(user.value.psid)) ==> j == global
  {
    if user.Some? && Truthy(user.value.psid) then user.value else global
  }

  /**
   * `validate_cookies(cookies)`: the checked jar is the override when given,
   * else the global one; a missing PSID fails first, and without an
   * override an uninitialised client fails too.
   */
  function ValidateCookies(user: Option<Jar>, global: Jar, clientReady: bool): (r: (bool, string))
    ensures r.0 <==> Truthy((if user.Some? then user.value else global).psid) && (user.Some? || clientReady)
    ensures r.0 ==> r.1 == CookiesValid
    ensures !Truthy((if user.Some? then user.value else global).psid) ==> r == (false, MissingPsid)
  {
    var target := if user.Some? then user.value else global;
    if !Truthy(target.psid) then (false, MissingPsid)
    else if user.None? && !clientReady then (false, NotInitialized)
    else (true, CookiesValid)
  }

  /** `_initialize_client` with the upstream handshake's outcome as `handshakeOk`. */
  function Initialized(jar: Jar, handshakeOk: bool): (ready: bool)
    ensures ready ==> Truthy(jar.psid) && Truthy(jar.psidts)
    ensures Truthy(jar.psid) && Truthy(jar.psidts) ==> (ready <==> handshakeOk)
  {
    Truthy(jar.psid) && Truthy(jar.psidts) && handshakeOk
  }

  const AllowedExtensions: set<string> := {"png", "jpg", "jpeg", "webp"}

  /** The index of the last `.` in `s`, if any. */
  function LastDot(s: string): (r: Option<nat>)
    ensures r.None? <==> '.' !in s
    ensures r.Some? ==> r.value < |s| && s[r.value] == '.' && '.' !in s[r.value + 1..]
  {
    if s == [] then None
    else if s[|s| - 1] == '.' then Some(|s| - 1)
    else
      var r := LastDot(s[..|s| - 1]);
      assert s == s[..|s| - 1] + [s[|s| - 1]];
      if r.Some? then
        assert s[r.value + 1..] == s[..|s| - 1][r.value + 1..] + [s[|s| - 1]];
        r
      else r
  }

  /**
   * `allowed_file`: the name has a `.` and the text after the last one,
   * lower-cased, is an allowed extension. Lower-casing ASCII letters only
   * gives the same answer as Python's `str.lower` here, since no other
   * character lower-cases into one of the letters of these extensions.
   */
  function AllowedFile(name: string): (r: bool)
    ensures '.' !in name ==> !r
    ensures r ==> |name| >= 4 && name[|name| - 1] != '.'
  {
    match LastDot(name)
    case None => false
    case Some(i) =>
      var ext := name[i + 1..];
      assert Text.Lower(ext) in AllowedExtensions ==> |ext| >= 3 && ext[|ext| - 1] == name[|name| - 1] && ext[|ext| - 1] != '.' by {
        if Text.Lower(ext) in AllowedExtensions {
          assert |Text.Lower(ext)| >= 3;
        }
      }
      Text.Lower(ext) in AllowedExtensions
  }

  /** An accepted name splits at its last dot into a stem and a dot-free allowed extension. */
  lemma AllowedFileSplits(name: string)
    requires AllowedFile(name)
    ensures exists stem: string, ext: string :: name == stem + "." + ext && '.' !in ext && Text.Lower(ext) in AllowedExtensions
  {
    var i := LastDot(name).value;
    assert name == name[..i] + "." + name[i + 1..];
  }

  /** Every name `stem.ext` with a dot-free allowed extension is accepted. */
  lemma AllowedFileOfSplit(stem: string, ext: string)
    requires '.' !in ext && Text.Lower(ext) in AllowedExtensions
    ensures AllowedFile(stem + "." + ext)
  {
    LastDotOfSuffix(stem, ext);
    assert (stem + "." + ext)[|stem| + 1..] == ext;
  }

  /** `allowed_file` accepts exactly the names `stem.ext` with a dot-free allowed `ext`. */
  lemma AllowedFileIff(name: string)
    ensures AllowedFile(name) <==>
              exists stem: string, ext: string :: name == stem + "." + ext && '.' !in ext && Text.Lower(ext) in AllowedExtensions
  {
    if AllowedFile(name) {
      AllowedFileSplits(name);
    }
    if exists stem: string, ext: string :: name == stem + "." + ext && '.' !in ext && Text.Lower(ext) in AllowedExtensions {
      var stem: string, ext: string :| name == stem + "." + ext && '.' !in ext && Text.Lower(ext) in AllowedExtensions;
      AllowedFileOfSplit(stem, ext);
    }
  }

  /** The last dot of `stem.ext` with a dot-free `ext` is the one before `ext`. */
  lemma {:induction false} LastDotOfSuffix(stem: string, ext: string)
    requires '.' !in ext
    ensures LastDot(stem + "." + ext) == Some(|stem|)
    decreases |ext|
  {
    var s := stem + "." + ext;
    if ext == [] {
      assert s[|s| - 1] == '.';
    } else {
      var e := ext[..|ext| - 1];
      assert s[..|s| - 1] == stem + "." + e;
      assert s[|s| - 1] == ext[|ext| - 1];
      assert ext[|ext| - 1] in ext;
      assert forall c :: c in e ==> c in ext;
      LastDotOfSuffix(stem, e);
    }
  }

  const MaxDimension: nat := 4096

  /** The outcome of the `/api/upscale` size check on a `width` x `height` image. */
  datatype UpscalePlan = AlreadyMaximal | Resize(width: nat, height: nat)

  const AlreadyMaximalError: string := "Image is already at maximum resolution"

  /**
   * The size gate: an image whose larger side is 4096 or more is refused,
   * any other one is resized to exactly twice its width and height, so no
   * result side reaches 8192.
   */
  function UpscaleGate(width: nat, height: nat): (p: UpscalePlan)
    ensures p.AlreadyMaximal? <==> width >= MaxDimension || height >= MaxDimension
    ensures p.Resize? ==> p.width == 2 * width && p.height == 2 * height
    ensures p.Resize? ==> p.width < 2 * MaxDimension && p.height < 2 * MaxDimension
  {
    if (if width >= height then width else height) >= MaxDimension then AlreadyMaximal
    else Resize(width * 2, height * 2)
  }

  /**
   * The exception rule of `generate_images`: a message whose lower-cased
   * text holds "expired", "initialize client" or "401" invalidates the
   * client. Lower-casing ASCII letters only gives the same answer as
   * Python's `str.lower`: the only other characters that lower-case to an
   * ASCII letter are the Kelvin sign (to `k`) and the dotted capital I (to
   * `i` followed by a combining dot), neither of which can complete one of
   * these words.
   */
  function IsAuthFailure(message: string): (r: bool)
    ensures Text.Contains(message, "expired") ==> r
    ensures Text.Contains(message, "initialize client") ==> r
    ensures Text.Contains(message, "401") ==> r
  {
    AuthWordsSurviveLower(message);
    var m := Text.Lower(message);
    Text.Contains(m, "expired") || Text.Contains(m, "initialize client") || Text.Contains(m, "401")
  }

  /** Each auth word is lower case, so a literal occurrence survives lower-casing. */
  lemma AuthWordsSurviveLower(message: string)
    ensures Text.Contains(message, "expired") ==> Text.Contains(Text.Lower(message), "expired")
    ensures Text.Contains(message, "initialize client") ==> Text.Contains(Text.Lower(message), "initialize client")
    ensures Text.Contains(message, "401") ==> Text.Contains(Text.Lower(message), "401")
  {
    if Text.Contains(message, "expired") {
      Text.LowerKeepsOccurrence(message, "expired");
    }
    if Text.Contains(message, "initialize client") {
      Text.LowerKeepsOccurrence(message, "initialize client");
    }
    if Text.Contains(message, "401") {
      Text.LowerKeepsOccurrence(message, "401");
    }
  }

  /** The rule is case-insensitive: "Cookie EXPIRED" and "cookie expired" are both auth failures. */
  lemma AuthFailureIgnoresCase(message: string)
    ensures IsAuthFailure(Text.Lower(message)) <==> IsAuthFailure(message)
  {
    Text.LowerIdempotent(message);
  }

  /** An HTTP 401 in the message text is an auth failure wherever it occurs. */
  lemma Status401IsAuthFailure(prefix: string, suffix: string)
    ensures IsAuthFailure(prefix + "401" + suffix)
  {
    var m := prefix + "401" + suffix;
    assert Text.Lower(m) == Text.Lower(prefix) + "401" + Text.Lower(suffix);
    assert Text.OccursAt(Text.Lower(m), "401", |prefix|);
  }
}
