/**
 * The collection loop of `GeminiClient.generate_images` in app.py: up to
 * `quantity * 3` upstream requests, each answering a batch of images, of
 * which the first `quantity` distinct ones (by their original URL) are kept,
 * numbered from 1.
 *
 * The upstream library is an oracle: `responses[k]` is what the `k`-th
 * request returned or raised. Each candidate image carries the outcome of
 * `enforce_aspect_ratio` on it (`processed`, `None` when that failed) and
 * its optional `title` and `alt` attributes.
 */
module Collection {
  import opened Wrappers
  import Text

  datatype Candidate = Candidate(url: string, processed: Option<string>, title: Option<string>, alt: Option<string>)

  /** One upstream request: the images of the response (empty when it has none), or the exception's text. */
  datatype Attempt = Images(batch: seq<Candidate>) | Raised(message: string)

  /** One entry of `all_generated_images`. */
  datatype GeneratedImage = GeneratedImage(
    url: string,
    originalUrl: string,
    thumbnail: string,
    index: nat,
    title: string,
    alt: string)

  /** How the loop ended: with the images and the number of attempts, or by an exception in an attempt. */
  datatype Collected = Collected(images: seq<GeneratedImage>, attempts: nat) | Aborted(message: string, attempts: nat)

  const ProxyPrefix: string := "/api/proxy-image?url="
  const TitlePrefix: string := "Generated Image "
  const AltLength: nat := 100

  // ---------------------------------------------------------------------
  // `urllib.parse.quote(s)` with its default `safe='/'`
  // ---------------------------------------------------------------------

  /** The characters `quote` never encodes. */
  predicate Unreserved(c: char) {
    ('a' <= c <= 'z') || ('A' <= c <= 'Z') || ('0' <= c <= '9') || c == '_' || c == '.' || c == '-' || c == '~'
  }

  predicate QuoteSafe(c: char) {
    Unreserved(c) || c == '/'
  }

  predicate IsUpperHex(c: char) {
    ('0' <= c <= '9') || ('A' <= c <= 'F')
  }

  function HexDigit(d: nat): (c: char)
    requires d < 16
    ensures IsUpperHex(c)
  {
    if d < 10 then ('0' as int + d) as char else ('A' as int + d - 10) as char
  }

  /** The UTF-8 bytes of a code point. */
  function Utf8(cp: nat): (bytes: seq<nat>)
    requires cp < 0x11_0000
    ensures 1 <= |bytes| <= 4
    ensures forall k :: 0 <= k < |bytes| ==> bytes[k] < 256
    ensures cp < 0x80 <==> |bytes| == 1
  {
    if cp < 0x80 then [cp]
    else if cp < 0x800 then [0xC0 + cp / 64, 0x80 + cp % 64]
    else if cp < 0x1_0000 then [0xE0 + cp / 4096, 0x80 + (cp / 64) % 64, 0x80 + cp % 64]
    else [0xF0 + cp / 262144, 0x80 + (cp / 4096) % 64, 0x80 + (cp / 64) % 64, 0x80 + cp % 64]
  }

  /** `%XX` for each byte, upper-case hex. */
  function PercentEncode(bytes: seq<nat>): (r: string)
    requires forall k :: 0 <= k < |bytes| ==> bytes[k] < 256
    ensures |r| == 3 * |bytes|
    ensures forall k :: 0 <= k < |r| ==> (r[k] == '%' <==> k % 3 == 0)
    ensures forall k :: 0 <= k < |r| && k % 3 != 0 ==> IsUpperHex(r[k])
  {
    if bytes == [] then []
    else
      var rest := PercentEncode(bytes[1..]);
      var r := ['%', HexDigit(bytes[0] / 16), HexDigit(bytes[0] % 16)] + rest;
      assert forall k :: 3 <= k < |r| ==> r[k] == rest[k - 3] && (k % 3 == 0 <==> (k - 3) % 3 == 0);
      r
  }

  function QuoteChar(c: char): (r: string)
    ensures QuoteSafe(c) ==> r == [c]
    ensures !QuoteSafe(c) ==> |r| >= 3 && r[0] == '%'
    ensures forall k :: 0 <= k < |r| ==> QuoteSafe(r[k]) || r[k] == '%'
  {
    if QuoteSafe(c) then [c]
    else
      var r := PercentEncode(Utf8(c as int));
      assert forall k :: 0 <= k < |r| ==> r[k] == '%' || IsUpperHex(r[k]);
      r
  }

  /** `quote(s)`: safe characters kept, every other one percent-encoded as UTF-8. */
  function Quote(s: string): (r: string)
    ensures forall k :: 0 <= k < |r| ==> QuoteSafe(r[k]) || r[k] == '%'
    ensures |r| >= |s|
  {
    if s == [] then []
    else
      var head := QuoteChar(s[0]);
      var rest := Quote(s[1..]);
      assert forall k :: |head| <= k < |head + rest| ==> (head + rest)[k] == rest[k - |head|];
      head + rest
  }

  /** A URL made only of safe characters passes `quote` unchanged. */
  lemma {:induction false} QuoteKeepsSafeText(s: string)
    requires forall k :: 0 <= k < |s| ==> QuoteSafe(s[k])
    ensures Quote(s) == s
  {
    if s != [] {
      QuoteKeepsSafeText(s[1..]);
      assert s == [s[0]] + s[1..];
    }
  }

  /**
   * The proxy URL built for an original URL has exactly one query
   * parameter: after its single `?` there is no `&`, `#` or further `?`, so
   * the original URL cannot leak into another parameter.
   */
  lemma ProxyUrlSingleParameter(original: string)
    ensures var u := ProxyPrefix + Quote(original);
            forall k :: |ProxyPrefix| <= k < |u| ==> u[k] != '&' && u[k] != '#' && u[k] != '?' && u[k] != '='
  {
    var q := Quote(original);
    assert forall k :: 0 <= k < |q| ==> q[k] != '&' && q[k] != '#' && q[k] != '?' && q[k] != '=';
    AppendedFree(ProxyPrefix, q);
  }

  /** What is appended to `p` keeps its own characters, position for position. */
  lemma AppendedFree(p: string, q: string)
    requires forall k :: 0 <= k < |q| ==> q[k] != '&' && q[k] != '#' && q[k] != '?' && q[k] != '='
    ensures var u := p + q;
            forall k :: |p| <= k < |u| ==> u[k] != '&' && u[k] != '#' && u[k] != '?' && u[k] != '='
  {
    var u := p + q;
    assert forall k :: |p| <= k < |u| ==> u[k] == q[k - |p|];
  }

  // ---------------------------------------------------------------------
  // The entries and the inner `for` loop
  // ---------------------------------------------------------------------

  /** `image_url`: the processed image when `enforce_aspect_ratio` returned one, else the proxied original. */
  function ImageUrl(c: Candidate): (u: string)
    ensures c.processed.Some? && c.processed.value != "" ==> u == c.processed.value
    ensures !(c.processed.Some? && c.processed.value != "") ==> ProxyPrefix <= u && u[|ProxyPrefix|..] == Quote(c.url)
  {
    if c.processed.Some? && c.processed.value != "" then c.processed.value else ProxyPrefix + Quote(c.url)
  }

  /** The entry appended for `c` as the `n`-th image. */
  function Entry(c: Candidate, n: nat, prompt: string): (e: GeneratedImage)
    ensures e.originalUrl == c.url && e.index == n && e.url == e.thumbnail == ImageUrl(c)
  {
    var u := ImageUrl(c);
    GeneratedImage(u, c.url, u, n,
                   c.title.GetOr(TitlePrefix + Text.NatToString(n)),
                   c.alt.GetOr(prompt[..if |prompt| < AltLength then |prompt| else AltLength]))
  }

  /** `any(img['original_url'] == url for img in acc)`. */
  predicate Seen(acc: seq<GeneratedImage>, url: string) {
    exists k :: 0 <= k < |acc| && acc[k].originalUrl == url
  }

  /** `quantity` as a bound on a length: a non-positive quantity admits nothing. */
  function Cap(quantity: int): nat {
    if quantity < 0 then 0 else quantity
  }

  /** What the loop keeps true of `all_generated_images`. */
  predicate WellFormed(acc: seq<GeneratedImage>, quantity: int) {
    && |acc| <= Cap(quantity)
    && (forall k :: 0 <= k < |acc| ==> acc[k].index == k + 1)
    && (forall i, j :: 0 <= i < j < |acc| ==> acc[i].originalUrl != acc[j].originalUrl)
  }

  /** One candidate: appended unless its original URL is already held. */
  function Admit(acc: seq<GeneratedImage>, c: Candidate, prompt: string): (r: seq<GeneratedImage>)
    ensures acc <= r && |r| <= |acc| + 1
    ensures Seen(r, c.url)
    ensures |r| == |acc| + 1 <==> !Seen(acc, c.url)
  {
    if Seen(acc, c.url) then acc
    else
      var r := acc + [Entry(c, |acc| + 1, prompt)];
      assert r[|acc|].originalUrl == c.url;
      r
  }

  /**
   * The inner `for` over a batch, from the collection so far: each candidate
   * in turn, until the collection is full.
   */
  function AdmitAll(acc: seq<GeneratedImage>, cands: seq<Candidate>, quantity: int, prompt: string): (r: seq<GeneratedImage>)
    requires WellFormed(acc, quantity)
    ensures WellFormed(r, quantity)
    ensures acc <= r
    decreases |cands|
  {
    if cands == [] || |acc| >= quantity then acc
    else AdmitAll(Admit(acc, cands[0], prompt), cands[1..], quantity, prompt)
  }

  /** One step of the inner loop: the first candidate is admitted, the rest follow. */
  lemma AdmitStep(acc: seq<GeneratedImage>, cands: seq<Candidate>, quantity: int, prompt: string)
    requires WellFormed(acc, quantity) && cands != [] && |acc| < quantity
    ensures WellFormed(Admit(acc, cands[0], prompt), quantity)
    ensures AdmitAll(acc, cands, quantity, prompt) == AdmitAll(Admit(acc, cands[0], prompt), cands[1..], quantity, prompt)
  {
  }

  /** The inner `for` loop over one response's images, with its `break` once `quantity` are held. */
  method AdmitBatch(all: seq<GeneratedImage>, batch: seq<Candidate>, quantity: int, prompt: string) returns (r: seq<GeneratedImage>)
    requires WellFormed(all, quantity)
    ensures r == AdmitAll(all, batch, quantity, prompt)
  {
    r := all;
    var i := 0;
    while i < |batch|
      invariant 0 <= i <= |batch|
      invariant WellFormed(r, quantity)
      invariant AdmitAll(r, batch[i..], quantity, prompt) == AdmitAll(all, batch, quantity, prompt)
    {
      if |r| >= quantity {
        break;
      }
      var image := batch[i];
      AdmitStep(r, batch[i..], quantity, prompt);
      if !Seen(r, image.url) {
        r := r + [Entry(image, |r| + 1, prompt)];
      }
      i := i + 1;
    }
  }

  // ---------------------------------------------------------------------
  // The outer `while` loop
  // ---------------------------------------------------------------------

  /** `max_attempts`, as a count the loop can reach. */
  function MaxAttempts(quantity: int): nat {
    Cap(quantity * 3)
  }

  /** The loop from attempt `attempts` on, with `acc` collected so far. */
  function CollectFrom(responses: seq<Attempt>, quantity: int, prompt: string, attempts: nat, acc: seq<GeneratedImage>): (r: Collected)
    requires |responses| >= MaxAttempts(quantity) && attempts <= MaxAttempts(quantity)
    requires WellFormed(acc, quantity)
    ensures r.Collected? ==> WellFormed(r.images, quantity) && acc <= r.images
    ensures attempts <= r.attempts <= MaxAttempts(quantity)
    ensures r.Collected? && r.attempts < MaxAttempts(quantity) ==> |r.images| >= quantity
    decreases MaxAttempts(quantity) - attempts
  {
    if |acc| >= quantity || attempts >= MaxAttempts(quantity) then Collected(acc, attempts)
    else match responses[attempts]
      case Raised(m) => Aborted(m, attempts + 1)
      case Images(batch) => CollectFrom(responses, quantity, prompt, attempts + 1, AdmitAll(acc, batch, quantity, prompt))
  }

  /**
   * The whole loop. When it ends normally it holds at most `quantity`
   * images with distinct original URLs, numbered 1, 2, ... in order, after
   * at most `quantity * 3` attempts; it stops early only once it is full.
   */
  function Collect(responses: seq<Attempt>, quantity: int, prompt: string): (r: Collected)
    requires |responses| >= MaxAttempts(quantity)
    ensures r.Collected? ==> WellFormed(r.images, quantity)
    ensures r.attempts <= MaxAttempts(quantity)
    ensures r.Collected? && r.attempts < MaxAttempts(quantity) ==> |r.images| >= quantity
  {
    CollectFrom(responses, quantity, prompt, 0, [])
  }

  /** `generate_images`' collection loop over the oracle's responses. */
  method CollectImages(prompt: string, quantity: int, responses: seq<Attempt>) returns (r: Collected)
    requires |responses| >= MaxAttempts(quantity)
    ensures r == Collect(responses, quantity, prompt)
  {
    var all: seq<GeneratedImage> := [];
    var attempts: nat := 0;
    var maxAttempts := quantity * 3;
    while |all| < quantity && attempts < maxAttempts
      invariant attempts <= MaxAttempts(quantity)
      invariant WellFormed(all, quantity)
      invariant CollectFrom(responses, quantity, prompt, attempts, all) == Collect(responses, quantity, prompt)
      decreases maxAttempts - attempts
    {
      attempts := attempts + 1;
      var response := responses[attempts - 1];
      if response.Raised? {
        return Aborted(response.message, attempts);
      }
      all := AdmitBatch(all, response.batch, quantity, prompt);
    }
    return Collected(all, attempts);
  }

  // ---------------------------------------------------------------------
  // What the collection is, independently of the loop
  // ---------------------------------------------------------------------

  /** The candidates of the first `n` responses, in order, when none of them raised. */
  function Flatten(responses: seq<Attempt>): seq<Candidate> {
    if responses == [] then []
    else (if responses[0].Images? then responses[0].batch else []) + Flatten(responses[1..])
  }

  predicate NoneRaised(responses: seq<Attempt>) {
    forall k :: 0 <= k < |responses| ==> responses[k].Images?
  }

  /** A full collection admits nothing more. */
  lemma {:induction false} AdmitAllWhenFull(acc: seq<GeneratedImage>, cands: seq<Candidate>, quantity: int, prompt: string)
    requires WellFormed(acc, quantity) && |acc| >= quantity
    ensures AdmitAll(acc, cands, quantity, prompt) == acc
  {
  }

  /** Admitting two lists in turn is admitting their concatenation. */
  lemma {:induction false} AdmitAllConcat(acc: seq<GeneratedImage>, a: seq<Candidate>, b: seq<Candidate>, quantity: int, prompt: string)
    requires WellFormed(acc, quantity)
    ensures AdmitAll(acc, a + b, quantity, prompt) == AdmitAll(AdmitAll(acc, a, quantity, prompt), b, quantity, prompt)
    decreases |a|
  {
    if a == [] {
      assert a + b == b;
    } else if |acc| >= quantity {
      AdmitAllWhenFull(acc, a + b, quantity, prompt);
      AdmitAllWhenFull(acc, a, quantity, prompt);
      AdmitAllWhenFull(acc, b, quantity, prompt);
    } else {
      assert (a + b)[0] == a[0] && (a + b)[1..] == a[1..] + b;
      AdmitAllConcat(Admit(acc, a[0], prompt), a[1..], b, quantity, prompt);
    }
  }

  /**
   * From attempt `attempts` on, with no exception among the remaining
   * responses, the loop's images are the candidates of all remaining
   * responses admitted in order.
   */
  lemma {:induction false} CollectFromAsFold(responses: seq<Attempt>, quantity: int, prompt: string, attempts: nat, acc: seq<GeneratedImage>)
    requires |responses| >= MaxAttempts(quantity) && attempts <= MaxAttempts(quantity)
    requires WellFormed(acc, quantity)
    requires NoneRaised(responses[attempts..MaxAttempts(quantity)])
    ensures var r := CollectFrom(responses, quantity, prompt, attempts, acc);
            r.Collected? && r.images == AdmitAll(acc, Flatten(responses[attempts..MaxAttempts(quantity)]), quantity, prompt)
    decreases MaxAttempts(quantity) - attempts
  {
    var rest := responses[attempts..MaxAttempts(quantity)];
    if |acc| >= quantity {
      AdmitAllWhenFull(acc, Flatten(rest), quantity, prompt);
    } else if attempts >= MaxAttempts(quantity) {
      assert rest == [];
    } else {
      assert rest[0] == responses[attempts];
      assert rest[1..] == responses[attempts + 1..MaxAttempts(quantity)];
      var batch := responses[attempts].batch;
      assert Flatten(rest) == batch + Flatten(rest[1..]);
      AdmitAllConcat(acc, batch, Flatten(rest[1..]), quantity, prompt);
      CollectFromAsFold(responses, quantity, prompt, attempts + 1, AdmitAll(acc, batch, quantity, prompt));
    }
  }

  /**
   * With no exception, the collection is exactly the candidates of the
   * first `quantity * 3` responses, in order, de-duplicated by original URL
   * and cut at `quantity`.
   */
  lemma CollectAsFold(responses: seq<Attempt>, quantity: int, prompt: string)
    requires |responses| >= MaxAttempts(quantity)
    requires NoneRaised(responses[..MaxAttempts(quantity)])
    ensures var r := Collect(responses, quantity, prompt);
            r.Collected? && r.images == AdmitAll([], Flatten(responses[..MaxAttempts(quantity)]), quantity, prompt)
  {
    assert responses[0..MaxAttempts(quantity)] == responses[..MaxAttempts(quantity)];
    CollectFromAsFold(responses, quantity, prompt, 0, []);
  }

  /**
   * From attempt `j` on: when the responses before attempt `k` raised
   * nothing, left the collection short, and attempt `k` raises, the loop
   * ends at attempt `k` with that exception's text.
   */
  lemma {:induction false} CollectFromAborts(responses: seq<Attempt>, quantity: int, prompt: string,
                                             j: nat, acc: seq<GeneratedImage>, k: nat, m: string)
    requires |responses| >= MaxAttempts(quantity) && j <= k < MaxAttempts(quantity)
    requires WellFormed(acc, quantity)
    requires NoneRaised(responses[j..k])
    requires |AdmitAll(acc, Flatten(responses[j..k]), quantity, prompt)| < quantity
    requires responses[k] == Raised(m)
    ensures CollectFrom(responses, quantity, prompt, j, acc) == Aborted(m, k + 1)
    decreases k - j
  {
    var rest := responses[j..k];
    if j == k {
      assert rest == [];
    } else {
      var tail := responses[j + 1..k];
      assert rest[0] == responses[j] && rest[1..] == tail;
      assert responses[j].Images?;
      var batch := responses[j].batch;
      assert NoneRaised(tail);
      assert Flatten(rest) == batch + Flatten(tail);
      AdmitAllConcat(acc, batch, Flatten(tail), quantity, prompt);
      var next := AdmitAll(acc, batch, quantity, prompt);
      assert |acc| < quantity by {
        assert acc <= next <= AdmitAll(next, Flatten(tail), quantity, prompt);
      }
      assert CollectFrom(responses, quantity, prompt, j, acc) == CollectFrom(responses, quantity, prompt, j + 1, next);
      CollectFromAborts(responses, quantity, prompt, j + 1, next, k, m);
    }
  }

  /**
   * The exception path of the whole loop: an exception in attempt `k`, after
   * attempts that raised nothing and left the collection short, aborts the
   * loop with its text after `k + 1` attempts, whatever was collected.
   */
  lemma CollectAborts(responses: seq<Attempt>, quantity: int, prompt: string, k: nat, m: string)
    requires |responses| >= MaxAttempts(quantity) && k < MaxAttempts(quantity)
    requires NoneRaised(responses[..k])
    requires |AdmitAll([], Flatten(responses[..k]), quantity, prompt)| < quantity
    requires responses[k] == Raised(m)
    ensures Collect(responses, quantity, prompt) == Aborted(m, k + 1)
  {
    assert responses[0..k] == responses[..k];
    CollectFromAborts(responses, quantity, prompt, 0, [], k, m);
  }

  /** Every kept image is one of the candidates, under its own original URL. */
  lemma {:induction false} AdmitAllSound(acc: seq<GeneratedImage>, cands: seq<Candidate>, quantity: int, prompt: string, k: nat)
    requires WellFormed(acc, quantity)
    requires k < |AdmitAll(acc, cands, quantity, prompt)|
    ensures k < |acc| || exists c :: c in cands && AdmitAll(acc, cands, quantity, prompt)[k] == Entry(c, k + 1, prompt)
    decreases |cands|
  {
    if cands != [] && |acc| < quantity {
      var next := Admit(acc, cands[0], prompt);
      var r := AdmitAll(acc, cands, quantity, prompt);
      assert r == AdmitAll(next, cands[1..], quantity, prompt);
      AdmitAllSound(next, cands[1..], quantity, prompt, k);
      if k >= |acc| {
        if k < |next| {
          assert r[k] == next[k] == Entry(cands[0], k + 1, prompt);
          assert cands[0] in cands;
        } else {
          var c :| c in cands[1..] && r[k] == Entry(c, k + 1, prompt);
          assert c in cands;
        }
      }
    }
  }

  /**
   * Nothing is lost while there is room: when the collection ends below
   * `quantity`, every candidate's original URL is in it.
   */
  lemma {:induction false} AdmitAllComplete(acc: seq<GeneratedImage>, cands: seq<Candidate>, quantity: int, prompt: string)
    requires WellFormed(acc, quantity)
    requires |AdmitAll(acc, cands, quantity, prompt)| < quantity
    ensures forall c :: c in cands ==> Seen(AdmitAll(acc, cands, quantity, prompt), c.url)
    decreases |cands|
  {
    if cands != [] {
      var next := Admit(acc, cands[0], prompt);
      var r := AdmitAll(acc, cands, quantity, prompt);
      AdmitAllComplete(next, cands[1..], quantity, prompt);
      assert Seen(next, cands[0].url) by {
        if !Seen(acc, cands[0].url) {
          assert next[|acc|].originalUrl == cands[0].url;
        }
      }
      assert next <= r;
      assert Seen(r, cands[0].url) by {
        var k :| 0 <= k < |next| && next[k].originalUrl == cands[0].url;
        assert r[k] == next[k];
      }
      assert forall c :: c in cands ==> c == cands[0] || c in cands[1..];
    }
  }
}
