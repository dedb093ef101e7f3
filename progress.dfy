/**
 * The progress simulator started by `animateProgress` in static/js/app.js.
 * One `Ticker` holds the two closure variables of one `setInterval`
 * callback (`percent` and the message index `step`); each 500 ms tick is an
 * explicit call, and `Math.random()` is injected as `draw / RandomScale`.
 */
module Progress {

  /** The seven status phrases, cycled by the message index. */
  const Messages: seq<string> := [
    "Connecting to Gemini...",
    "Analyzing Prompt...",
    "Dreaming up concepts...",
    "Rendering pixels...",
    "Polishing details...",
    "Adding magic...",
    "Nearly there..."
  ]

  /** The soft ceiling the simulator never passes. */
  const Ceiling: int := 95

  /** `Math.random()` returns `draw / RandomScale` for some `0 <= draw < RandomScale`. */
  const RandomScale: int := 0x20_0000_0000_0000

  /** The closure state of one interval: percent so far and the message index. */
  datatype Ticker = Ticker(percent: int, step: int)

  /** The state `animateProgress` starts every interval in. */
  const Start: Ticker := Ticker(0, 0)

  predicate Valid(t: Ticker) {
    0 <= t.percent <= Ceiling && 0 <= t.step < |Messages|
  }

  predicate IsDraw(draw: int) {
    0 <= draw < RandomScale
  }

  /** The phrase shown for a ticker. */
  function Label(t: Ticker): string
    requires Valid(t)
  {
    Messages[t.step]
  }

  /** `Math.max(1, Math.floor(Math.random() * remaining * 0.1))`. */
  function Jump(remaining: int, draw: int): (j: int)
    requires 1 <= remaining && IsDraw(draw)
    ensures 1 <= j <= remaining
    ensures j <= if remaining < 10 then 1 else remaining / 10
  {
    var q := (draw * remaining) / (10 * RandomScale);
    assert q * 10 <= remaining by {
      QuotientBound(draw, remaining);
    }
    if q < 1 then 1 else q
  }

  /** `draw * remaining / (10 * RandomScale)` is at most a tenth of `remaining`. */
  lemma QuotientBound(draw: int, remaining: int)
    requires 1 <= remaining && IsDraw(draw)
    ensures (draw * remaining) / (10 * RandomScale) * 10 <= remaining
  {
    var d := 10 * RandomScale;
    var q := (draw * remaining) / d;
    assert draw * remaining <= RandomScale * remaining by {
      assert (RandomScale - draw) * remaining >= 0;
    }
    assert q * d <= draw * remaining;
    assert q * 10 * RandomScale <= RandomScale * remaining;
  }

  /** One active tick: percent grows by the jump, and the phrase advances when it lands on a multiple of 15. */
  function Advance(t: Ticker, draw: int): (u: Ticker)
    requires Valid(t) && t.percent < Ceiling && IsDraw(draw)
    ensures Valid(u)
    ensures t.percent < u.percent <= Ceiling
    ensures u.percent == t.percent + Jump(Ceiling - t.percent, draw)
    ensures u.step != t.step <==> u.percent % 15 == 0
    ensures u.percent % 15 == 0 ==> u.step == (t.step + 1) % |Messages|
  {
    var p := t.percent + Jump(Ceiling - t.percent, draw);
    Ticker(p, if p % 15 == 0 then (t.step + 1) % |Messages| else t.step)
  }

  /** The interval clears itself when generation is over or the ceiling is reached. */
  function Stops(t: Ticker, generating: bool): (r: bool)
    ensures Valid(t) ==> (r <==> !generating || t.percent == Ceiling)
  {
    !generating || t.percent >= Ceiling
  }

  /** The ticker after a run of active ticks, one per draw, stopping at the ceiling. */
  function Run(t: Ticker, draws: seq<int>): (u: Ticker)
    requires Valid(t) && forall k :: 0 <= k < |draws| ==> IsDraw(draws[k])
    ensures Valid(u) && t.percent <= u.percent
    decreases |draws|
  {
    if draws == [] || t.percent >= Ceiling then t else Run(Advance(t, draws[0]), draws[1..])
  }

  /** How many of those ticks actually advanced the ticker. */
  function ActiveTicks(t: Ticker, draws: seq<int>): nat
    requires Valid(t) && forall k :: 0 <= k < |draws| ==> IsDraw(draws[k])
    decreases |draws|
  {
    if draws == [] || t.percent >= Ceiling then 0 else 1 + ActiveTicks(Advance(t, draws[0]), draws[1..])
  }

  /**
   * A run either reaches the ceiling or advanced once per draw, and every
   * advancing tick added at least one point: the simulator reaches 95 and
   * stops after at most 95 - percent active ticks, whatever `Math.random` returns.
   */
  lemma {:induction false} RunProgress(t: Ticker, draws: seq<int>)
    requires Valid(t) && forall k :: 0 <= k < |draws| ==> IsDraw(draws[k])
    ensures var u := Run(t, draws);
            u.percent == Ceiling || ActiveTicks(t, draws) == |draws|
    ensures Run(t, draws).percent >= t.percent + ActiveTicks(t, draws)
    ensures ActiveTicks(t, draws) <= Ceiling - t.percent
    decreases |draws|
  {
    if draws != [] && t.percent < Ceiling {
      RunProgress(Advance(t, draws[0]), draws[1..]);
    }
  }

  /** Ninety-five ticks are always enough to reach the ceiling from the start state. */
  lemma ReachesCeiling(draws: seq<int>)
    requires |draws| >= Ceiling && forall k :: 0 <= k < |draws| ==> IsDraw(draws[k])
    ensures Run(Start, draws).percent == Ceiling
  {
    RunProgress(Start, draws);
  }
}
