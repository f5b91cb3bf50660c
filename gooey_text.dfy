/**
  The text-morph animation: a two-phase machine driven once per animation
  frame. In the morph phase the time spent accumulates up to `morphTime`;
  the cooldown phase then accumulates up to `cooldownTime`, after which the
  machine moves on to the next text and the two spans are given the current
  and the following text.
*/
module GooeyText {

  /**
    The number `textIndex` holds: a whole index, or NaN, which is what
    `(textIndex + 1) % texts.length` gives for an empty list and what it
    stays from then on.
  */
  datatype Index = At(n: nat) | NaN

  predicate InRange(texts: seq<string>, i: Index) {
    i.At? && i.n < |texts|
  }

  /**
    `texts[i]` as a span shows it: reading outside the list gives undefined,
    and a span whose text content is set to undefined shows nothing.
  */
  function Element(texts: seq<string>, i: Index): (s: string)
    ensures InRange(texts, i) ==> s == texts[i.n]
    ensures !InRange(texts, i) ==> s == ""
  {
    if i.At? && i.n < |texts| then texts[i.n] else ""
  }

  /** `(i + 1) % texts.length` */
  function NextIndex(i: Index, len: nat): (j: Index)
    ensures len > 0 && i.At? ==> j.At? && j.n < len && j.n == (i.n + 1) % len
    ensures (len == 0 || i.NaN?) ==> j == NaN
  {
    if i.At? && len > 0 then At((i.n + 1) % len) else NaN
  }

  /** `a || b` on strings: the empty string is falsy. */
  function OrElse(a: string, b: string): string {
    if a == "" then b else a
  }

  /** The props the effect captures, and whether both spans exist. */
  datatype Settings = Settings(texts: seq<string>, morphTime: real, cooldownTime: real, spansMounted: bool)

  /** The effect's closure state, and the text the two spans show. */
  datatype Machine = Machine(
    textIndex: Index,
    progress: real,
    isMorphing: bool,
    lastTime: real,
    text1: string,
    text2: string)

  /** The spans show the current text and the one after it. */
  predicate Shows(texts: seq<string>, m: Machine) {
    m.text1 == Element(texts, m.textIndex) && m.text2 == Element(texts, NextIndex(m.textIndex, |texts|))
  }

  /**
    The effect's setup at time `now`: index 0, no progress, morphing; if the
    spans exist the first shows `texts[0]` and the second `texts[1] || texts[0]`.
  */
  function Initial(cfg: Settings, now: real): Machine {
    var first := Element(cfg.texts, At(0));
    if cfg.spansMounted then Machine(At(0), 0.0, true, now, first, OrElse(Element(cfg.texts, At(1)), first))
    else Machine(At(0), 0.0, true, now, "", "")
  }

  /**
    The initial texts are the ones a completed cooldown at index 0 would
    show, except when the second text is empty and the first is not: then
    the second span repeats the first text instead of showing nothing.
  */
  lemma InitialShows(cfg: Settings, now: real)
    requires cfg.spansMounted
    ensures Shows(cfg.texts, Initial(cfg, now)) <==>
      (|cfg.texts| < 2 || cfg.texts[1] != "" || cfg.texts[0] == "")
  {
    var texts := cfg.texts;
    if |texts| == 1 {
      assert NextIndex(At(0), 1) == At(0);
    } else if |texts| >= 2 {
      assert NextIndex(At(0), |texts|) == At(1);
    }
  }

  /**
    The closure starts morphing at index 0 with no progress, timed from
    `now`; for a non-empty list that index is in range.
  */
  lemma InitialState(cfg: Settings, now: real)
    ensures Initial(cfg, now).textIndex == At(0) && Initial(cfg, now).lastTime == now
    ensures Initial(cfg, now).progress == 0.0 && Initial(cfg, now).isMorphing
    ensures |cfg.texts| > 0 ==> InRange(cfg.texts, Initial(cfg, now).textIndex)
  {
  }

  /**
    When the spans exist the first shows `texts[0]` and the second
    `texts[1] || texts[0]`; otherwise no text is written.
  */
  lemma InitialSpans(cfg: Settings, now: real)
    ensures cfg.spansMounted ==>
      Initial(cfg, now).text1 == Element(cfg.texts, At(0)) &&
      Initial(cfg, now).text2 == OrElse(Element(cfg.texts, At(1)), Element(cfg.texts, At(0)))
    ensures !cfg.spansMounted ==> Initial(cfg, now).text1 == "" && Initial(cfg, now).text2 == ""
  {
  }

  /** What `setMorph` is called with this frame. */
  datatype MorphCall =
    | NoCall               // cooldown phase: `setMorph` is not called
    | Fraction(f: real)    // called with this fraction
    | NonFinite            // called with -Infinity or NaN (a morph time of 0)

  /**
    `Math.min(progress / morphTime, 1)`. The fraction never exceeds 1; it is
    1 once the morph time is reached, and the share of the morph time spent
    before that. A morph time of 0 gives 1 for positive progress (Infinity
    capped at 1) and no finite number otherwise.
  */
  function MorphFraction(progress: real, morphTime: real): (call: MorphCall)
    ensures call != NoCall
    ensures call.Fraction? ==> call.f <= 1.0
    ensures morphTime > 0.0 ==> call.Fraction?
    ensures morphTime > 0.0 && progress >= morphTime ==> call == Fraction(1.0)
    ensures morphTime > 0.0 && 0.0 <= progress < morphTime ==> call == Fraction(progress / morphTime) && 0.0 <= call.f < 1.0
    ensures call.NonFinite? <==> morphTime == 0.0 && progress <= 0.0
  {
    if morphTime == 0.0 then
      if progress > 0.0 then Fraction(1.0) else NonFinite
    else
      var q := progress / morphTime;
      assert morphTime > 0.0 && progress >= morphTime ==> q >= 1.0;
      assert morphTime > 0.0 && 0.0 <= progress < morphTime ==> 0.0 <= q < 1.0;
      Fraction(if q < 1.0 then q else 1.0)
  }

  /** Seconds since the previous frame, from millisecond timestamps. */
  function DeltaTime(m: Machine, currentTime: real): real {
    (currentTime - m.lastTime) / 1000.0
  }

  /** The frame at `currentTime` finishes a cooldown. */
  predicate CompletesCooldown(cfg: Settings, m: Machine, currentTime: real) {
    !m.isMorphing && m.progress + DeltaTime(m, currentTime) >= cfg.cooldownTime
  }

  /**
    One call of `animate`. The clock is always recorded. A phase change
    resets progress to 0, otherwise progress grows by the elapsed seconds.
    The morph phase ends once progress reaches `morphTime` and never moves
    the index or the texts; the cooldown phase ends once progress reaches
    `cooldownTime`, and only that advances the index (modulo the number of
    texts) and, with the spans present, shows the new index's text and the
    next one. The index stays in range.
  */
  function Step(cfg: Settings, m: Machine, currentTime: real): (m': Machine)
    ensures m'.lastTime == currentTime
    ensures m'.isMorphing != m.isMorphing ==> m'.progress == 0.0
    ensures m'.isMorphing == m.isMorphing ==> m'.progress == m.progress + DeltaTime(m, currentTime)
    ensures m.isMorphing ==> (m'.isMorphing <==> m.progress + DeltaTime(m, currentTime) < cfg.morphTime)
    ensures !m.isMorphing ==> (m'.isMorphing <==> CompletesCooldown(cfg, m, currentTime))
    ensures CompletesCooldown(cfg, m, currentTime) ==> m'.textIndex == NextIndex(m.textIndex, |cfg.texts|)
    ensures CompletesCooldown(cfg, m, currentTime) && cfg.spansMounted ==> Shows(cfg.texts, m')
    ensures CompletesCooldown(cfg, m, currentTime) && !cfg.spansMounted ==>
      m'.text1 == m.text1 && m'.text2 == m.text2
    ensures !CompletesCooldown(cfg, m, currentTime) ==>
      m'.textIndex == m.textIndex && m'.text1 == m.text1 && m'.text2 == m.text2
    ensures InRange(cfg.texts, m.textIndex) ==> InRange(cfg.texts, m'.textIndex)
  {
    var dt := DeltaTime(m, currentTime);
    var progress := m.progress + dt;
    if m.isMorphing then
      if progress >= cfg.morphTime then m.(isMorphing := false, progress := 0.0, lastTime := currentTime)
      else m.(progress := progress, lastTime := currentTime)
    else if progress >= cfg.cooldownTime then
      var i := NextIndex(m.textIndex, |cfg.texts|);
      var m1 := m.(isMorphing := true, progress := 0.0, lastTime := currentTime, textIndex := i);
      if cfg.spansMounted then
        m1.(text1 := Element(cfg.texts, i), text2 := Element(cfg.texts, NextIndex(i, |cfg.texts|)))
      else m1
    else m.(progress := progress, lastTime := currentTime)
  }

  /** What `setMorph` receives on the frame at `currentTime`: a fraction of at most 1 in the morph phase. */
  function AppliedMorph(cfg: Settings, m: Machine, currentTime: real): (call: MorphCall)
    ensures m.isMorphing <==> call != NoCall
    ensures call.Fraction? ==> call.f <= 1.0
  {
    if m.isMorphing then MorphFraction(m.progress + DeltaTime(m, currentTime), cfg.morphTime) else NoCall
  }

  /** The machine after one frame per timestamp. */
  function Run(cfg: Settings, m: Machine, times: seq<real>): Machine
    decreases |times|
  {
    if |times| == 0 then m else Run(cfg, Step(cfg, m, times[0]), times[1..])
  }

  /** How many cooldowns those frames complete. */
  function Completions(cfg: Settings, m: Machine, times: seq<real>): nat
    decreases |times|
  {
    if |times| == 0 then 0
    else (if CompletesCooldown(cfg, m, times[0]) then 1 else 0) + Completions(cfg, Step(cfg, m, times[0]), times[1..])
  }

  lemma MulAtLeast(d: int, len: int)
    requires len > 0 && d >= 1
    ensures d * len >= len
  {
  }

  lemma MulAtMost(d: int, len: int)
    requires len > 0 && d <= -1
    ensures d * len <= -len
  {
    MulAtLeast(-d, len);
  }

  /** A remainder below the divisor is the remainder. */
  lemma ModUnique(z: int, k: int, r: int, len: int)
    requires len > 0 && 0 <= r < len && z == k * len + r
    ensures z % len == r
  {
    var q := z / len;
    var s := z % len;
    assert z == q * len + s;
    var d := k - q;
    assert d * len == s - r;
    if d >= 1 {
      MulAtLeast(d, len);
      assert false;
    } else if d <= -1 {
      MulAtMost(d, len);
      assert false;
    }
  }

  /** Reducing modulo the length before adding changes nothing. */
  lemma ModAddLeft(a: nat, b: nat, len: nat)
    requires len > 0
    ensures (a % len + b) % len == (a + b) % len
  {
    var q := a / len;
    var r := a % len;
    var c := (r + b) / len;
    var t := (r + b) % len;
    assert r + b == c * len + t;
    assert a + b == (q + c) * len + t;
    ModUnique(a + b, q + c, t, len);
  }

  /** One frame adds 1 to the index, modulo the length, when it completes a cooldown, and 0 otherwise. */
  lemma StepIndex(cfg: Settings, m: Machine, t: real)
    requires InRange(cfg.texts, m.textIndex)
    ensures InRange(cfg.texts, Step(cfg, m, t).textIndex)
    ensures Step(cfg, m, t).textIndex.n ==
      (m.textIndex.n + if CompletesCooldown(cfg, m, t) then 1 else 0) % |cfg.texts|
  {
    var n := m.textIndex.n;
    if !CompletesCooldown(cfg, m, t) {
      ModUnique(n, 0, n, |cfg.texts|);
    }
  }

  /**
    Over any run of frames the index advances by exactly the number of
    completed cooldowns, modulo the number of texts, and stays in range.
  */
  lemma {:induction false} RunIndex(cfg: Settings, m: Machine, times: seq<real>)
    requires InRange(cfg.texts, m.textIndex)
    ensures InRange(cfg.texts, Run(cfg, m, times).textIndex)
    ensures Run(cfg, m, times).textIndex.n == (m.textIndex.n + Completions(cfg, m, times)) % |cfg.texts|
    decreases |times|
  {
    var len := |cfg.texts|;
    var n := m.textIndex.n;
    if |times| == 0 {
      ModUnique(n, 0, n, len);
    } else {
      var m1 := Step(cfg, m, times[0]);
      var c: nat := if CompletesCooldown(cfg, m, times[0]) then 1 else 0;
      var rest := Completions(cfg, m1, times[1..]);
      StepIndex(cfg, m, times[0]);
      RunIndex(cfg, m1, times[1..]);
      assert Completions(cfg, m, times) == c + rest;
      assert Run(cfg, m, times) == Run(cfg, m1, times[1..]);
      ModChain(n, c, rest, m1.textIndex.n, Run(cfg, m1, times[1..]).textIndex.n, len);
    }
  }

  lemma ModChain(n: nat, c: nat, rest: nat, mid: nat, last: nat, len: nat)
    requires len > 0
    requires mid == (n + c) % len && last == (mid + rest) % len
    ensures last == (n + (c + rest)) % len
  {
    ModAddLeft(n + c, rest, len);
    assert n + c + rest == n + (c + rest);
  }

  /**
    With the spans present, once they show the current text and the next one
    they keep doing so on every later frame.
  */
  lemma {:induction false} RunKeepsShowing(cfg: Settings, m: Machine, times: seq<real>)
    requires cfg.spansMounted && Shows(cfg.texts, m)
    ensures Shows(cfg.texts, Run(cfg, m, times))
    decreases |times|
  {
    if |times| > 0 {
      RunKeepsShowing(cfg, Step(cfg, m, times[0]), times[1..]);
    }
  }

  /**
    For a non-empty list of texts, the index is in range after every frame
    from the start.
  */
  lemma IndexAlwaysInRange(cfg: Settings, now: real, times: seq<real>)
    requires |cfg.texts| > 0
    ensures InRange(cfg.texts, Run(cfg, Initial(cfg, now), times).textIndex)
  {
    RunIndex(cfg, Initial(cfg, now), times);
  }

  /** The animation's closure state and the two spans' text, updated in place each frame. */
  class GooeyAnimation {
    const texts: seq<string>
    const morphTime: real
    const cooldownTime: real
    const spansMounted: bool
    var textIndex: Index
    var progress: real
    var isMorphing: bool
    var lastTime: real
    var text1: string
    var text2: string

    function Config(): Settings {
      Settings(texts, morphTime, cooldownTime, spansMounted)
    }

    function State(): Machine
      reads this
    {
      Machine(textIndex, progress, isMorphing, lastTime, text1, text2)
    }

    ghost predicate Valid()
      reads this
    {
      |texts| > 0 ==> InRange(texts, textIndex)
    }

    /** The effect's setup, with the clock read at `now`. */
    constructor (texts: seq<string>, morphTime: real, cooldownTime: real, spansMounted: bool, now: real)
      ensures Valid()
      ensures Config() == Settings(texts, morphTime, cooldownTime, spansMounted)
      ensures State() == Initial(Config(), now)
    {
      this.texts := texts;
      this.morphTime := morphTime;
      this.cooldownTime := cooldownTime;
      this.spansMounted := spansMounted;
      textIndex := At(0);
      progress := 0.0;
      isMorphing := true;
      lastTime := now;
      text1 := "";
      text2 := "";
      new;
      if spansMounted {
        text1 := Element(texts, At(0));
        text2 := OrElse(Element(texts, At(1)), Element(texts, At(0)));
      }
    }

    /** `animate(currentTime)`: one frame; returns what `setMorph` was given. */
    method Animate(currentTime: real) returns (call: MorphCall)
      requires Valid()
      modifies this
      ensures Valid()
      ensures State() == Step(Config(), old(State()), currentTime)
      ensures call == AppliedMorph(Config(), old(State()), currentTime)
    {
      var deltaTime := (currentTime - lastTime) / 1000.0;
      lastTime := currentTime;
      if isMorphing {
        progress := progress + deltaTime;
        call := MorphFraction(progress, morphTime);
        if progress >= morphTime {
          isMorphing := false;
          progress := 0.0;
        }
      } else {
        call := NoCall;
        progress := progress + deltaTime;
        if progress >= cooldownTime {
          isMorphing := true;
          progress := 0.0;
          textIndex := NextIndex(textIndex, |texts|);
          if spansMounted {
            text1 := Element(texts, textIndex);
            text2 := Element(texts, NextIndex(textIndex, |texts|));
          }
        }
      }
    }
  }
}
