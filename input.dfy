/** The input controller: the three mode variables the keyboard handler
    cycles and clamps (which word is shown, which field effect is active and how
    densely the glyph outlines are sampled) and the decision whether the point
    cloud has to be sampled afresh. */
module Input {
  import opened P5Math

  /** Length of the word list and of the effect-name list. */
  const WordCount: nat := 3
  const EffectCount: nat := 9

  /** The sample factor in hundredths: it lies in [0.05, 0.2], moves by 0.01 per
      key press and starts at 0.1. */
  const MinDensity: int := 5
  const MaxDensity: int := 20
  const InitialDensity: int := 10

  /** The keys the handler tells apart; every other key code is `Other`. */
  datatype Key = RightArrow | LeftArrow | Enter | UpArrow | DownArrow | Other

  predicate IsArrow(k: Key) {
    k.RightArrow? || k.LeftArrow? || k.UpArrow? || k.DownArrow?
  }

  /** The mode state: word index, effect index and sample factor in hundredths. */
  datatype Mode = Mode(word: nat, effect: nat, density: int)

  predicate ValidMode(m: Mode) {
    m.word < WordCount && m.effect < EffectCount && MinDensity <= m.density <= MaxDensity
  }

  /** What one key press does: the new mode, and whether the points are regenerated. */
  datatype Reaction = Reaction(mode: Mode, regenerate: bool)

  /** The sample factor that a density in hundredths stands for. */
  function SampleFactor(density: int): (f: real)
    ensures MinDensity <= density <= MaxDensity ==> 0.05 <= f <= 0.2
  {
    density as real / 100.0
  }

  /** RIGHT: the next word, wrapping from the last back to the first. */
  function NextWord(w: nat): (r: nat)
    ensures r < WordCount
    ensures w + 1 < WordCount ==> r == w + 1
    ensures w + 1 == WordCount ==> r == 0
  {
    (w + 1) % WordCount
  }

  /** LEFT: the previous word, wrapping from the first to the last. */
  function PreviousWord(w: nat): (r: nat)
    ensures r < WordCount
    ensures 0 < w < WordCount ==> r == w - 1
    ensures w == 0 ==> r == WordCount - 1
  {
    (w + WordCount - 1) % WordCount
  }

  /** ENTER: the next effect, wrapping from the last back to the first. */
  function NextEffect(e: nat): (r: nat)
    ensures r < EffectCount
    ensures e + 1 < EffectCount ==> r == e + 1
    ensures e + 1 == EffectCount ==> r == 0
  {
    (e + 1) % EffectCount
  }

  /** UP (delta -1) and DOWN (delta +1): move the density by one hundredth and
      clamp it to [MinDensity, MaxDensity]. */
  function AdjustDensity(d: int, delta: int): (r: int)
    ensures MinDensity <= r <= MaxDensity
    ensures MinDensity <= d + delta <= MaxDensity ==> r == d + delta
    ensures d + delta < MinDensity ==> r == MinDensity
    ensures MaxDensity < d + delta ==> r == MaxDensity
  {
    if d + delta < MinDensity then MinDensity
    else if d + delta > MaxDensity then MaxDensity
    else d + delta
  }

  /** The handler for one key press. */
  function Step(m: Mode, k: Key): (r: Reaction)
    ensures ValidMode(m) ==> ValidMode(r.mode)
    ensures r.regenerate <==> IsArrow(k)
    ensures k.Enter? ==> r.mode.word == m.word && r.mode.density == m.density && r.mode.effect != m.effect
    ensures IsArrow(k) ==> r.mode.effect == m.effect
    ensures k.RightArrow? || k.LeftArrow? ==> r.mode.density == m.density && (m.word < WordCount ==> r.mode.word != m.word)
    ensures k.UpArrow? || k.DownArrow? ==> r.mode.word == m.word
    ensures k.Other? ==> r.mode == m
  {
    match k
    case RightArrow => Reaction(m.(word := NextWord(m.word)), true)
    case LeftArrow => Reaction(m.(word := PreviousWord(m.word)), true)
    case Enter => Reaction(m.(effect := NextEffect(m.effect)), false)
    case UpArrow => Reaction(m.(density := AdjustDensity(m.density, -1)), true)
    case DownArrow => Reaction(m.(density := AdjustDensity(m.density, 1)), true)
    case Other => Reaction(m, false)
  }

  /** The mode after a sequence of key presses. */
  function Run(m: Mode, keys: seq<Key>): Mode
    decreases |keys|
  {
    if keys == [] then m else Run(Step(m, keys[0]).mode, keys[1..])
  }

  /** How many times a sequence of key presses regenerates the points. */
  function Regenerations(m: Mode, keys: seq<Key>): nat
    decreases |keys|
  {
    if keys == [] then 0
    else (if Step(m, keys[0]).regenerate then 1 else 0) + Regenerations(Step(m, keys[0]).mode, keys[1..])
  }

  /** The number of arrow keys in a key sequence, counted independently of
      any mode. */
  function ArrowCount(keys: seq<Key>): (n: nat)
    ensures n <= |keys|
    decreases |keys|
  {
    if keys == [] then 0
    else (if IsArrow(keys[0]) then 1 else 0) + ArrowCount(keys[1..])
  }

  /** Whatever the starting mode, a key sequence regenerates the points
      exactly once per arrow key in it. */
  lemma {:induction false} RegenerationsCountArrows(m: Mode, keys: seq<Key>)
    ensures Regenerations(m, keys) == ArrowCount(keys)
    decreases |keys|
  {
    if keys != [] {
      RegenerationsCountArrows(Step(m, keys[0]).mode, keys[1..]);
    }
  }

  /** `n` presses of the same key. */
  function Presses(k: Key, n: nat): (keys: seq<Key>)
    ensures |keys| == n && forall i :: 0 <= i < n ==> keys[i] == k
  {
    seq(n, _ => k)
  }

  /** After any sequence of key presses the word index, the effect index and
      the sample factor are all in range. */
  lemma {:induction false} RunStaysValid(m: Mode, keys: seq<Key>)
    requires ValidMode(m)
    ensures ValidMode(Run(m, keys))
    decreases |keys|
  {
    if keys != [] {
      RunStaysValid(Step(m, keys[0]).mode, keys[1..]);
    }
  }

  /** Pressing keys in two batches is pressing them all. */
  lemma {:induction false} RunAppend(m: Mode, a: seq<Key>, b: seq<Key>)
    ensures Run(m, a + b) == Run(Run(m, a), b)
    decreases |a|
  {
    if a != [] {
      assert (a + b)[0] == a[0] && (a + b)[1..] == a[1..] + b;
      RunAppend(Step(m, a[0]).mode, a[1..], b);
      assert Run(m, a + b) == Run(Step(m, a[0]).mode, a[1..] + b);
    } else {
      assert a + b == b;
    }
  }

  /** RIGHT from the last word gives the first, LEFT from the first gives the last. */
  lemma WordWraps(m: Mode)
    requires ValidMode(m)
    ensures m.word == WordCount - 1 ==> Step(m, RightArrow).mode.word == 0
    ensures m.word == 0 ==> Step(m, LeftArrow).mode.word == WordCount - 1
  {
  }

  /** LEFT undoes RIGHT and RIGHT undoes LEFT. */
  lemma WordInverse(m: Mode)
    requires ValidMode(m)
    ensures Run(m, [LeftArrow, RightArrow]) == m
    ensures Run(m, [RightArrow, LeftArrow]) == m
  {
    assert [LeftArrow, RightArrow][1..] == [RightArrow];
    assert [RightArrow, LeftArrow][1..] == [LeftArrow];
  }

  /** n ENTER presses advance the effect by n modulo the number of effects and
      change nothing else. */
  lemma {:induction false} EnterAdvances(m: Mode, n: nat)
    requires ValidMode(m)
    ensures Run(m, Presses(Enter, n)) == m.(effect := (m.effect + n) % EffectCount)
  {
    if n == 0 {
      assert Presses(Enter, 0) == [];
    } else {
      assert Presses(Enter, n) == Presses(Enter, n - 1) + [Enter];
      RunAppend(m, Presses(Enter, n - 1), [Enter]);
      EnterAdvances(m, n - 1);
      var e := (m.effect + n - 1) % EffectCount;
      assert NextEffect(e) == (m.effect + n) % EffectCount;
    }
  }

  /** Nine ENTER presses bring the effect back to where it was. */
  lemma NineEntersCycle(m: Mode)
    requires ValidMode(m)
    ensures Run(m, Presses(Enter, EffectCount)) == m
  {
    EnterAdvances(m, EffectCount);
  }

  /** Three RIGHT presses, or three LEFT presses, bring the word back. */
  lemma {:induction false} ThreeWordsCycle(m: Mode)
    requires ValidMode(m)
    ensures Run(m, Presses(RightArrow, WordCount)) == m
    ensures Run(m, Presses(LeftArrow, WordCount)) == m
  {
    assert Presses(RightArrow, WordCount) == [RightArrow, RightArrow, RightArrow];
    assert Presses(LeftArrow, WordCount) == [LeftArrow, LeftArrow, LeftArrow];
    assert [RightArrow, RightArrow, RightArrow][1..] == [RightArrow, RightArrow];
    assert [LeftArrow, LeftArrow, LeftArrow][1..] == [LeftArrow, LeftArrow];
    assert [RightArrow, RightArrow][1..] == [RightArrow];
    assert [LeftArrow, LeftArrow][1..] == [LeftArrow];
  }

  /** UP lowers and DOWN raises the density by one step, except at the bounds,
      where the press leaves it where it is. */
  lemma DensitySteps(m: Mode)
    requires ValidMode(m)
    ensures Step(m, UpArrow).mode.density == if m.density == MinDensity then m.density else m.density - 1
    ensures Step(m, DownArrow).mode.density == if m.density == MaxDensity then m.density else m.density + 1
  {
  }

  /** The integer density agrees with the source's `constrain(sampleFactor ∓ 0.01,
      0.05, 0.2)` evaluated on exact reals. */
  lemma DensityMatchesConstrain(d: int, delta: int)
    requires delta == -1 || delta == 1
    ensures SampleFactor(AdjustDensity(d, delta)) == Constrain(SampleFactor(d) + delta as real / 100.0, 0.05, 0.2)
  {
  }

  /** The sketch's keyboard-driven mode state and its point-cloud generation
      count (each regeneration replaces the sampled points). */
  class Controller {
    var wordIndex: nat
    var effectMode: nat
    var density: int
    var generation: nat

    function CurrentMode(): Mode
      reads this
    {
      Mode(wordIndex, effectMode, density)
    }

    predicate Valid()
      reads this
    {
      ValidMode(CurrentMode())
    }

    /** The initial globals: first word, first effect, sample factor 0.1. */
    constructor ()
      ensures Valid()
      ensures CurrentMode() == Mode(0, 0, InitialDensity) && generation == 0
    {
      wordIndex, effectMode, density, generation := 0, 0, InitialDensity, 0;
    }

    /** `keyPressed`: update the mode for one key and regenerate the points for
        the arrow keys. */
    method KeyPressed(k: Key)
      requires Valid()
      modifies this
      ensures Valid()
      ensures CurrentMode() == Step(old(CurrentMode()), k).mode
      ensures generation == old(generation) + if IsArrow(k) then 1 else 0
    {
      if k.RightArrow? {
        wordIndex := (wordIndex + 1) % WordCount;
        generation := generation + 1;
      } else if k.LeftArrow? {
        wordIndex := (wordIndex + WordCount - 1) % WordCount;
        generation := generation + 1;
      } else if k.Enter? {
        effectMode := (effectMode + 1) % EffectCount;
      } else if k.UpArrow? {
        density := AdjustDensity(density, -1);
        generation := generation + 1;
      } else if k.DownArrow? {
        density := AdjustDensity(density, 1);
        generation := generation + 1;
      }
    }

    /** `windowResized`: the canvas changes size, so the points are sampled
        again; the mode is untouched. */
    method WindowResized()
      modifies this
      ensures CurrentMode() == old(CurrentMode())
      ensures generation == old(generation) + 1
    {
      generation := generation + 1;
    }
  }

  /** A client of the controller: any key sequence leaves a valid mode and
      regenerates the points once per arrow key. */
  method PressAll(c: Controller, keys: seq<Key>)
    requires c.Valid()
    modifies c
    ensures c.Valid()
    ensures c.CurrentMode() == Run(old(c.CurrentMode()), keys)
    ensures c.generation == old(c.generation) + Regenerations(old(c.CurrentMode()), keys)
    ensures c.generation == old(c.generation) + ArrowCount(keys)
  {
    RegenerationsCountArrows(c.CurrentMode(), keys);
    var i := 0;
    while i < |keys|
      invariant 0 <= i <= |keys|
      invariant c.Valid()
      invariant Run(old(c.CurrentMode()), keys) == Run(c.CurrentMode(), keys[i..])
      invariant c.generation + Regenerations(c.CurrentMode(), keys[i..]) == old(c.generation) + Regenerations(old(c.CurrentMode()), keys)
    {
      assert keys[i..][1..] == keys[i + 1..];
      c.KeyPressed(keys[i]);
      i := i + 1;
    }
  }
}
