/** Engram: streaming decode with a bounded convolution state against the causal dilated
    convolution over the whole history. The gate and the norms are outside the model: a step
    takes the gated value and its normalized form. */
module Engram {
  import opened Sums
  import opened Blocks

  type Rows = seq<Vec>

  ghost predicate Shape(m: Rows, cols: nat) {
    forall i | 0 <= i < |m| :: |m[i]| == cols
  }

  function ZeroRows(n: nat, d: nat): Rows { seq(n, _ => seq(d, _ => 0.0)) }

  /** How many steps back tap p of a width-w kernel looks. */
  function Lag(w: nat, p: int, dilation: nat): int { (w - 1 - p) * dilation }

  // ------------------------------------------------------------- one decode step

  /** The state left-padded with zeros to maxLen; a longer state is left as it is. */
  function Padded(state: Rows, maxLen: nat, d: nat): Rows {
    if maxLen > |state| then ZeroRows(maxLen - |state|, d) + state else state
  }

  function NextState(state: Rows, v: Vec, maxLen: nat): Rows {
    if maxLen > |state| then state + [v]
    else if state == [] then [v]
    else state[1..] + [v]
  }

  /** What tap p reads on channel ch; a tap that falls outside the state is dropped. */
  function StepTerms(state: Rows, convW: Rows, maxLen: nat, dilation: nat, ch: int): int -> real {
    p =>
      var idx := maxLen - Lag(|convW|, p, dilation);
      var padded := Padded(state, maxLen, if |convW| > 0 then |convW[0]| else 0);
      if 0 <= p < |convW| && 0 <= idx < maxLen && idx < |padded|
      then Times(At(convW[p], ch), At(padded[idx], ch)) else 0.0
  }

  function StepConv(state: Rows, v: Vec, convW: Rows, maxLen: nat, dilation: nat, ch: int): real
    requires |convW| > 0
  {
    Sum(|convW| - 1, StepTerms(state, convW, maxLen, dilation, ch)) + Times(At(convW[|convW| - 1], ch), At(v, ch))
  }

  function StepOutput(silu: real -> real, state: Rows, v: Vec, vHat: Vec, convW: Rows, maxLen: nat, dilation: nat): Vec
    requires |convW| > 0
  {
    seq(|v|, ch => silu(StepConv(state, v, convW, maxLen, dilation, ch)) + At(vHat, ch))
  }

  /** One decode step: accumulates the taps and builds the next state. A state already longer
      than maxLen - 1 drops its oldest row. */
  method DecodeStep(silu: real -> real, state: Rows, v: Vec, vHat: Vec, convW: Rows, maxLen: nat, dilation: nat)
    returns (y: Vec, newState: Rows)
    requires |convW| > 0 && |vHat| == |v| && Shape(state, |v|) && Shape(convW, |v|)
    ensures y == StepOutput(silu, state, v, vHat, convW, maxLen, dilation)
    ensures newState == NextState(state, v, maxLen)
  {
    hide Times, Lag;
    var w, d := |convW|, |v|;
    var padded := Padded(state, maxLen, d);
    var convOut := seq(d, _ => 0.0);
    for p := 0 to w - 1
      invariant convOut == seq(d, ch => Sum(p, StepTerms(state, convW, maxLen, dilation, ch)))
    {
      var stateIdx := maxLen - Lag(w, p, dilation);
      ghost var before := convOut;
      if 0 <= stateIdx < maxLen {
        convOut := seq(d, ch requires 0 <= ch < d => convOut[ch] + Times(At(convW[p], ch), At(padded[stateIdx], ch)));
      }
      forall ch | 0 <= ch < d
        ensures convOut[ch] == Sum(p + 1, StepTerms(state, convW, maxLen, dilation, ch))
      {
        assert before[ch] == Sum(p, StepTerms(state, convW, maxLen, dilation, ch));
      }
    }
    convOut := seq(d, ch requires 0 <= ch < d => convOut[ch] + Times(At(convW[w - 1], ch), v[ch]));
    assert forall ch | 0 <= ch < d :: convOut[ch] == StepConv(state, v, convW, maxLen, dilation, ch);
    newState := NextState(state, v, maxLen);
    y := seq(d, ch requires 0 <= ch < d => silu(convOut[ch]) + vHat[ch]);
    forall ch | 0 <= ch < d
      ensures y[ch] == StepOutput(silu, state, v, vHat, convW, maxLen, dilation)[ch]
    {
      assert y[ch] == silu(StepConv(state, v, convW, maxLen, dilation, ch)) + At(vHat, ch);
    }
  }

  // -------------------------------------------------------------- whole histories

  /** The state after streaming the first t rows from an empty state. */
  function StateAfter(vs: Rows, maxLen: nat, t: nat): Rows
    requires t <= |vs|
  {
    if t == 0 then [] else NextState(StateAfter(vs, maxLen, t - 1), vs[t - 1], maxLen)
  }

  function Recent(vs: Rows, maxLen: nat, t: nat): Rows
    requires t <= |vs|
  {
    vs[t - (if t < maxLen then t else maxLen)..t]
  }

  lemma RecentStep(vs: Rows, maxLen: nat, t: nat)
    requires 0 < t <= |vs| && maxLen >= 1
    ensures NextState(Recent(vs, maxLen, t - 1), vs[t - 1], maxLen) == Recent(vs, maxLen, t)
  {}

  /** Over every run the state holds exactly the last min(t, maxLen) rows. */
  lemma {:induction false} StateIsRecent(vs: Rows, maxLen: nat, t: nat)
    requires t <= |vs| && maxLen >= 1
    ensures StateAfter(vs, maxLen, t) == Recent(vs, maxLen, t)
  {
    if t > 0 {
      StateIsRecent(vs, maxLen, t - 1);
      RecentStep(vs, maxLen, t);
    }
  }

  /** With room for no row the state still ends up holding the newest one. */
  lemma {:induction false} StateWithoutRoom(vs: Rows, t: nat)
    requires 0 < t <= |vs|
    ensures StateAfter(vs, 0, t) == [vs[t - 1]] != Recent(vs, 0, t)
  {
    if t > 1 {
      StateWithoutRoom(vs, t - 1);
    }
  }

  /** Row i of a history that is zero before its start. */
  function Hist(vs: Rows, i: int, ch: int): real {
    if 0 <= i < |vs| then At(vs[i], ch) else 0.0
  }

  function CausalTerms(vs: Rows, t: int, convW: Rows, dilation: nat, ch: int): int -> real {
    p => Times(if 0 <= p < |convW| then At(convW[p], ch) else 0.0, Hist(vs, t - Lag(|convW|, p, dilation), ch))
  }

  /** The causal dilated convolution of the whole history at time t. */
  function Causal(vs: Rows, t: int, convW: Rows, dilation: nat, ch: int): real {
    Sum(|convW|, CausalTerms(vs, t, convW, dilation, ch))
  }

  /** Earlier taps read further back. */
  lemma LagDecreases(w: nat, p: nat, r: nat, dilation: nat)
    requires p < r < w && dilation >= 1
    ensures Lag(w, p, dilation) >= Lag(w, r, dilation) + dilation
  {
    Successor(w - 1 - r, dilation);
    ScaleMonotone(w - r, w - 1 - p, dilation);
  }

  lemma LagPositive(w: nat, p: nat, dilation: nat)
    requires p < w - 1 && dilation >= 1
    ensures Lag(w, p, dilation) >= 1
  {
    LagDecreases(w, p, w - 1, dilation);
  }

  lemma LagMonotone(w: nat, p: nat, dilation: nat)
    requires p < w
    ensures Lag(w, p, dilation) <= Lag(w, 0, dilation)
  {
    ScaleMonotone(w - 1 - p, w - 1, dilation);
  }

  lemma ReadRecent(vs: Rows, maxLen: nat, t: nat, d: nat, lag: int, ch: int)
    requires 1 <= lag <= maxLen && t <= |vs|
    ensures maxLen - lag < |Padded(Recent(vs, maxLen, t), maxLen, d)|
    ensures At(Padded(Recent(vs, maxLen, t), maxLen, d)[maxLen - lag], ch) == Hist(vs, t - lag, ch)
  {}

  /** A tap reads the history at its lag, as far back as the state reaches. */
  lemma {:induction false} TapReadsHistory(vs: Rows, convW: Rows, maxLen: nat, dilation: nat, t: nat, p: nat, ch: int)
    requires t < |vs| && dilation >= 1 && p < |convW| - 1
    ensures StepTerms(StateAfter(vs, maxLen, t), convW, maxLen, dilation, ch)(p)
         == if Lag(|convW|, p, dilation) <= maxLen then CausalTerms(vs, t, convW, dilation, ch)(p) else 0.0
  {
    hide Times, Lag, StateAfter;
    LagPositive(|convW|, p, dilation);
    if Lag(|convW|, p, dilation) <= maxLen {
      StateIsRecent(vs, maxLen, t);
      ReadRecent(vs, maxLen, t, |convW[0]|, Lag(|convW|, p, dilation), ch);
    }
  }

  /** No tap reaches past the state with a weight. */
  ghost predicate Reaches(convW: Rows, maxLen: nat, dilation: nat, ch: int) {
    forall p | 0 <= p < |convW| - 1 :: Lag(|convW|, p, dilation) > maxLen ==> At(convW[p], ch) == 0.0
  }

  lemma {:induction false} TapWithinReach(vs: Rows, convW: Rows, maxLen: nat, dilation: nat, t: nat, p: nat, ch: int)
    requires t < |vs| && dilation >= 1 && p < |convW| - 1
    requires Lag(|convW|, p, dilation) > maxLen ==> At(convW[p], ch) == 0.0
    ensures StepTerms(StateAfter(vs, maxLen, t), convW, maxLen, dilation, ch)(p) == CausalTerms(vs, t, convW, dilation, ch)(p)
  {
    hide StateAfter, StepTerms, Lag;
    TapReadsHistory(vs, convW, maxLen, dilation, t, p, ch);
    TimesZero(Hist(vs, t - Lag(|convW|, p, dilation), ch));
  }

  lemma NewestTap(vs: Rows, convW: Rows, dilation: nat, t: nat, ch: int)
    requires t < |vs| && |convW| > 0
    ensures CausalTerms(vs, t, convW, dilation, ch)(|convW| - 1) == Times(At(convW[|convW| - 1], ch), At(vs[t], ch))
  {
    assert Lag(|convW|, |convW| - 1, dilation) == 0;
  }

  lemma {:induction false} StepIsCausal(vs: Rows, convW: Rows, maxLen: nat, dilation: nat, t: nat, ch: int)
    requires t < |vs| && dilation >= 1 && |convW| > 0
    requires Reaches(convW, maxLen, dilation, ch)
    ensures StepConv(StateAfter(vs, maxLen, t), vs[t], convW, maxLen, dilation, ch) == Causal(vs, t, convW, dilation, ch)
  {
    hide Times, Lag, StateAfter, StepTerms, CausalTerms, At;
    var w := |convW|;
    var f, g := StepTerms(StateAfter(vs, maxLen, t), convW, maxLen, dilation, ch), CausalTerms(vs, t, convW, dilation, ch);
    forall p | 0 <= p < w - 1
      ensures f(p) == g(p)
    {
      TapWithinReach(vs, convW, maxLen, dilation, t, p, ch);
    }
    SumExt(w - 1, f, g);
    NewestTap(vs, convW, dilation, t, ch);
  }

  /** With dilation 0 every tap but the newest falls just past the state, whatever the state holds. */
  lemma ZeroDilation(state: Rows, convW: Rows, maxLen: nat, p: nat, ch: int)
    requires p < |convW|
    ensures StepTerms(state, convW, maxLen, 0, ch)(p) == 0.0
  {}

  /** A history that is 1 on channel ch at time 0 and zero afterwards. */
  function Impulse(len: nat, ch: nat): Rows {
    seq(len, i => seq(ch + 1, c => if i == 0 && c == ch then 1.0 else 0.0))
  }

  lemma LagInjective(w: nat, p: nat, r: nat, dilation: nat)
    requires p < w && r < w && dilation >= 1 && p != r
    ensures Lag(w, p, dilation) != Lag(w, r, dilation)
  {
    hide Lag;
    LagDecreases(w, if p < r then p else r, if p < r then r else p, dilation);
  }

  /** The impulse response at the lag of tap p is that tap's weight. */
  lemma ImpulseResponse(convW: Rows, dilation: nat, p: nat, ch: nat)
    requires dilation >= 1 && p < |convW| - 1
    ensures Lag(|convW|, p, dilation) >= 1
    ensures var t := Lag(|convW|, p, dilation);
            Causal(Impulse(t + 1, ch), t, convW, dilation, ch) == At(convW[p], ch)
  {
    LagPositive(|convW|, p, dilation);
    var t := Lag(|convW|, p, dilation);
    var vs := Impulse(t + 1, ch);
    forall r | 0 <= r < |convW| && r != p
      ensures CausalTerms(vs, t, convW, dilation, ch)(r) == 0.0
    {
      LagInjective(|convW|, p, r, dilation);
    }
    SumSingle(|convW|, p, CausalTerms(vs, t, convW, dilation, ch));
  }

  /** Streaming decode computes the causal convolution of every history at every time exactly when
      no tap that carries weight reaches past the state. */
  lemma {:induction false} StreamingIsCausalIff(convW: Rows, maxLen: nat, dilation: nat, ch: nat)
    requires dilation >= 1 && |convW| > 0
    ensures Reaches(convW, maxLen, dilation, ch)
       <==> forall vs: Rows, t: nat | t < |vs| ::
              StepConv(StateAfter(vs, maxLen, t), vs[t], convW, maxLen, dilation, ch) == Causal(vs, t, convW, dilation, ch)
  {
    if Reaches(convW, maxLen, dilation, ch) {
      forall vs: Rows, t: nat | t < |vs|
        ensures StepConv(StateAfter(vs, maxLen, t), vs[t], convW, maxLen, dilation, ch) == Causal(vs, t, convW, dilation, ch)
      {
        StepIsCausal(vs, convW, maxLen, dilation, t, ch);
      }
    } else {
      var p :| 0 <= p < |convW| - 1 && Lag(|convW|, p, dilation) > maxLen && At(convW[p], ch) != 0.0;
      var t := Lag(|convW|, p, dilation);
      ImpulseResponse(convW, dilation, p, ch);
      StepForgetsImpulse(convW, maxLen, dilation, t, ch);
      var vs := Impulse(t + 1, ch);
      assert StepConv(StateAfter(vs, maxLen, t), vs[t], convW, maxLen, dilation, ch) != Causal(vs, t, convW, dilation, ch);
    }
  }

  lemma {:induction false} TapForgets(convW: Rows, maxLen: nat, dilation: nat, t: nat, r: nat, ch: nat)
    requires dilation >= 1 && r < |convW| - 1 && t > maxLen
    ensures StepTerms(StateAfter(Impulse(t + 1, ch), maxLen, t), convW, maxLen, dilation, ch)(r) == 0.0
  {
    hide StateAfter, StepTerms, Lag;
    TapReadsHistory(Impulse(t + 1, ch), convW, maxLen, dilation, t, r, ch);
    LagPositive(|convW|, r, dilation);
  }

  /** A step whose state no longer holds the impulse outputs nothing. */
  lemma {:induction false} StepForgetsImpulse(convW: Rows, maxLen: nat, dilation: nat, t: nat, ch: nat)
    requires dilation >= 1 && |convW| > 0 && t > maxLen
    ensures StepConv(StateAfter(Impulse(t + 1, ch), maxLen, t), Impulse(t + 1, ch)[t], convW, maxLen, dilation, ch) == 0.0
  {
    hide StateAfter, StepTerms, Lag;
    var f := StepTerms(StateAfter(Impulse(t + 1, ch), maxLen, t), convW, maxLen, dilation, ch);
    forall r | 0 <= r < |convW| - 1
      ensures f(r) == 0.0
    {
      TapForgets(convW, maxLen, dilation, t, r, ch);
    }
    SumZero(|convW| - 1, f);
  }

  /** Room for the kernel's whole reach is enough, whatever the weights. */
  lemma EnoughRoomReaches(convW: Rows, maxLen: nat, dilation: nat, ch: int)
    requires |convW| > 0 && maxLen >= Lag(|convW|, 0, dilation)
    ensures Reaches(convW, maxLen, dilation, ch)
  {
    forall p | 0 <= p < |convW| - 1
      ensures Lag(|convW|, p, dilation) <= maxLen
    {
      LagMonotone(|convW|, p, dilation);
    }
  }

  // ------------------------------------------------------------- the forward pass

  const KERNEL_SIZE: nat := 4

  function ForwardTerms(vs: Rows, t: int, convW: Rows, d: nat, ch: int): int -> real {
    p => Times(if 0 <= p < |convW| then At(convW[p], ch) else 0.0, Hist(ZeroRows(KERNEL_SIZE - 1, d) + vs, t + p, ch))
  }

  /** Output t of the width-4 convolution over the history with three zero rows in front. */
  function ForwardConv(vs: Rows, t: int, convW: Rows, d: nat, ch: int): real {
    Sum(|convW|, ForwardTerms(vs, t, convW, d, ch))
  }

  function ForwardOutput(silu: real -> real, vs: Rows, vHats: Rows, t: nat, convW: Rows, d: nat): Vec
    requires t < |vs| == |vHats|
  {
    seq(d, ch => silu(ForwardConv(vs, t, convW, d, ch)) + At(vHats[t], ch))
  }

  lemma ForwardIsCausal(vs: Rows, t: nat, convW: Rows, d: nat, ch: int)
    requires |convW| == 4 && t < |vs|
    ensures ForwardConv(vs, t, convW, d, ch) == Causal(vs, t, convW, 1, ch)
  {
    forall p | 0 <= p < KERNEL_SIZE
      ensures ForwardTerms(vs, t, convW, d, ch)(p) == CausalTerms(vs, t, convW, 1, ch)(p)
    {
      assert Hist(ZeroRows(KERNEL_SIZE - 1, d) + vs, t + p, ch) == Hist(vs, t - Lag(KERNEL_SIZE, p, 1), ch);
    }
    SumExt(KERNEL_SIZE, ForwardTerms(vs, t, convW, d, ch), CausalTerms(vs, t, convW, 1, ch));
  }

  /** Streaming an undilated width-4 kernel with room for three rows reproduces the forward pass. */
  lemma {:induction false} StreamingIsForward(silu: real -> real, vs: Rows, vHats: Rows, convW: Rows, maxLen: nat, t: nat, d: nat)
    requires |convW| == 4 && maxLen >= 3 && t < |vs| == |vHats| && |vs[t]| == d
    ensures StepOutput(silu, StateAfter(vs, maxLen, t), vs[t], vHats[t], convW, maxLen, 1)
         == ForwardOutput(silu, vs, vHats, t, convW, d)
  {
    forall ch | 0 <= ch < d
      ensures StepConv(StateAfter(vs, maxLen, t), vs[t], convW, maxLen, 1, ch) == ForwardConv(vs, t, convW, d, ch)
    {
      EnoughRoomReaches(convW, maxLen, 1, ch);
      StepIsCausal(vs, convW, maxLen, 1, t, ch);
      ForwardIsCausal(vs, t, convW, d, ch);
    }
  }
}
