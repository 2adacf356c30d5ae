/**
 * The scoring engine (src/game/Scoring.ts). A round that clears n lines
 * scores 50 + 100 + … + 50·2^(n-1) points, multiplied by the current
 * combo; the combo then rises by one up to 25, and drops back to 1 when a
 * bag is used up without any clear.
 */
module Scoring {
  import opened Types

  const BaseLineClearScore: int := 50
  const MaxCombo: int := 25

  datatype ScoringState = ScoringState(
    combo: int,
    baseScore: int,
    totalScore: int,
    lastClearScore: int,
    totalLinesCleared: int)

  datatype LineClearResult = LineClearResult(
    baseScore: int,
    finalScore: int,
    comboMultiplier: int,
    linesCleared: int,
    isNewCombo: bool)

  datatype PotentialScore = PotentialScore(baseScore: int, finalScore: int, comboAfter: int)

  /** `Partial<ScoringState>`: a field that is None is absent and takes its default. */
  datatype PartialState = PartialState(
    combo: Option<int>,
    baseScore: Option<int>,
    totalScore: Option<int>,
    lastClearScore: Option<int>,
    totalLinesCleared: Option<int>)

  /** The state of a new game: combo 1, every counter 0. */
  function Fresh(): ScoringState {
    ScoringState(1, 0, 0, 0, 0)
  }

  // ---------------------------------------------------------------------
  // The per-round formula

  function Pow2(i: nat): (p: nat)
    ensures p >= 1
  {
    if i == 0 then 1 else 2 * Pow2(i - 1)
  }

  /** Σ_{i<n} 50·2^i; no lines (or a negative count, for which the loop never runs) score 0. */
  function LineScore(n: int): (s: int)
    ensures s >= 0
    decreases n
  {
    if n <= 0 then 0 else LineScore(n - 1) + BaseLineClearScore * Pow2(n - 1)
  }

  /** The closed form: n lines score 50·(2^n − 1). */
  lemma {:induction false} LineScoreClosedForm(n: nat)
    ensures LineScore(n) == BaseLineClearScore * (Pow2(n) - 1)
  {
    if n > 0 {
      LineScoreClosedForm(n - 1);
    }
  }

  /** One more line always scores strictly more. */
  lemma LineScoreIncreases(n: nat)
    ensures LineScore(n + 1) > LineScore(n)
  {
  }

  /** The documented values: 1 → 50, 2 → 150, 3 → 350, 4 → 750. */
  lemma LineScoreExamples()
    ensures LineScore(0) == 0 && LineScore(1) == 50 && LineScore(2) == 150
    ensures LineScore(3) == 350 && LineScore(4) == 750
  {
    LineScoreClosedForm(4);
  }

  /** The combo after a clearing round: one more, capped at 25; a combo already at or above 25 stays. */
  function NextCombo(combo: int): (c: int)
    ensures combo < MaxCombo ==> c == combo + 1
    ensures combo >= MaxCombo ==> c == combo
  {
    if combo < MaxCombo then (if combo + 1 < MaxCombo then combo + 1 else MaxCombo) else combo
  }

  /** The state after a round that cleared n lines. */
  function RoundState(s: ScoringState, n: int): (r: ScoringState)
    ensures n == 0 ==> r == s
    ensures n != 0 ==> r.combo == NextCombo(s.combo) && r.totalLinesCleared == s.totalLinesCleared + n
    ensures n != 0 ==> r.baseScore == s.baseScore + RoundResult(s, n).baseScore
    ensures n != 0 ==> r.lastClearScore == RoundResult(s, n).finalScore
    ensures n != 0 ==> r.totalScore == s.totalScore + r.lastClearScore
  {
    if n == 0 then s
    else
      var base := LineScore(n);
      var final := base * s.combo;
      s.(combo := NextCombo(s.combo),
         baseScore := s.baseScore + base,
         totalScore := s.totalScore + final,
         lastClearScore := final,
         totalLinesCleared := s.totalLinesCleared + n)
  }

  /** What processLineClear reports for a round that cleared n lines. */
  function RoundResult(s: ScoringState, n: int): (r: LineClearResult)
    ensures r.linesCleared == n && r.finalScore == r.baseScore * s.combo
    ensures r.comboMultiplier == s.combo
    ensures n >= 0 ==> r.baseScore == BaseLineClearScore * (Pow2(n) - 1)
    ensures r.isNewCombo <==> n != 0 && s.combo < MaxCombo
  {
    LineScoreClosedForm(if n >= 0 then n else 0);
    if n == 0 then LineClearResult(0, 0, s.combo, 0, false)
    else LineClearResult(LineScore(n), LineScore(n) * s.combo, s.combo, n, s.combo < MaxCombo)
  }

  /** The combo stays within [1, 25] through clearing rounds. */
  lemma ComboStaysInRange(s: ScoringState, n: int)
    requires 1 <= s.combo <= MaxCombo
    ensures 1 <= RoundState(s, n).combo <= MaxCombo
    ensures n != 0 ==> RoundState(s, n).combo == if s.combo < MaxCombo then s.combo + 1 else MaxCombo
  {
  }

  /** With a non-negative combo the total never goes down, and it rises by exactly the final score. */
  lemma TotalNeverDecreases(s: ScoringState, n: int)
    requires s.combo >= 0
    ensures RoundState(s, n).totalScore >= s.totalScore
    ensures RoundState(s, n).totalScore == s.totalScore + RoundResult(s, n).finalScore
    ensures n > 0 && s.combo > 0 ==> RoundState(s, n).totalScore > s.totalScore
  {
    if n > 0 && s.combo > 0 {
      LineScoreClosedForm(n);
    }
  }

  // ---------------------------------------------------------------------
  // Sequences of rounds

  /** A round with n cleared lines, or the end of a bag without any clear. */
  datatype Event = Clear(lines: nat) | BagWithoutClears

  function Apply(s: ScoringState, e: Event): ScoringState {
    match e
    case Clear(n) => RoundState(s, n)
    case BagWithoutClears => s.(combo := 1)
  }

  function Play(s: ScoringState, events: seq<Event>): ScoringState
    decreases |events|
  {
    if |events| == 0 then s else Play(Apply(s, events[0]), events[1..])
  }

  /** k single-line rounds raise the combo by k, stopping at 25. */
  lemma {:induction false} SingleClearsRaiseCombo(s: ScoringState, k: nat)
    requires 1 <= s.combo <= MaxCombo
    ensures Play(s, seq(k, _ => Clear(1))).combo == if s.combo + k < MaxCombo then s.combo + k else MaxCombo
    decreases k
  {
    if k > 0 {
      var events := seq(k, _ => Clear(1));
      assert events[0] == Clear(1) && events[1..] == seq(k - 1, _ => Clear(1));
      SingleClearsRaiseCombo(Apply(s, Clear(1)), k - 1);
    }
  }

  /** Thirty single-line clears from a new game leave the combo at its cap. */
  lemma ThirtyClearsCapCombo()
    ensures Play(Fresh(), seq(30, _ => Clear(1))).combo == MaxCombo
  {
    SingleClearsRaiseCombo(Fresh(), 30);
  }

  /** The states the walkthrough passes through: one, two and three lines, then one line after a combo reset. */
  lemma WalkthroughStates()
    ensures RoundState(Fresh(), 1) == ScoringState(2, 50, 50, 50, 1)
    ensures RoundState(ScoringState(2, 50, 50, 50, 1), 2) == ScoringState(3, 200, 350, 300, 3)
    ensures RoundState(ScoringState(3, 200, 350, 300, 3), 3) == ScoringState(4, 550, 1400, 1050, 6)
    ensures RoundState(ScoringState(1, 550, 1400, 1050, 6), 1) == ScoringState(2, 600, 1450, 50, 7)
  {
    LineScoreExamples();
  }

  /** The scoring walkthrough: 1, 2 and 3 lines, a bag without clears, then 1 line total 50 + 300 + 1050 + 50. */
  lemma WalkthroughTotals1450()
    ensures RoundResult(Fresh(), 1) == LineClearResult(50, 50, 1, 1, true)
    ensures RoundResult(RoundState(Fresh(), 1), 2) == LineClearResult(150, 300, 2, 2, true)
    ensures RoundResult(RoundState(RoundState(Fresh(), 1), 2), 3) == LineClearResult(350, 1050, 3, 3, true)
    ensures Play(Fresh(), [Clear(1), Clear(2), Clear(3), BagWithoutClears, Clear(1)]).totalScore == 1450
    ensures Play(Fresh(), [Clear(1), Clear(2), Clear(3), BagWithoutClears, Clear(1)]).combo == 2
  {
    LineScoreExamples();
    WalkthroughStates();
    var events := [Clear(1), Clear(2), Clear(3), BagWithoutClears, Clear(1)];
    var s1 := ScoringState(2, 50, 50, 50, 1);
    var s2 := ScoringState(3, 200, 350, 300, 3);
    var s3 := ScoringState(4, 550, 1400, 1050, 6);
    var s4 := s3.(combo := 1);
    var s5 := ScoringState(2, 600, 1450, 50, 7);
    assert Play(Fresh(), events) == Play(s1, events[1..]);
    assert events[1..][1..] == [Clear(3), BagWithoutClears, Clear(1)];
    assert Play(s1, events[1..]) == Play(s2, [Clear(3), BagWithoutClears, Clear(1)]);
    assert Play(s2, [Clear(3), BagWithoutClears, Clear(1)]) == Play(s3, [BagWithoutClears, Clear(1)]);
    assert Play(s3, [BagWithoutClears, Clear(1)]) == Play(s4, [Clear(1)]);
    assert Play(s4, [Clear(1)]) == s5;
  }

  // ---------------------------------------------------------------------
  // Preview, display and persistence

  /** calculatePotentialScore, for a state s. */
  function Potential(s: ScoringState, n: int): (r: PotentialScore)
    ensures r.finalScore == r.baseScore * s.combo
    ensures n >= 0 ==> r.baseScore == BaseLineClearScore * (Pow2(n) - 1)
    ensures n == 0 ==> r.comboAfter == s.combo
    ensures n != 0 ==> r.comboAfter == (if s.combo + 1 < MaxCombo then s.combo + 1 else MaxCombo)
  {
    LineScoreClosedForm(if n >= 0 then n else 0);
    if n == 0 then PotentialScore(0, 0, s.combo)
    else
      var base := LineScore(n);
      PotentialScore(base, base * s.combo, if s.combo + 1 < MaxCombo then s.combo + 1 else MaxCombo)
  }

  /** The preview agrees with the round it previews while the combo is within its cap. */
  lemma PotentialMatchesRound(s: ScoringState, n: nat)
    requires s.combo <= MaxCombo
    ensures Potential(s, n).baseScore == RoundResult(s, n).baseScore
    ensures Potential(s, n).finalScore == RoundResult(s, n).finalScore
    ensures Potential(s, n).comboAfter == RoundState(s, n).combo
  {
  }

  /** Above the cap (reachable only through an initial or restored state) the preview lowers the combo to 25, the round keeps it. */
  lemma PotentialDisagreesAboveCap()
    ensures Potential(Fresh().(combo := 30), 1).comboAfter == 25
    ensures RoundState(Fresh().(combo := 30), 1).combo == 30
  {
  }

  /** getComboDisplayText: empty exactly at combo 1, otherwise the number followed by "x COMBO!". */
  function ComboDisplayText(combo: int): (t: string)
    ensures t == "" <==> combo == 1
    ensures combo != 1 ==> |t| > 8 && t[|t| - 8..] == "x COMBO!" && t[..|t| - 8] == IntToString(combo)
  {
    if combo == 1 then "" else IntToString(combo) + "x COMBO!"
  }

  /** The five display bands: ≥25, ≥10, ≥5, >1 and the rest. */
  function ComboBand(combo: int): (b: nat)
    ensures b < 5
    ensures b == 0 <==> combo >= 25
    ensures b == 1 <==> 10 <= combo < 25
    ensures b == 2 <==> 5 <= combo < 10
    ensures b == 3 <==> 1 < combo < 5
    ensures b == 4 <==> combo <= 1
  {
    if combo >= 25 then 0 else if combo >= 10 then 1 else if combo >= 5 then 2 else if combo > 1 then 3 else 4
  }

  function ScoreColor(combo: int): (c: string)
    ensures c == "#FFD700" <==> combo >= 25
    ensures c == "#FF6B35" <==> 10 <= combo < 25
    ensures c == "#F7931E" <==> 5 <= combo < 10
    ensures c == "#4CAF50" <==> 1 < combo < 5
    ensures c == "#666" <==> combo <= 1
  {
    if combo >= 25 then "#FFD700"
    else if combo >= 10 then "#FF6B35"
    else if combo >= 5 then "#F7931E"
    else if combo > 1 then "#4CAF50"
    else "#666"
  }

  function ScoreAnimation(combo: int): (a: string)
    ensures a == "glow-gold" <==> combo >= 25
    ensures a == "pulse-orange" <==> 10 <= combo < 25
    ensures a == "bounce-light" <==> 5 <= combo < 10
    ensures a == "fade-in" <==> 1 < combo < 5
    ensures a == "none" <==> combo <= 1
  {
    if combo >= 25 then "glow-gold"
    else if combo >= 10 then "pulse-orange"
    else if combo >= 5 then "bounce-light"
    else if combo > 1 then "fade-in"
    else "none"
  }

  /** Colour and animation always come from the same band. */
  lemma ColorAndAnimationAgree(combo: int)
    ensures ScoreColor(combo) == ["#FFD700", "#FF6B35", "#F7931E", "#4CAF50", "#666"][ComboBand(combo)]
    ensures ScoreAnimation(combo) == ["glow-gold", "pulse-orange", "bounce-light", "fade-in", "none"][ComboBand(combo)]
  {
  }

  /** A spread field: present values override the default. */
  function Override(v: Option<int>, default: int): int {
    if v.Some? then v.value else default
  }

  /** JavaScript's `v || default` on a parsed number: absent or 0 gives the default. */
  function OrDefault(v: Option<int>, default: int): (r: int)
    ensures r == default || (v.Some? && r == v.value)
    ensures v.Some? && v.value != 0 ==> r == v.value
  {
    if v.None? || v.value == 0 then default else v.value
  }

  /** The state restored from a parsed record. */
  function Restored(p: PartialState): (s: ScoringState)
    ensures s.combo != 0
  {
    ScoringState(
      OrDefault(p.combo, 1),
      OrDefault(p.baseScore, 0),
      OrDefault(p.totalScore, 0),
      OrDefault(p.lastClearScore, 0),
      OrDefault(p.totalLinesCleared, 0))
  }

  /** serialize, seen through the parser: every field present. */
  function Serialized(s: ScoringState): PartialState {
    PartialState(Some(s.combo), Some(s.baseScore), Some(s.totalScore), Some(s.lastClearScore), Some(s.totalLinesCleared))
  }

  /** Restoring what was saved gives the state back, unless the combo was 0 (which restores as 1). */
  lemma RestoreSerialized(s: ScoringState)
    ensures s.combo != 0 ==> Restored(Serialized(s)) == s
    ensures s.combo == 0 ==> Restored(Serialized(s)) == s.(combo := 1)
  {
  }

  // ---------------------------------------------------------------------
  // The engine object

  class ScoringEngine {
    var state: ScoringState

    /** The defaults, overridden field by field by whatever the caller supplies. */
    constructor (initialState: PartialState)
      ensures state == ScoringState(
        Override(initialState.combo, 1),
        Override(initialState.baseScore, 0),
        Override(initialState.totalScore, 0),
        Override(initialState.lastClearScore, 0),
        Override(initialState.totalLinesCleared, 0))
    {
      state := ScoringState(
        Override(initialState.combo, 1),
        Override(initialState.baseScore, 0),
        Override(initialState.totalScore, 0),
        Override(initialState.lastClearScore, 0),
        Override(initialState.totalLinesCleared, 0));
    }

    /** calculateLineClearScore: the loop adding 50·2^i for each line. */
    method CalculateLineClearScore(linesCleared: int) returns (totalScore: int)
      ensures totalScore == LineScore(linesCleared)
      ensures linesCleared >= 0 ==> totalScore == BaseLineClearScore * (Pow2(linesCleared) - 1)
    {
      if linesCleared == 0 {
        LineScoreClosedForm(0);
        return 0;
      }
      totalScore := 0;
      var i := 0;
      while i < linesCleared
        invariant 0 <= i && (linesCleared >= 0 ==> i <= linesCleared) && (linesCleared < 0 ==> i == 0)
        invariant totalScore == LineScore(i)
      {
        var lineScore := BaseLineClearScore * Pow2(i);
        totalScore := totalScore + lineScore;
        i := i + 1;
      }
      if linesCleared >= 0 {
        LineScoreClosedForm(linesCleared);
      }
    }

    /**
     * processLineClear: scores the round with the combo in force before
     * it, then raises the combo; a round without lines changes nothing.
     */
    method ProcessLineClear(clearedRows: seq<int>, clearedCols: seq<int>) returns (r: LineClearResult)
      modifies this
      ensures r == RoundResult(old(state), |clearedRows| + |clearedCols|)
      ensures state == RoundState(old(state), |clearedRows| + |clearedCols|)
    {
      var linesCleared := |clearedRows| + |clearedCols|;
      if linesCleared == 0 {
        return LineClearResult(0, 0, state.combo, 0, false);
      }
      var baseScore := CalculateLineClearScore(linesCleared);
      var finalScore := baseScore * state.combo;
      var wasComboIncreased := state.combo < MaxCombo;
      if wasComboIncreased {
        state := state.(combo := if state.combo + 1 < MaxCombo then state.combo + 1 else MaxCombo);
      }
      state := state.(
        baseScore := state.baseScore + baseScore,
        totalScore := state.totalScore + finalScore,
        lastClearScore := finalScore,
        totalLinesCleared := state.totalLinesCleared + linesCleared);
      r := LineClearResult(baseScore, finalScore, state.combo - (if wasComboIncreased then 1 else 0), linesCleared, wasComboIncreased);
    }

    /** processBagCompleteWithoutClears: the combo drops to 1, nothing else changes. */
    method ProcessBagCompleteWithoutClears()
      modifies this
      ensures state == old(state).(combo := 1)
    {
      state := state.(combo := 1);
    }

    method Reset()
      modifies this
      ensures state == Fresh()
    {
      state := ScoringState(1, 0, 0, 0, 0);
    }

    function GetComboDisplayText(): (t: string)
      reads this
      ensures t == "" <==> state.combo == 1
    {
      ComboDisplayText(state.combo)
    }

    function IsMaxCombo(): (b: bool)
      reads this
      ensures b <==> state.combo == MaxCombo
    {
      state.combo == MaxCombo
    }

    /** calculatePotentialScore: the preview of a round, without touching the state. */
    function CalculatePotentialScore(linesCleared: int): (p: PotentialScore)
      reads this
      ensures linesCleared == 0 ==> p == PotentialScore(0, 0, state.combo)
      ensures linesCleared != 0 ==> p.baseScore == LineScore(linesCleared) && p.finalScore == p.baseScore * state.combo
      ensures linesCleared > 0 && state.combo <= MaxCombo ==>
        p.baseScore == RoundResult(state, linesCleared).baseScore &&
        p.finalScore == RoundResult(state, linesCleared).finalScore &&
        p.comboAfter == RoundState(state, linesCleared).combo
    {
      Potential(state, linesCleared)
    }

    /** deserialize: a record that failed to parse resets; otherwise each field is taken with `|| default`. */
    method Deserialize(parsed: Result<PartialState>)
      modifies this
      ensures parsed.Err? ==> state == Fresh()
      ensures parsed.Ok? ==> state == Restored(parsed.value)
    {
      if parsed.Err? {
        Reset();
        return;
      }
      state := Restored(parsed.value);
    }
  }

  /** A new engine without overrides starts from the fresh state. */
  lemma NoOverridesIsFresh()
    ensures ScoringState(Override(None, 1), Override(None, 0), Override(None, 0), Override(None, 0), Override(None, 0)) == Fresh()
  {
  }
}
