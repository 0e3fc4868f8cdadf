/** The hashed perceptron: folded history words against the exact history of branch outcomes. */
module PerceptronModel {
  import opened Numbers

  const NTABLES: nat := 16
  const LOG_TABLE_SIZE: nat := 12
  const NGHIST_WORDS: nat := 20
  const HISTORY_LENGTHS: seq<nat> := [0, 3, 4, 6, 8, 10, 14, 19, 26, 36, 49, 67, 91, 125, 170, 232]

  /** A 12-bit word, lowest bit first; missing bits read as 0. */
  type Word = seq<bool>

  const ZERO: Word := [false, false, false, false, false, false, false, false, false, false, false, false]

  function Bit(w: Word, k: nat): bool { k < |w| && w[k] }

  /** The outcome of the branch `ago` places back; before the first branch everything reads as not taken. */
  function Outcome(history: seq<bool>, ago: nat): bool { ago < |history| && history[ago] }

  function Xor(a: Word, b: Word): (r: Word)
    ensures |r| == LOG_TABLE_SIZE && forall k :: 0 <= k < LOG_TABLE_SIZE ==> r[k] == (Bit(a, k) != Bit(b, k))
  {
    seq(LOG_TABLE_SIZE, k requires 0 <= k < LOG_TABLE_SIZE => Bit(a, k) != Bit(b, k))
  }

  /** The n lowest bits. */
  function Low(w: Word, n: nat): (r: Word)
    ensures |r| == LOG_TABLE_SIZE && forall k :: 0 <= k < LOG_TABLE_SIZE ==> r[k] == (Bit(w, k) && k < n)
  {
    seq(LOG_TABLE_SIZE, k requires 0 <= k < LOG_TABLE_SIZE => Bit(w, k) && k < n)
  }

  /** The word shifted up by one with a new lowest bit. */
  function Shift(w: Word, b: bool): (r: Word)
    ensures |r| == LOG_TABLE_SIZE && forall k :: 0 <= k < LOG_TABLE_SIZE ==> r[k] == if k == 0 then b else Bit(w, k - 1)
  {
    seq(LOG_TABLE_SIZE, k requires 0 <= k < LOG_TABLE_SIZE => if k == 0 then b else Bit(w, k - 1))
  }

  const TABLE_SIZE: nat := 4096

  function IndexOf(w: Word): (x: nat)
    requires |w| == LOG_TABLE_SIZE
    ensures x < TABLE_SIZE
  {
    assert Pow2(4) == 16 && Pow2(8) == 256 && Pow2(12) == 4096;
    Number(w)
  }

  lemma Places(m: nat, j: nat)
    requires j < LOG_TABLE_SIZE
    ensures (LOG_TABLE_SIZE * m + j) % LOG_TABLE_SIZE == j && (LOG_TABLE_SIZE * m + j) / LOG_TABLE_SIZE == m
  {
  }

  // ---------- what the words mean ----------

  /** Bit k of word i is the outcome 12i + k branches ago. */
  ghost predicate Exact(words: seq<Word>, history: seq<bool>) {
    && |words| == NGHIST_WORDS
    && forall i, k :: 0 <= i < NGHIST_WORDS && 0 <= k < LOG_TABLE_SIZE ==>
         Bit(words[i], k) == Outcome(history, LOG_TABLE_SIZE * i + k)
  }

  /** The words after a branch: each passes its highest bit on to the next. */
  function Pushed(words: seq<Word>, b: bool): (r: seq<Word>)
    ensures |r| == |words|
  {
    seq(|words|, i requires 0 <= i < |words| =>
      Shift(words[i], if i == 0 then b else Bit(words[i - 1], LOG_TABLE_SIZE - 1)))
  }

  /** One shift through all words is exactly one branch more of history. */
  lemma PushIsOneBranch(words: seq<Word>, history: seq<bool>, b: bool)
    requires Exact(words, history)
    ensures Exact(Pushed(words, b), [b] + history)
  {
    hide Outcome, Pushed;
    forall i, k | 0 <= i < NGHIST_WORDS && 0 <= k < LOG_TABLE_SIZE
      ensures Bit(Pushed(words, b)[i], k) == Outcome([b] + history, LOG_TABLE_SIZE * i + k)
    {
      PushedBit(words, history, b, i, k);
    }
  }

  lemma PushedBit(words: seq<Word>, history: seq<bool>, b: bool, i: nat, k: nat)
    requires Exact(words, history) && i < NGHIST_WORDS && k < LOG_TABLE_SIZE
    ensures Bit(Pushed(words, b)[i], k) == Outcome([b] + history, LOG_TABLE_SIZE * i + k)
  {
    hide Outcome;
    OneBranchMore(history, b, LOG_TABLE_SIZE * i + k);
    assert Pushed(words, b)[i][k] ==
      if k > 0 then Bit(words[i], k - 1) else if i == 0 then b else Bit(words[i - 1], LOG_TABLE_SIZE - 1);
    if k == 0 && i > 0 { assert LOG_TABLE_SIZE * (i - 1) + (LOG_TABLE_SIZE - 1) == LOG_TABLE_SIZE * i + k - 1; }
  }

  lemma OneBranchMore(history: seq<bool>, b: bool, ago: nat)
    ensures Outcome([b] + history, ago) == if ago == 0 then b else Outcome(history, ago - 1)
  {
  }

  // ---------- the table index ----------

  /** Parity of the outcomes at places k, k + 12, k + 24, ... among the n most recent ones. */
  function Fold(history: seq<bool>, n: nat, k: nat): bool {
    if n == 0 then false else
    Fold(history, n - 1, k) != ((n - 1) % LOG_TABLE_SIZE == k && Outcome(history, n - 1))
  }

  /** XOR of the first m words. */
  function XorWords(words: seq<Word>, m: nat): (r: Word)
    requires m <= |words|
    ensures |r| == LOG_TABLE_SIZE
  {
    if m == 0 then ZERO else Xor(XorWords(words, m - 1), words[m - 1])
  }

  /** The index computed by predict_branch for a table with history length n. */
  function Index(words: seq<Word>, n: nat, pc: Word): (r: Word)
    requires n / LOG_TABLE_SIZE < |words|
    ensures |r| == LOG_TABLE_SIZE
  {
    Xor(Xor(XorWords(words, n / LOG_TABLE_SIZE), Low(words[n / LOG_TABLE_SIZE], n % LOG_TABLE_SIZE)), pc)
  }

  /** The place table i is read at. */
  function TableIndex(words: seq<Word>, i: nat, pc: Word): (x: nat)
    requires |words| == NGHIST_WORDS && i < NTABLES
    ensures x < TABLE_SIZE
  {
    IndexOf(Index(words, HISTORY_LENGTHS[i], pc))
  }

  /** j more places of one word: only the place k counts for bit k. */
  lemma {:induction false} FoldWord(history: seq<bool>, m: nat, j: nat, k: nat)
    requires j <= LOG_TABLE_SIZE && k < LOG_TABLE_SIZE
    ensures Fold(history, LOG_TABLE_SIZE * m + j, k)
         == (Fold(history, LOG_TABLE_SIZE * m, k) != (k < j && Outcome(history, LOG_TABLE_SIZE * m + k)))
  {
    if j > 0 {
      FoldWord(history, m, j - 1, k);
      Places(m, j - 1);
      hide Outcome;
    }
  }

  lemma {:induction false} WordsFold(words: seq<Word>, history: seq<bool>, m: nat, k: nat)
    requires Exact(words, history) && m <= NGHIST_WORDS && k < LOG_TABLE_SIZE
    ensures Bit(XorWords(words, m), k) == Fold(history, LOG_TABLE_SIZE * m, k)
  {
    if m > 0 {
      WordsFold(words, history, m - 1, k);
      FoldWord(history, m - 1, LOG_TABLE_SIZE, k);
    }
  }

  /** Each index bit is the PC bit XOR the parity of exactly the n most recent outcomes in its residue class. */
  lemma IndexIsFoldedHistory(words: seq<Word>, history: seq<bool>, n: nat, pc: Word, k: nat)
    requires Exact(words, history) && n < LOG_TABLE_SIZE * NGHIST_WORDS && k < LOG_TABLE_SIZE
    ensures n / LOG_TABLE_SIZE < |words| && Bit(Index(words, n, pc), k) == (Bit(pc, k) != Fold(history, n, k))
  {
    var m, j := n / LOG_TABLE_SIZE, n % LOG_TABLE_SIZE;
    assert n == LOG_TABLE_SIZE * m + j;
    hide Outcome, Fold, XorWords;
    WordsFold(words, history, m, k);
    FoldWord(history, m, j, k);
  }

  lemma {:induction false} FoldUsesOnly(a: seq<bool>, b: seq<bool>, n: nat, k: nat)
    requires forall p :: 0 <= p < n ==> Outcome(a, p) == Outcome(b, p)
    ensures Fold(a, n, k) == Fold(b, n, k)
  {
    if n > 0 { FoldUsesOnly(a, b, n - 1, k); }
  }

  /** Two histories that agree on the n most recent outcomes get the same index: nothing older leaks in. */
  lemma OlderOutcomesDoNotMatter(words: seq<Word>, a: seq<bool>, other: seq<Word>, b: seq<bool>, n: nat, pc: Word)
    requires Exact(words, a) && Exact(other, b) && n < LOG_TABLE_SIZE * NGHIST_WORDS
    requires forall p :: 0 <= p < n ==> Outcome(a, p) == Outcome(b, p)
    ensures n / LOG_TABLE_SIZE < NGHIST_WORDS && Index(words, n, pc) == Index(other, n, pc)
  {
    forall k | 0 <= k < LOG_TABLE_SIZE ensures Index(words, n, pc)[k] == Index(other, n, pc)[k] {
      IndexIsFoldedHistory(words, a, n, pc, k);
      IndexIsFoldedHistory(other, b, n, pc, k);
      FoldUsesOnly(a, b, n, k);
    }
  }

  // ---------- training ----------

  const WEIGHT_MAX: int := 127
  const WEIGHT_MIN: int := -128
  const SPEED: int := 18

  predicate Saturating(w: int) { WEIGHT_MIN <= w <= WEIGHT_MAX }

  function Train(w: int, taken: bool): int {
    if taken then (if w < WEIGHT_MAX then w + 1 else w) else (if w > WEIGHT_MIN then w - 1 else w)
  }

  function Trained(weights: seq<int>, taken: bool): (r: seq<int>)
    ensures |r| == |weights|
  {
    seq(|weights|, i requires 0 <= i < |weights| => Train(weights[i], taken))
  }

  function Sum(weights: seq<int>): int {
    if weights == [] then 0 else Sum(weights[..|weights| - 1]) + weights[|weights| - 1]
  }

  /** Weights that can still move in this direction. */
  function Movable(weights: seq<int>, taken: bool): nat {
    if weights == [] then 0 else
    var w := weights[|weights| - 1];
    Movable(weights[..|weights| - 1], taken)
      + (if taken then (if w < WEIGHT_MAX then 1 else 0) else (if w > WEIGHT_MIN then 1 else 0))
  }

  /** The weights that the indices select, one from each table. */
  function Selected(tables: seq<seq<int>>, indices: seq<nat>): (w: seq<int>)
    requires |tables| == |indices| && forall i :: 0 <= i < |tables| ==> indices[i] < |tables[i]|
    ensures |w| == |tables|
  {
    seq(|tables|, i requires 0 <= i < |tables| => tables[i][indices[i]])
  }

  /** Training moves the sum towards the outcome by exactly the number of weights that are not saturated. */
  lemma {:induction false} TrainingMovesTheSum(weights: seq<int>, taken: bool)
    ensures var moved := Movable(weights, taken);
            Sum(Trained(weights, taken)) == if taken then Sum(weights) + moved else Sum(weights) - moved
  {
    if weights != [] {
      TrainingMovesTheSum(weights[..|weights| - 1], taken);
      assert Trained(weights, taken)[..|weights| - 1] == Trained(weights[..|weights| - 1], taken);
    }
  }

  lemma {:induction false} SumIsBounded(weights: seq<int>)
    requires forall i :: 0 <= i < |weights| ==> Saturating(weights[i])
    ensures WEIGHT_MIN * |weights| <= Sum(weights) <= WEIGHT_MAX * |weights|
    ensures Movable(weights, true) == 0 ==> Sum(weights) == WEIGHT_MAX * |weights|
    ensures Movable(weights, false) == 0 ==> Sum(weights) == WEIGHT_MIN * |weights|
  {
    if weights != [] { SumIsBounded(weights[..|weights| - 1]); }
  }

  /** A mispredicted branch always moves the sum: a sum on the wrong side is never fully saturated. */
  lemma MispredictionTeaches(weights: seq<int>, taken: bool)
    requires weights != [] && forall i :: 0 <= i < |weights| ==> Saturating(weights[i])
    requires taken != (Sum(weights) >= 1)
    ensures if taken then Sum(Trained(weights, taken)) > Sum(weights) else Sum(Trained(weights, taken)) < Sum(weights)
  {
    TrainingMovesTheSum(weights, taken);
    SumIsBounded(weights);
  }

  datatype Threshold = Threshold(theta: int, tc: int)

  function Magnitude(y: int): int { if y < 0 then -y else y }

  /** Dynamic threshold setting. */
  function Adjust(t: Threshold, correct: bool, magnitude: int): Threshold {
    if !correct then
      if t.tc + 1 >= SPEED then Threshold(t.theta + 1, 0) else t.(tc := t.tc + 1)
    else if magnitude < t.theta then
      if t.tc - 1 <= -SPEED then Threshold(t.theta - 1, 0) else t.(tc := t.tc - 1)
    else t
  }

  predicate ThresholdOk(t: Threshold) { t.theta >= 0 && -SPEED < t.tc < SPEED }

  lemma AdjustKeeps(t: Threshold, correct: bool, y: int)
    requires ThresholdOk(t)
    ensures ThresholdOk(Adjust(t, correct, Magnitude(y)))
  {
  }

  /** The threshold in units of the training counter. */
  function Drift(t: Threshold): int { SPEED * t.theta + t.tc }

  /** What one branch adds: a misprediction one, a weak correct prediction minus one. */
  function Nudge(t: Threshold, correct: bool, magnitude: int): int {
    if !correct then 1 else if magnitude < t.theta then -1 else 0
  }

  /** The threshold rises with mispredictions and falls with weak correct predictions, one step of the counter
      at a time; whenever theta itself moves the counter starts again. */
  lemma AdjustMovesByOne(t: Threshold, correct: bool, magnitude: int)
    requires ThresholdOk(t)
    ensures var r := Adjust(t, correct, magnitude);
            Drift(r) == Drift(t) + Nudge(t, correct, magnitude) && (r.theta != t.theta ==> r.tc == 0)
  {
  }

  /** One branch as far as the threshold goes. */
  datatype Verdict = Verdict(correct: bool, y: int)

  function Thresholds(t: Threshold, bs: seq<Verdict>): Threshold
    decreases |bs|
  {
    if bs == [] then t else Thresholds(Adjust(t, bs[0].correct, Magnitude(bs[0].y)), bs[1..])
  }

  function Mispredicted(bs: seq<Verdict>): nat {
    if bs == [] then 0 else (if bs[0].correct then 0 else 1) + Mispredicted(bs[1..])
  }

  /** Correct predictions whose sum was below the threshold of their time. */
  function Weak(t: Threshold, bs: seq<Verdict>): nat
    decreases |bs|
  {
    if bs == [] then 0 else
    (if bs[0].correct && Magnitude(bs[0].y) < t.theta then 1 else 0)
      + Weak(Adjust(t, bs[0].correct, Magnitude(bs[0].y)), bs[1..])
  }

  /** Over every run the threshold, in units of the counter, is its start plus the mispredictions minus the weak
      correct predictions: it settles where the two balance. */
  lemma {:induction false} ThresholdBalances(t: Threshold, bs: seq<Verdict>)
    requires ThresholdOk(t)
    ensures ThresholdOk(Thresholds(t, bs))
    ensures Drift(Thresholds(t, bs)) == Drift(t) + Mispredicted(bs) - Weak(t, bs)
    decreases |bs|
  {
    if bs != [] {
      hide Drift, Adjust, ThresholdOk, Magnitude;
      AdjustKeeps(t, bs[0].correct, bs[0].y);
      AdjustMovesByOne(t, bs[0].correct, Magnitude(bs[0].y));
      ThresholdBalances(Adjust(t, bs[0].correct, Magnitude(bs[0].y)), bs[1..]);
    }
  }
}
