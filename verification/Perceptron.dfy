/** The predictor's tables and registers, updated in place. */
module Perceptron {
  import opened Numbers
  import opened PerceptronModel

  class Predictor {
    const tables: array<seq<int>>
    const ghistWords: array<Word>
    const indices: array<nat>
    var yout: int
    var theta: int
    var tc: int
    ghost var history: seq<bool>

    ghost predicate Shaped()
      reads tables, indices
    {
      && tables.Length == indices.Length == NTABLES && ghistWords.Length == NGHIST_WORDS
      && (forall i :: 0 <= i < NTABLES ==> |tables[i]| == TABLE_SIZE && indices[i] < TABLE_SIZE)
    }

    /** The words are the exact history; weights and threshold stay in their ranges. */
    ghost predicate Valid()
      reads this, tables, ghistWords, indices
    {
      && Shaped() && Exact(ghistWords[..], history) && ThresholdOk(Threshold(theta, tc))
      && (forall i, x :: 0 <= i < NTABLES && 0 <= x < TABLE_SIZE ==> Saturating(tables[i][x]))
    }

    /** The weights the last prediction used. */
    ghost function Used(): (w: seq<int>)
      requires Shaped()
      reads tables, indices
      ensures |w| == NTABLES
    {
      Selected(tables[..], indices[..])
    }

    constructor ()
      ensures Valid() && fresh(tables) && fresh(ghistWords) && fresh(indices) && history == [] && theta == 10
    {
      tables := new seq<int>[NTABLES](_ => seq(TABLE_SIZE, _ => 0));
      ghistWords := new Word[NGHIST_WORDS](_ => ZERO);
      indices := new nat[NTABLES](_ => 0);
      yout, theta, tc, history := 0, 10, 0, [];
    }

    /** predict_branch. */
    method PredictBranch(pc: Word) returns (taken: bool)
      requires Valid()
      modifies this`yout, indices
      ensures Valid() && taken == (yout >= 1) && yout == Sum(Used())
      ensures forall i :: 0 <= i < NTABLES ==> indices[i] == TableIndex(ghistWords[..], i, pc)
    {
      yout := 0;
      ghost var words, t := ghistWords[..], tables[..];
      hide Exact, TableIndex, Sum, ThresholdOk, Saturating;
      for i := 0 to NTABLES
        invariant Shaped() && yout == Sum(Selected(t[..i], indices[..i]))
        invariant forall j :: 0 <= j < i ==> indices[j] == TableIndex(words, j, pc)
      {
        SelectWeight(i, pc);
      }
      assert t[..NTABLES] == t && indices[..NTABLES] == indices[..];
      taken := yout >= 1;
    }

    /** One table's share of the prediction. */
    method SelectWeight(i: nat, pc: Word)
      requires Shaped() && i < NTABLES && yout == Sum(Selected(tables[..i], indices[..i]))
      modifies this`yout, indices
      ensures Shaped() && yout == Sum(Selected(tables[..i + 1], indices[..i + 1]))
      ensures indices[..] == old(indices[..])[i := TableIndex(ghistWords[..], i, pc)]
    {
      hide Index, Number, Sum, IndexOf;
      ghost var chosen := indices[..i];
      var x := FoldHistory(HISTORY_LENGTHS[i], pc);
      indices[i] := IndexOf(x);
      yout := yout + tables[i][indices[i]];
      assert indices[..i + 1] == chosen + [indices[i]] && tables[..i + 1] == tables[..i] + [tables[i]];
      OneMoreTable(tables[..i], chosen, tables[i], indices[i]);
    }

    /** The hashing loop for one table. */
    method FoldHistory(n: nat, pc: Word) returns (x: Word)
      requires ghistWords.Length == NGHIST_WORDS && n / LOG_TABLE_SIZE < NGHIST_WORDS
      ensures x == Index(ghistWords[..], n, pc)
    {
      ghost var words := ghistWords[..];
      var mostWords, lastWord := n / LOG_TABLE_SIZE, n % LOG_TABLE_SIZE;
      x := ZERO;
      for j := 0 to mostWords
        invariant x == XorWords(words, j)
      {
        x := Xor(x, ghistWords[j]);
      }
      x := Xor(x, Low(ghistWords[mostWords], lastWord));
      x := Xor(x, pc);
    }

    /** last_branch_result. */
    method LastBranchResult(taken: bool)
      requires Valid()
      modifies this, tables, ghistWords
      ensures Valid() && history == [taken] + old(history) && yout == old(yout)
      ensures var correct, a := taken == (old(yout) >= 1), Magnitude(old(yout));
              && Threshold(theta, tc) == Adjust(Threshold(old(theta), old(tc)), correct, a)
              && Used() == if !correct || a < old(theta)
                           then PerceptronModel.Trained(old(Used()), taken) else old(Used())
      ensures forall i, x :: 0 <= i < NTABLES && 0 <= x < TABLE_SIZE && x != indices[i] ==>
                tables[i][x] == old(tables[i][x])
      ensures var was := SPEED * old(theta) + old(tc);
              && SPEED * theta + tc == (if taken != (old(yout) >= 1) then was + 1
                                        else if Magnitude(old(yout)) < old(theta) then was - 1 else was)
              && (theta != old(theta) ==> tc == 0)
    {
      AdjustMovesByOne(Threshold(theta, tc), taken == (yout >= 1), Magnitude(yout));
      PushIsOneBranch(ghistWords[..], history, taken);
      AdjustKeeps(Threshold(theta, tc), taken == (yout >= 1), yout);
      hide Exact;
      var correct := taken == (yout >= 1);
      ShiftHistory(taken);
      history := [taken] + history;
      var a := if yout < 0 then -yout else yout;
      if !correct || a < theta {
        UpdateWeights(taken);
        if !correct {
          tc := tc + 1;
          if tc >= SPEED { theta, tc := theta + 1, 0; }
        } else if a < theta {
          tc := tc - 1;
          if tc <= -SPEED { theta, tc := theta - 1, 0; }
        }
      }
    }

    /** The carry of each word is the lowest bit of the next. */
    method ShiftHistory(taken: bool)
      requires ghistWords.Length == NGHIST_WORDS
      modifies ghistWords
      ensures ghistWords[..] == Pushed(old(ghistWords[..]), taken)
    {
      hide Shift, Bit, Carry, ShiftedUpTo, Pushed;
      ghost var words := ghistWords[..];
      NothingShifted(words, taken);
      var b := taken;
      for i := 0 to NGHIST_WORDS
        invariant b == Carry(words, taken, i) && ghistWords[..] == ShiftedUpTo(words, taken, i)
      {
        ShiftedOneMore(words, taken, i);
        assert ghistWords[i] == ghistWords[..][i];
        var carry := Bit(ghistWords[i], LOG_TABLE_SIZE - 1);
        ghistWords[i] := Shift(ghistWords[i], b);
        b := carry;
      }
    }

    /** Each used weight moves one step towards the outcome, saturating. */
    method UpdateWeights(taken: bool)
      requires Shaped() && forall i, x :: 0 <= i < NTABLES && 0 <= x < TABLE_SIZE ==> Saturating(tables[i][x])
      modifies tables
      ensures Shaped() && forall i, x :: 0 <= i < NTABLES && 0 <= x < TABLE_SIZE ==> Saturating(tables[i][x])
      ensures Used() == PerceptronModel.Trained(old(Used()), taken)
      ensures forall i, x :: 0 <= i < NTABLES && 0 <= x < TABLE_SIZE && x != indices[i] ==>
                tables[i][x] == old(tables[i][x])
    {
      ghost var was := tables[..];
      for i := 0 to NTABLES
        invariant Shaped() && forall j, x :: 0 <= j < NTABLES && 0 <= x < TABLE_SIZE ==> Saturating(tables[j][x])
        invariant forall j :: 0 <= j < NTABLES ==>
                    tables[j] == if j < i then was[j][indices[j] := Train(was[j][indices[j]], taken)] else was[j]
      {
        var c := tables[i][indices[i]];
        if taken {
          if c < WEIGHT_MAX { c := c + 1; }
        } else {
          if c > WEIGHT_MIN { c := c - 1; }
        }
        tables[i] := tables[i][indices[i] := c];
      }
    }
  }

  /** The bit that is shifted into word i. */
  ghost function Carry(words: seq<Word>, b: bool, i: nat): bool
    requires i <= |words|
  {
    if i == 0 then b else Bit(words[i - 1], LOG_TABLE_SIZE - 1)
  }

  ghost function ShiftedUpTo(words: seq<Word>, b: bool, n: nat): (r: seq<Word>)
    ensures |r| == |words|
  {
    seq(|words|, i requires 0 <= i < |words| => if i < n then Pushed(words, b)[i] else words[i])
  }

  lemma NothingShifted(words: seq<Word>, b: bool)
    ensures Carry(words, b, 0) == b && ShiftedUpTo(words, b, 0) == words
    ensures ShiftedUpTo(words, b, |words|) == Pushed(words, b)
  {
  }

  lemma ShiftedOneMore(words: seq<Word>, b: bool, i: nat)
    requires i < |words|
    ensures ShiftedUpTo(words, b, i)[i] == words[i] && Carry(words, b, i + 1) == Bit(words[i], LOG_TABLE_SIZE - 1)
    ensures ShiftedUpTo(words, b, i + 1) == ShiftedUpTo(words, b, i)[i := Shift(words[i], Carry(words, b, i))]
  {
    hide Shift, Bit;
    assert Pushed(words, b)[i] == Shift(words[i], Carry(words, b, i));
  }

  lemma OneMoreTable(tables: seq<seq<int>>, indices: seq<nat>, table: seq<int>, x: nat)
    requires |tables| == |indices| && (forall i :: 0 <= i < |tables| ==> indices[i] < |tables[i]|) && x < |table|
    ensures Sum(Selected(tables + [table], indices + [x])) == Sum(Selected(tables, indices)) + table[x]
  {
    assert Selected(tables + [table], indices + [x])[..|tables|] == Selected(tables, indices);
  }
}
