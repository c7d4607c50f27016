/** The bookkeeping of the question ranker (model_based_ranking.py): the
    hinge loss of a dialogue, the text of a dialogue history, the feature
    vector of a candidate question, the first-wins choice of the best
    question, and the training-set and refit schedule.

    Embeddings, cosine similarities and the regressor's expected-improvement
    score are numerical code outside the model; they enter as function
    parameters (`embedNl`, `sim`, `score`) and as given vectors. */
module ModelBasedRanking {
  import opened Wrappers
  import opened Sequences
  import opened Strings
  import opened Arith

  type Vec = seq<real>

  /** One hinge term `delta - pos + neg`, clamped below at zero
      (`losses[losses < 0] = 0.0`). */
  function Hinge(delta: real, pos: real, neg: real): (r: real)
    ensures r >= 0.0 && r >= delta - pos + neg
    ensures r == 0.0 <==> pos >= delta + neg
    ensures r > 0.0 ==> r == delta - pos + neg
  {
    if delta - pos + neg < 0.0 then 0.0 else delta - pos + neg
  }

  function Sum(s: seq<real>): real
  {
    if s == [] then 0.0 else Sum(s[..|s| - 1]) + s[|s| - 1]
  }

  /** The hinge terms of a positive similarity against each negative one. */
  function Hinges(delta: real, pos: real, negs: seq<real>): seq<real>
  {
    seq(|negs|, i requires 0 <= i < |negs| => Hinge(delta, pos, negs[i]))
  }

  /** `np.mean` of the clamped hinge terms; with no negatives at all the
      normalisation of the empty matrix fails, which is `None` here. */
  function MeanHinge(delta: real, pos: real, negs: seq<real>): (r: Option<real>)
    ensures r.None? <==> negs == []
    ensures r.Some? ==> r.value >= 0.0
  {
    if negs == [] then None
    else
      SumNonNegative(Hinges(delta, pos, negs));
      Some(Sum(Hinges(delta, pos, negs)) / (|negs| as real))
  }

  /** A sum of non-negative terms is non-negative, and zero exactly when
      every term is. */
  lemma {:induction false} SumNonNegative(s: seq<real>)
    requires forall i :: 0 <= i < |s| ==> s[i] >= 0.0
    ensures Sum(s) >= 0.0
    ensures Sum(s) == 0.0 <==> forall i :: 0 <= i < |s| ==> s[i] == 0.0
  {
    if s != [] {
      var init := s[..|s| - 1];
      SumNonNegative(init);
      if Sum(s) == 0.0 {
        forall i | 0 <= i < |s|
          ensures s[i] == 0.0
        {
          if i < |s| - 1 {
            assert s[i] == init[i];
          }
        }
      }
    }
  }

  /** `compute_loss` is never negative, and is zero exactly when the
      positive similarity beats every negative one by the margin. */
  lemma MeanHingeProperties(delta: real, pos: real, negs: seq<real>)
    ensures MeanHinge(delta, pos, negs).None? <==> negs == []
    ensures MeanHinge(delta, pos, negs).Some? ==> MeanHinge(delta, pos, negs).value >= 0.0
    ensures MeanHinge(delta, pos, negs) == Some(0.0) <==>
      negs != [] && forall i :: 0 <= i < |negs| ==> pos >= delta + negs[i]
  {
    var h := Hinges(delta, pos, negs);
    assert forall i :: 0 <= i < |h| ==> h[i] == Hinge(delta, pos, negs[i]);
    SumNonNegative(h);
    if negs != [] {
      var n := |negs| as real;
      assert Sum(h) / n == 0.0 <==> Sum(h) == 0.0;
      assert Sum(h) / n >= 0.0;
    }
  }

  /** `compute_loss(code_vec, nl_vec, neg_code_vecs)`, with the cosine
      similarity `sim` of two vectors as a parameter. */
  function ComputeLoss(delta: real, sim: (Vec, Vec) -> real, codeVec: Vec, nlVec: Vec, negVecs: seq<Vec>): (r: Option<real>)
    ensures r.None? <==> negVecs == []
    ensures r.Some? ==> r.value >= 0.0
    ensures r == Some(0.0) <==>
      negVecs != [] && forall i :: 0 <= i < |negVecs| ==> sim(codeVec, nlVec) >= delta + sim(negVecs[i], nlVec)
  {
    var negs := seq(|negVecs|, i requires 0 <= i < |negVecs| => sim(negVecs[i], nlVec));
    assert forall i :: 0 <= i < |negVecs| ==> negs[i] == sim(negVecs[i], nlVec);
    MeanHingeProperties(delta, sim(codeVec, nlVec), negs);
    MeanHinge(delta, sim(codeVec, nlVec), negs)
  }

  /** `history_to_str`: each pair as "q:a", separated by single spaces. */
  function HistoryToStr(qaHistory: seq<(string, string)>): (r: string)
    ensures r == "" <==> qaHistory == []
  {
    assert qaHistory != [] ==> PairTexts(qaHistory)[0] == PairText(qaHistory[0]);
    Join(" ", PairTexts(qaHistory))
  }

  /** An empty history is the empty text; a longer history adds one space
      and the new pair's text. */
  lemma HistoryToStrAppend(qaHistory: seq<(string, string)>, qa: (string, string))
    ensures HistoryToStr([]) == ""
    ensures HistoryToStr([qa]) == qa.0 + ":" + qa.1
    ensures qaHistory != [] ==>
      HistoryToStr(qaHistory + [qa]) == HistoryToStr(qaHistory) + " " + qa.0 + ":" + qa.1
  {
    if qaHistory != [] {
      assert PairTexts(qaHistory + [qa]) == PairTexts(qaHistory) + [PairText(qa)];
      JoinAppend(" ", PairTexts(qaHistory), PairText(qa));
    }
  }

  /** `context_vec`: code, then history, then the negatives row by row. */
  function ContextVec(codeVec: Vec, histVec: Vec, negVecs: seq<Vec>): Vec
  {
    codeVec + histVec + Flatten(negVecs)
  }

  /** A candidate's features are the context followed by the question's
      vector; each part can be read back at its offset, and with rows of a
      common width `d` the length is fixed by the part sizes. */
  lemma FeatureLayout(codeVec: Vec, histVec: Vec, negVecs: seq<Vec>, qVec: Vec, d: nat)
    requires forall i :: 0 <= i < |negVecs| ==> |negVecs[i]| == d
    ensures var x := ContextVec(codeVec, histVec, negVecs) + qVec;
      && |x| == |codeVec| + |histVec| + |negVecs| * d + |qVec|
      && x[..|codeVec|] == codeVec
      && x[|codeVec|..|codeVec| + |histVec|] == histVec
      && x[|codeVec| + |histVec|..|codeVec| + |histVec| + |negVecs| * d] == Flatten(negVecs)
      && x[|codeVec| + |histVec| + |negVecs| * d..] == qVec
  {
    FlattenUniformLength(negVecs, d);
    var x := ContextVec(codeVec, histVec, negVecs) + qVec;
    assert x == codeVec + histVec + Flatten(negVecs) + qVec;
  }

  /** `i` is the first index of a maximum among the first `n` scores. */
  predicate FirstMaxOf(s: seq<real>, n: nat, i: nat)
    requires n <= |s|
  {
    && i < n
    && (forall k :: 0 <= k < i ==> s[k] < s[i])
    && (forall k :: i < k < n ==> s[k] <= s[i])
  }

  /** At most one index is the first maximum. */
  lemma FirstMaxUnique(s: seq<real>, n: nat, i: nat, j: nat)
    requires n <= |s| && FirstMaxOf(s, n, i) && FirstMaxOf(s, n, j)
    ensures i == j
  {
    var si, sj := s[i], s[j];
  }

  /** The feature vector of each candidate question. */
  function Candidates(context: Vec, questions: seq<string>, embedNl: string -> Vec): seq<Vec>
  {
    seq(|questions|, k requires 0 <= k < |questions| => context + embedNl(questions[k]))
  }

  /** The regressor's score of each candidate. */
  function Scores(xs: seq<Vec>, score: (Vec, real) -> real, currLoss: real): seq<real>
  {
    seq(|xs|, k requires 0 <= k < |xs| => score(xs[k], currLoss))
  }

  /** What `predict` keeps for the following `update` (`self.curr`). */
  datatype Prediction = Prediction(codeVec: Vec, negVecs: seq<Vec>, x: Option<Vec>)

  /** How `predict` and `update` fail: an empty dialogue, whose text has no
      tokens to embed, no negative examples to normalise, a regressor asked to
      score before its first fit, or `update` without a cached prediction. */
  datatype RankError = EmptyHistory | NoNegatives | NotFitted | MissingPrediction

  /** Python's `step_ct % train_every == 0` guarded by `train_every > 0`. */
  predicate Refits(trainEvery: int, stepCt: nat)
  {
    trainEvery > 0 && stepCt % trainEvery == 0
  }

  /** The training-set sizes at which the model is refitted during the
      first `n` updates. */
  function FitSchedule(trainEvery: int, n: nat): seq<nat>
  {
    if n == 0 then []
    else FitSchedule(trainEvery, n - 1) + (if Refits(trainEvery, n) then [n] else [])
  }

  lemma DivStep(n: nat, d: nat)
    requires d > 0 && n > 0
    ensures n / d == (n - 1) / d + (if n % d == 0 then 1 else 0)
  {
    var q, r := (n - 1) / d, (n - 1) % d;
    assert n - 1 == q * d + r && 0 <= r < d;
    if r == d - 1 {
      assert n == (q + 1) * d;
      DivModUnique(n, d, q + 1, 0);
    } else {
      assert n == q * d + (r + 1);
      DivModUnique(n, d, q, r + 1);
    }
  }

  /** Over `n` updates the model is refitted `n / train_every` times when
      `train_every` is positive, and never otherwise. */
  lemma {:induction false} FitScheduleCount(trainEvery: int, n: nat)
    ensures |FitSchedule(trainEvery, n)| == if trainEvery > 0 then n / trainEvery else 0
    ensures forall k :: 0 <= k < |FitSchedule(trainEvery, n)| ==>
      0 < FitSchedule(trainEvery, n)[k] <= n && Refits(trainEvery, FitSchedule(trainEvery, n)[k])
  {
    if n > 0 {
      FitScheduleCount(trainEvery, n - 1);
      if trainEvery > 0 {
        DivStep(n, trainEvery);
      }
    }
  }

  class QuestionRanker {
    const delta: real
    const trainEvery: int
    const negativeK: int
    /** `self.curr`: empty until the first `predict`. */
    var curr: Option<Prediction>
    /** `self.X` and `self.y`: one feature vector (possibly absent) and one
        observed loss per update. */
    var xs: seq<Option<Vec>>
    var ys: seq<real>
    var stepCt: nat
    /** The training-set size at each refit of the loss model, oldest first. */
    var fits: seq<nat>

    /** The training set has one entry per step, the refits follow the
        schedule, and a cached prediction always has negatives (`predict`
        without them fails before caching). */
    predicate Valid()
      reads this
    {
      && |xs| == stepCt && |ys| == stepCt
      && fits == FitSchedule(trainEvery, stepCt)
      && (curr.Some? ==> curr.value.negVecs != [])
    }

    /** `__init__`: no prediction, an empty training set, step zero. */
    constructor(delta: real, trainEvery: int, negativeK: int)
      ensures Valid()
      ensures this.delta == delta && this.trainEvery == trainEvery && this.negativeK == negativeK
      ensures curr == None && xs == [] && ys == [] && stepCt == 0 && fits == []
    {
      this.delta := delta;
      this.trainEvery := trainEvery;
      this.negativeK := negativeK;
      curr := None;
      xs := [];
      ys := [];
      stepCt := 0;
      fits := [];
    }

    /** `predict`: scores every candidate question against the current
        dialogue and returns the first best one with its score, caching its
        features for `update`. An empty dialogue joins to the empty text,
        which the embedder cannot embed, and nothing changes; without
        negatives the loss cannot be computed and nothing changes; a regressor that was never fitted cannot score
        the first candidate, and nothing changes either. */
    method Predict(codeVec: Vec, qaHistory: seq<(string, string)>, negVecs: seq<Vec>, questions: seq<string>,
                   embedNl: string -> Vec, sim: (Vec, Vec) -> real, score: (Vec, real) -> real)
      returns (r: Result<(Option<nat>, Option<real>), RankError>)
      requires Valid()
      modifies this
      ensures Valid()
      ensures xs == old(xs) && ys == old(ys) && stepCt == old(stepCt) && fits == old(fits)
      ensures qaHistory == [] ==> r == Failure(EmptyHistory) && curr == old(curr)
      ensures qaHistory != [] && negVecs == [] ==> r == Failure(NoNegatives) && curr == old(curr)
      ensures qaHistory != [] && negVecs != [] && questions != [] && fits == [] ==>
        r == Failure(NotFitted) && curr == old(curr)
      ensures qaHistory != [] && negVecs != [] && (questions == [] || fits != []) ==>
        var histVec := embedNl(HistoryToStr(qaHistory));
        var candidates := Candidates(ContextVec(codeVec, histVec, negVecs), questions, embedNl);
        var scores := Scores(candidates, score, ComputeLoss(delta, sim, codeVec, histVec, negVecs).value);
        && r.Success?
        && (questions == [] ==> r.value == (None, None) && curr == Some(Prediction(codeVec, negVecs, None)))
        && (questions != [] ==>
              && r.value.0.Some? && FirstMaxOf(scores, |scores|, r.value.0.value)
              && r.value.1 == Some(scores[r.value.0.value])
              && curr == Some(Prediction(codeVec, negVecs, Some(candidates[r.value.0.value]))))
    {
      var histStr := HistoryToStr(qaHistory);
      if histStr == "" {
        return Failure(EmptyHistory);
      }
      var histVec := embedNl(histStr);
      var currLoss := ComputeLoss(delta, sim, codeVec, histVec, negVecs);
      if currLoss.None? {
        return Failure(NoNegatives);
      }
      if questions != [] && fits == [] {
        return Failure(NotFitted);
      }
      var context := ContextVec(codeVec, histVec, negVecs);
      ghost var candidates := Candidates(context, questions, embedNl);
      ghost var scores := Scores(candidates, score, currLoss.value);
      var bestScore: Option<real> := None;
      var bestI: Option<nat> := None;
      var bestX: Option<Vec> := None;
      for i := 0 to |questions|
        invariant bestI.None? <==> i == 0
        invariant bestI.None? ==> bestScore.None? && bestX.None?
        invariant bestI.Some? ==>
          && FirstMaxOf(scores, i, bestI.value)
          && bestScore == Some(scores[bestI.value])
          && bestX == Some(candidates[bestI.value])
      {
        var x := context + embedNl(questions[i]);
        var y := score(x, currLoss.value);
        if bestScore.None? || y > bestScore.value {
          bestScore := Some(y);
          bestX := Some(x);
          bestI := Some(i);
        }
      }
      curr := Some(Prediction(codeVec, negVecs, bestX));
      r := Success((bestI, bestScore));
    }

    /** `update`: records the cached features and the loss the dialogue now
        has, advances the step count, and refits the model when the step
        count is a multiple of a positive `train_every`. An empty dialogue
        cannot be embedded, and without an earlier `predict` there is nothing
        to record: either way it fails before changing anything. */
    method Update(qaHistory: seq<(string, string)>, embedNl: string -> Vec, sim: (Vec, Vec) -> real)
      returns (err: Option<RankError>)
      requires Valid()
      modifies this
      ensures Valid()
      ensures curr == old(curr)
      ensures qaHistory == [] ==>
        err == Some(EmptyHistory) && xs == old(xs) && ys == old(ys) && stepCt == old(stepCt) && fits == old(fits)
      ensures qaHistory != [] && old(curr) == None ==>
        err == Some(MissingPrediction) && xs == old(xs) && ys == old(ys) && stepCt == old(stepCt) && fits == old(fits)
      ensures qaHistory != [] && old(curr).Some? ==>
        var p := old(curr).value;
        && err == None
        && xs == old(xs) + [p.x]
        && ComputeLoss(delta, sim, p.codeVec, embedNl(HistoryToStr(qaHistory)), p.negVecs).Some?
        && ys == old(ys) + [ComputeLoss(delta, sim, p.codeVec, embedNl(HistoryToStr(qaHistory)), p.negVecs).value]
        && stepCt == old(stepCt) + 1
        && fits == old(fits) + (if Refits(trainEvery, stepCt) then [|xs|] else [])
    {
      var histStr := HistoryToStr(qaHistory);
      if histStr == "" {
        return Some(EmptyHistory);
      }
      if curr.None? {
        return Some(MissingPrediction);
      }
      var p := curr.value;
      var nlVec := embedNl(histStr);
      var realLoss := ComputeLoss(delta, sim, p.codeVec, nlVec, p.negVecs);
      xs := xs + [p.x];
      ys := ys + [realLoss.value];
      stepCt := stepCt + 1;
      if trainEvery > 0 && stepCt % trainEvery == 0 {
        fits := fits + [|xs|];
      }
      err := None;
    }
  }
}
