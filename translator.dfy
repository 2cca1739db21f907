/**
 * `translate_example` and `evaluate_translator_accuracy` of
 * `languageModels/textTranslator__TrainerTester.py`: greedy decoding of a
 * Spanish sentence token by token, and word-by-word accuracy over a test set.
 * The neural model is an oracle.
 */
module Translator {
  import opened Wrappers
  import opened Seqs
  import opened Text
  import opened Words

  const Start: string := "[start]"
  const End: string := "[end]"
  /** `range(20)`: the decoder predicts at most this many tokens. */
  const MaxSteps: nat := 20

  /**
   * The trained model with the vectorizers and the vocabulary: given the
   * English sentence, the decoder input `' '.join(decoded_tokens)` and the
   * position `len(decoded_tokens) - 1`, the token with the highest score.
   */
  type Model = (string, string, nat) -> string

  function Predict(model: Model, sentence: string, tokens: seq<string>): string
    requires tokens != []
  {
    model(sentence, Join(" ", tokens), |tokens| - 1)
  }

  /** Greedy decoding from `tokens` with at most `steps` predictions left; stops right after `[end]`. */
  function Decode(model: Model, sentence: string, tokens: seq<string>, steps: nat): seq<string>
    requires tokens != []
    decreases steps
  {
    if steps == 0 then tokens
    else
      var next := Predict(model, sentence, tokens);
      if next == End then tokens + [next] else Decode(model, sentence, tokens + [next], steps - 1)
  }

  function Decoded(model: Model, sentence: string): seq<string>
  {
    Decode(model, sentence, [Start], MaxSteps)
  }

  /** What `translate_example` returns: the decoded tokens joined by single spaces. */
  function Translation(model: Model, sentence: string): string
  {
    Join(" ", Decoded(model, sentence))
  }

  /** Decoding only extends what was decoded, by at most `steps` tokens. */
  lemma {:induction false} DecodeExtends(model: Model, sentence: string, tokens: seq<string>, steps: nat)
    requires tokens != []
    ensures var r := Decode(model, sentence, tokens, steps);
      && |tokens| <= |r| <= |tokens| + steps
      && r[..|tokens|] == tokens
    decreases steps
  {
    if steps > 0 {
      var next := Predict(model, sentence, tokens);
      if next != End {
        DecodeExtends(model, sentence, tokens + [next], steps - 1);
        var r := Decode(model, sentence, tokens + [next], steps - 1);
        assert r[..|tokens|] == r[..|tokens| + 1][..|tokens|];
      }
    }
  }

  /** Each appended token is the model's prediction for the tokens before it. */
  lemma {:induction false} DecodePredicts(model: Model, sentence: string, tokens: seq<string>, steps: nat)
    requires tokens != []
    ensures var r := Decode(model, sentence, tokens, steps);
      forall k :: |tokens| <= k < |r| ==> r[k] == Predict(model, sentence, r[..k])
    decreases steps
  {
    if steps > 0 {
      var next := Predict(model, sentence, tokens);
      var longer := tokens + [next];
      assert longer[..|tokens|] == tokens;
      if next != End {
        DecodePredicts(model, sentence, longer, steps - 1);
        DecodeExtends(model, sentence, longer, steps - 1);
        var r := Decode(model, sentence, longer, steps - 1);
        forall k | |tokens| <= k < |r| ensures r[k] == Predict(model, sentence, r[..k]) {
          if k == |tokens| {
            assert r[..k] == r[..|longer|][..k];
          }
        }
      }
    }
  }

  /**
   * The loop stops right after `[end]`: no predicted token but the last is
   * `[end]`, and a run that stopped before using every step ended with `[end]`.
   */
  lemma {:induction false} DecodeStopsAtEnd(model: Model, sentence: string, tokens: seq<string>, steps: nat)
    requires tokens != []
    ensures var r := Decode(model, sentence, tokens, steps);
      && (forall k :: |tokens| <= k < |r| - 1 ==> r[k] != End)
      && (0 < |r| < |tokens| + steps ==> r[|r| - 1] == End)
    decreases steps
  {
    if steps > 0 {
      var next := Predict(model, sentence, tokens);
      if next != End {
        var longer := tokens + [next];
        DecodeStopsAtEnd(model, sentence, longer, steps - 1);
        DecodeExtends(model, sentence, longer, steps - 1);
        var r := Decode(model, sentence, longer, steps - 1);
        assert r[|tokens|] == r[..|longer|][|tokens|];
      }
    }
  }

  /**
   * `translate_example` yields between 1 and 21 tokens, the first of them
   * `[start]`; among the predicted ones `[end]` can only be the last, and a
   * translation shorter than 21 tokens ends with it.
   */
  lemma DecodedShape(model: Model, sentence: string)
    ensures var r := Decoded(model, sentence);
      && 1 <= |r| <= MaxSteps + 1
      && r[0] == Start
      && (forall k :: 1 <= k < |r| - 1 ==> r[k] != End)
      && (|r| < MaxSteps + 1 ==> r[|r| - 1] == End)
      && (forall k :: 1 <= k < |r| ==> r[k] == Predict(model, sentence, r[..k]))
  {
    DecodeExtends(model, sentence, [Start], MaxSteps);
    DecodeStopsAtEnd(model, sentence, [Start], MaxSteps);
    DecodePredicts(model, sentence, [Start], MaxSteps);
    var r := Decoded(model, sentence);
    assert r[0] == r[..1][0];
  }

  /** `translate_example`: the bounded loop with its early `break`. */
  method TranslateExample(model: Model, sentence: string) returns (output: string)
    ensures output == Translation(model, sentence)
  {
    var decoded := [Start];
    var i := 0;
    while i < MaxSteps
      invariant 0 <= i <= MaxSteps && decoded != []
      invariant Decode(model, sentence, decoded, MaxSteps - i) == Decoded(model, sentence)
    {
      var next := model(sentence, Join(" ", decoded), |decoded| - 1);
      decoded := decoded + [next];
      if next == End {
        break;
      }
      i := i + 1;
    }
    output := Join(" ", decoded);
  }

  // ---------------------------------------------------------------- accuracy

  predicate IsMarker(t: string)
  {
    t == Start || t == End
  }

  predicate NotMarker(t: string)
  {
    !IsMarker(t)
  }

  /** `[t for t in s.split() if t not in ('[start]', '[end]')]` */
  function ContentTokens(s: string): seq<string>
  {
    Filter(NotMarker, Split(s))
  }

  /** Content tokens are the sentence's words, in order, without the two markers. */
  lemma ContentTokensOf(s: string)
    ensures var c := ContentTokens(s);
      && IsSubsequence(c, Split(s))
      && (forall t :: t in c <==> t in Split(s) && !IsMarker(t))
      && (forall t :: Count(c, t) == (if IsMarker(t) then 0 else Count(Split(s), t)))
  {
    FilterIsSubsequence(NotMarker, Split(s));
    forall t ensures t in ContentTokens(s) <==> t in Split(s) && !IsMarker(t) {
      FilterMembership(NotMarker, Split(s), t);
    }
    forall t ensures Count(ContentTokens(s), t) == (if IsMarker(t) then 0 else Count(Split(s), t)) {
      FilterCount(NotMarker, Split(s), t);
    }
  }

  /** Positions below `n` where the two token lists agree. */
  function Matches(a: seq<string>, b: seq<string>, n: nat): (m: nat)
    requires n <= |a| && n <= |b|
    ensures m <= n
  {
    if n == 0 then 0
    else Matches(a, b, n - 1) + (if a[n - 1] == b[n - 1] then 1 else 0)
  }

  /** Pairs the `zip` visits: the shorter list's length. */
  function Zipped(a: seq<string>, b: seq<string>): nat
  {
    if |a| <= |b| then |a| else |b|
  }

  /** The output and target content tokens of one test pair `(english, spanish)`. */
  function OutputTokens(model: Model, pair: (string, string)): seq<string>
  {
    ContentTokens(Translation(model, pair.0))
  }

  function TargetTokens(pair: (string, string)): seq<string>
  {
    ContentTokens(pair.1)
  }

  function PairTotal(model: Model, pair: (string, string)): nat
  {
    Zipped(OutputTokens(model, pair), TargetTokens(pair))
  }

  function PairCorrect(model: Model, pair: (string, string)): nat
  {
    var out, target := OutputTokens(model, pair), TargetTokens(pair);
    Matches(out, target, Zipped(out, target))
  }

  /** `total_words` after the given pairs. */
  function TotalWords(model: Model, pairs: seq<(string, string)>): nat
  {
    if pairs == [] then 0
    else TotalWords(model, pairs[..|pairs| - 1]) + PairTotal(model, pairs[|pairs| - 1])
  }

  /** `correct_words` after the given pairs. */
  function CorrectWords(model: Model, pairs: seq<(string, string)>): nat
  {
    if pairs == [] then 0
    else CorrectWords(model, pairs[..|pairs| - 1]) + PairCorrect(model, pairs[|pairs| - 1])
  }

  /** Never more correct words than compared ones. */
  lemma {:induction false} CorrectAtMostTotal(model: Model, pairs: seq<(string, string)>)
    ensures CorrectWords(model, pairs) <= TotalWords(model, pairs)
  {
    if pairs != [] {
      CorrectAtMostTotal(model, pairs[..|pairs| - 1]);
    }
  }

  /** The accuracy as the pair of integers `correct_words / total_words` divides. */
  datatype Accuracy = Accuracy(correct: nat, total: nat)

  function Ratio(a: Accuracy): (r: real)
    requires 0 < a.total && a.correct <= a.total
    ensures 0.0 <= r <= 1.0
  {
    a.correct as real / a.total as real
  }

  /** The outcome of `evaluate_translator_accuracy`: the division fails when no word was compared. */
  function AccuracyOf(model: Model, pairs: seq<(string, string)>): Result<Accuracy, string>
  {
    var total := TotalWords(model, pairs);
    if total == 0 then Failure("division by zero")
    else Success(Accuracy(CorrectWords(model, pairs), total))
  }

  /**
   * The evaluation fails exactly when no word was compared; otherwise the
   * accuracy is a ratio in [0, 1].
   */
  lemma AccuracyInRange(model: Model, pairs: seq<(string, string)>)
    ensures var r := AccuracyOf(model, pairs);
      && (r.Failure? <==> TotalWords(model, pairs) == 0)
      && (r.Success? ==> 0 < r.value.total && r.value.correct <= r.value.total && 0.0 <= Ratio(r.value) <= 1.0)
  {
    CorrectAtMostTotal(model, pairs);
  }

  /** The inner loop over `zip(output_tokens, target_tokens)`: agreeing positions and compared positions. */
  method CompareTokens(out: seq<string>, target: seq<string>) returns (correct: nat, total: nat)
    ensures total == Zipped(out, target)
    ensures correct == Matches(out, target, total)
  {
    correct, total := 0, 0;
    while total < |out| && total < |target|
      invariant total <= Zipped(out, target)
      invariant correct == Matches(out, target, total)
    {
      if out[total] == target[total] {
        correct := correct + 1;
      }
      total := total + 1;
    }
  }

  /** `evaluate_translator_accuracy` over the (already sampled) test pairs. */
  method EvaluateAccuracy(model: Model, pairs: seq<(string, string)>) returns (r: Result<Accuracy, string>)
    ensures r == AccuracyOf(model, pairs)
  {
    var total, correct := 0, 0;
    var i := 0;
    while i < |pairs|
      invariant 0 <= i <= |pairs|
      invariant total == TotalWords(model, pairs[..i])
      invariant correct == CorrectWords(model, pairs[..i])
    {
      var output := TranslateExample(model, pairs[i].0);
      var pairCorrect, pairTotal := CompareTokens(ContentTokens(output), ContentTokens(pairs[i].1));
      correct, total := correct + pairCorrect, total + pairTotal;
      assert pairs[..i + 1][..i] == pairs[..i];
      i := i + 1;
    }
    assert pairs[..i] == pairs;
    if total == 0 {
      return Failure("division by zero");
    }
    return Success(Accuracy(correct, total));
  }
}
