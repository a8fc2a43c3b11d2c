/**
 * The guardian reviewer: a second pass over every verdict that reports a
 * risk, merged back by a fixed quality threshold, and a static denylist
 * filter over compliance rules.
 */
module Guardian {
  import opened Wrappers
  import opened Values
  import opened Text
  import opened Worker

  /** A refined verdict is adopted from this quality score on. */
  const QUALITY_THRESHOLD: int := 7

  /** The quality score assumed when the reviewer's reply gives none. */
  const DEFAULT_QUALITY: int := 5

  /** The fields the review adds to a verdict. */
  const GUARDIAN_REVIEWED := "guardian_reviewed"
  const QUALITY_SCORE := "quality_score"
  const NEEDS_IMPROVEMENT := "needs_improvement"

  /** What the reviewer is shown: the utterance and the worker's explanation and suggestion. */
  datatype ReviewPrompt = ReviewPrompt(utterance: string, explanation: Value, suggestion: Value)

  /** The failure result: the verdict as it was, marked as not reviewed. */
  function Unreviewed(alert: Dict): (r: Dict)
    ensures r.Keys == alert.Keys + {GUARDIAN_REVIEWED}
    ensures r[GUARDIAN_REVIEWED] == Bool(false)
    ensures forall k :: k in alert && k != GUARDIAN_REVIEWED ==> r[k] == alert[k]
  {
    alert[GUARDIAN_REVIEWED := Bool(false)]
  }

  /**
   * Merging a decoded review into a copy of the verdict. From the threshold
   * on, the refined explanation and suggestion replace the originals (each
   * falls back to the original when the review omits it); below it the
   * originals stay and the verdict is flagged. A score that cannot be
   * compared with a number makes the comparison raise, which ends as a
   * failed review.
   */
  function Merge(alert: Dict, refined: Dict): Dict
    requires EXPLANATION in alert && SUGGESTION in alert
  {
    var quality := Get(refined, QUALITY_SCORE, Int(DEFAULT_QUALITY));
    match AtLeast(quality, QUALITY_THRESHOLD)
    case None => Unreviewed(alert)
    case Some(true) =>
      alert[EXPLANATION := Get(refined, EXPLANATION, alert[EXPLANATION])]
           [SUGGESTION := Get(refined, SUGGESTION, alert[SUGGESTION])]
           [GUARDIAN_REVIEWED := Bool(true)]
           [QUALITY_SCORE := quality]
    case Some(false) =>
      alert[GUARDIAN_REVIEWED := Bool(true)]
           [QUALITY_SCORE := quality]
           [NEEDS_IMPROVEMENT := Bool(true)]
  }

  /**
   * The review of one verdict. A verdict without a truthy risk is returned as
   * it is. Otherwise the result always says whether the review took place; it
   * never drops a key of the verdict, never changes its risk or any key the
   * review does not own, and a failed review changes nothing but the mark.
   */
  function ReviewAlert(alert: Dict, originalUtterance: string, generate: ReviewPrompt -> ModelReply): (r: Dict)
    ensures !Truthy(Get(alert, RISK_DETECTED, Bool(false))) ==> r == alert
    ensures Truthy(Get(alert, RISK_DETECTED, Bool(false))) ==> GUARDIAN_REVIEWED in r
    ensures alert.Keys <= r.Keys <= alert.Keys + {GUARDIAN_REVIEWED, QUALITY_SCORE, NEEDS_IMPROVEMENT}
    ensures forall k :: k in alert && k !in {EXPLANATION, SUGGESTION, GUARDIAN_REVIEWED, QUALITY_SCORE, NEEDS_IMPROVEMENT}
              ==> r[k] == alert[k]
    ensures r != alert && r[GUARDIAN_REVIEWED] == Bool(false) ==> r == Unreviewed(alert)
  {
    if !Truthy(Get(alert, RISK_DETECTED, Bool(false))) then alert
    else if EXPLANATION !in alert || SUGGESTION !in alert then Unreviewed(alert)
    else
      match generate(ReviewPrompt(originalUtterance, alert[EXPLANATION], alert[SUGGESTION]))
      case Parsed(refined) => Merge(alert, refined)
      case _ => Unreviewed(alert)
  }

  /** The reviewer's reply for a verdict that is reviewed. */
  function ReplyFor(alert: Dict, originalUtterance: string, generate: ReviewPrompt -> ModelReply): ModelReply
    requires EXPLANATION in alert && SUGGESTION in alert
  {
    generate(ReviewPrompt(originalUtterance, alert[EXPLANATION], alert[SUGGESTION]))
  }

  /** Without a risk the reviewer is never consulted: its answers cannot matter. */
  lemma BypassIgnoresReviewer(alert: Dict, u: string, g1: ReviewPrompt -> ModelReply, g2: ReviewPrompt -> ModelReply)
    requires !Truthy(Get(alert, RISK_DETECTED, Bool(false)))
    ensures ReviewAlert(alert, u, g1) == ReviewAlert(alert, u, g2) == alert
  {
  }

  /** A review that cannot be decoded, or a call that fails, degrades to "not reviewed". */
  lemma FailedReviewDegrades(alert: Dict, u: string, generate: ReviewPrompt -> ModelReply)
    requires Truthy(Get(alert, RISK_DETECTED, Bool(false)))
    requires EXPLANATION !in alert || SUGGESTION !in alert || !ReplyFor(alert, u, generate).Parsed?
    ensures ReviewAlert(alert, u, generate) == Unreviewed(alert)
  {
  }

  /** A quality score that is no number degrades to "not reviewed" as well. */
  lemma IncomparableScoreDegrades(alert: Dict, u: string, generate: ReviewPrompt -> ModelReply, refined: Dict)
    requires Truthy(Get(alert, RISK_DETECTED, Bool(false)))
    requires EXPLANATION in alert && SUGGESTION in alert
    requires ReplyFor(alert, u, generate) == Parsed(refined)
    requires AtLeast(Get(refined, QUALITY_SCORE, Int(DEFAULT_QUALITY)), QUALITY_THRESHOLD).None?
    ensures ReviewAlert(alert, u, generate) == Unreviewed(alert)
  {
  }

  /**
   * From the threshold on, the refined texts are adopted (each with the
   * original as fallback), the verdict is marked reviewed with its score, and
   * every other key, the risk and any existing flag included, is kept.
   */
  lemma GoodReviewAdopted(alert: Dict, u: string, generate: ReviewPrompt -> ModelReply, refined: Dict)
    requires Truthy(Get(alert, RISK_DETECTED, Bool(false)))
    requires EXPLANATION in alert && SUGGESTION in alert
    requires ReplyFor(alert, u, generate) == Parsed(refined)
    requires AtLeast(Get(refined, QUALITY_SCORE, Int(DEFAULT_QUALITY)), QUALITY_THRESHOLD) == Some(true)
    ensures var r := ReviewAlert(alert, u, generate);
      && r.Keys == alert.Keys + {GUARDIAN_REVIEWED, QUALITY_SCORE}
      && r[EXPLANATION] == Get(refined, EXPLANATION, alert[EXPLANATION])
      && r[SUGGESTION] == Get(refined, SUGGESTION, alert[SUGGESTION])
      && r[GUARDIAN_REVIEWED] == Bool(true)
      && r[QUALITY_SCORE] == refined[QUALITY_SCORE]
      && forall k :: k in alert && k !in {EXPLANATION, SUGGESTION, GUARDIAN_REVIEWED, QUALITY_SCORE} ==> r[k] == alert[k]
  {
  }

  /**
   * Below the threshold the worker's explanation and suggestion stay, and the
   * verdict is marked reviewed, scored and flagged as needing improvement.
   */
  lemma WeakReviewFlagged(alert: Dict, u: string, generate: ReviewPrompt -> ModelReply, refined: Dict)
    requires Truthy(Get(alert, RISK_DETECTED, Bool(false)))
    requires EXPLANATION in alert && SUGGESTION in alert
    requires ReplyFor(alert, u, generate) == Parsed(refined)
    requires AtLeast(Get(refined, QUALITY_SCORE, Int(DEFAULT_QUALITY)), QUALITY_THRESHOLD) == Some(false)
    ensures var r := ReviewAlert(alert, u, generate);
      && r.Keys == alert.Keys + {GUARDIAN_REVIEWED, QUALITY_SCORE, NEEDS_IMPROVEMENT}
      && r[EXPLANATION] == alert[EXPLANATION]
      && r[SUGGESTION] == alert[SUGGESTION]
      && r[GUARDIAN_REVIEWED] == Bool(true)
      && r[QUALITY_SCORE] == Get(refined, QUALITY_SCORE, Int(DEFAULT_QUALITY))
      && r[NEEDS_IMPROVEMENT] == Bool(true)
  {
  }

  /**
   * Which scores pass the threshold test, for any reply: a number from 7 up
   * is adopted, a number below 7 or a boolean is flagged, a missing score
   * counts as 5 and is flagged, and any other value cannot be compared.
   */
  lemma ThresholdBoundary(refined: Dict)
    ensures var q := Get(refined, QUALITY_SCORE, Int(DEFAULT_QUALITY));
      && (AtLeast(q, QUALITY_THRESHOLD) == Some(true) <==> (q.Int? && q.i >= 7) || (q.Real? && q.r >= 7.0))
      && (AtLeast(q, QUALITY_THRESHOLD) == Some(false) <==> (q.Int? && q.i < 7) || (q.Real? && q.r < 7.0) || q.Bool?)
      && (AtLeast(q, QUALITY_THRESHOLD).None? <==> !(q.Int? || q.Real? || q.Bool?))
    ensures QUALITY_SCORE !in refined ==> AtLeast(Get(refined, QUALITY_SCORE, Int(DEFAULT_QUALITY)), QUALITY_THRESHOLD) == Some(false)
  {
  }

  const UNSAFE_PATTERNS: seq<string> := ["discriminat", "personal information", "confidential"]

  /** A rule is safe when its lower-cased text contains none of the denylisted patterns. */
  ghost predicate RuleSafe(rule: string)
  {
    forall i, j :: 0 <= i < |UNSAFE_PATTERNS| ==> !OccursAt(UNSAFE_PATTERNS[i], Lower(rule), j)
  }

  /** The denylist check, one pattern at a time, stopping at the first hit. */
  method IsRuleSafe(rule: string) returns (safe: bool)
    ensures safe <==> RuleSafe(rule)
  {
    var ruleLower := Lower(rule);
    for p := 0 to |UNSAFE_PATTERNS|
      invariant forall i, j :: 0 <= i < p ==> !OccursAt(UNSAFE_PATTERNS[i], ruleLower, j)
    {
      IsInfixCorrect(UNSAFE_PATTERNS[p], ruleLower);
      if IsInfix(UNSAFE_PATTERNS[p], ruleLower) {
        return false;
      }
    }
    return true;
  }

  /** The safe rules of `rules`, in their original order. */
  ghost function SafeRules(rules: seq<string>): seq<string>
  {
    if rules == [] then []
    else SafeRules(rules[..|rules| - 1]) + (if RuleSafe(rules[|rules| - 1]) then [rules[|rules| - 1]] else [])
  }

  /** The rules filtered by the denylist, in their original order. */
  method ValidateComplianceRules(rules: seq<string>) returns (validated: seq<string>)
    ensures validated == SafeRules(rules)
  {
    validated := [];
    for n := 0 to |rules|
      invariant validated == SafeRules(rules[..n])
    {
      var safe := IsRuleSafe(rules[n]);
      if safe {
        validated := validated + [rules[n]];
      }
      assert rules[..n + 1][..n] == rules[..n];
    }
    assert rules[..|rules|] == rules;
  }

  /** `a` is obtained from `b` by deleting elements. */
  ghost predicate IsSubsequence(a: seq<string>, b: seq<string>)
    decreases |b|
  {
    if a == [] then true
    else if b == [] then false
    else if a[|a| - 1] == b[|b| - 1] then IsSubsequence(a[..|a| - 1], b[..|b| - 1])
    else IsSubsequence(a, b[..|b| - 1])
  }

  /**
   * Exactly the safe rules survive the filter: each kept rule is safe, each
   * safe rule is kept, and the kept rules are a subsequence of the input.
   */
  lemma {:induction false} SafeRulesCharacterized(rules: seq<string>)
    ensures forall x :: x in SafeRules(rules) <==> x in rules && RuleSafe(x)
    ensures IsSubsequence(SafeRules(rules), rules)
    decreases |rules|
  {
    if rules != [] {
      var prefix, last := rules[..|rules| - 1], rules[|rules| - 1];
      SafeRulesCharacterized(prefix);
      assert rules == prefix + [last];
      var a := SafeRules(rules);
      if RuleSafe(last) {
        assert a[..|a| - 1] == SafeRules(prefix);
      } else {
        assert a == SafeRules(prefix);
        if a != [] {
          assert RuleSafe(a[|a| - 1]);
        }
      }
    }
  }
}
