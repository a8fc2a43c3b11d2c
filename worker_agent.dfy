/**
 * The worker analyzer: builds the prompt's history part from the recent
 * conversation, turns the inference backend's reply into a verdict that
 * always has its three fields, and keeps a bounded conversation history.
 */
module Worker {
  import opened Wrappers
  import opened Values
  import opened Text

  /** How many earlier utterances go into the prompt. */
  const PROMPT_HISTORY: nat := 3

  /** How many utterances the agent's own history keeps. */
  const HISTORY_CAPACITY: nat := 10

  /** The three fields every verdict carries. */
  const RISK_DETECTED := "risk_detected"
  const EXPLANATION := "explanation"
  const SUGGESTION := "suggestion"

  /** How the inference call ended, as the agent sees it. */
  datatype ModelReply =
    | Parsed(fields: Dict)        // the reply text decoded to a JSON object
    | DecodeError                 // decoding raised a JSON decode error
    | CallError(message: string)  // any other exception inside the analysis, with its message

  /**
   * What the model is asked about: the formatted retrieved rules, the recent
   * conversation and the utterance under evaluation, in that order. The
   * wording around them is not modelled.
   */
  datatype Prompt = Prompt(rules: string, history: string, utterance: string)

  function Min(a: nat, b: nat): nat
  {
    if a <= b then a else b
  }

  /** `s[-n:]` for `n >= 1`: the last `n` elements, or all of `s` when it is shorter. */
  function Tail<T>(s: seq<T>, n: nat): (r: seq<T>)
    requires n >= 1
    ensures |r| == Min(n, |s|)
    ensures r == s[|s| - |r|..]
  {
    if |s| <= n then s else s[|s| - n..]
  }

  /** Taking a tail of a tail and then extending is the tail of the extension. */
  lemma TailOfExtendedTail<T>(s: seq<T>, t: seq<T>, n: nat)
    requires n >= 1
    ensures Tail(Tail(s, n) + t, n) == Tail(s + t, n)
  {
    var a := Tail(s, n);
    assert a + t == (s + t)[|s| - |a|..];
  }

  /**
   * The history text of the prompt: the last three context entries, one per
   * line, or nothing when there is no context.
   */
  function ContextText(context: Option<seq<string>>): (r: string)
    ensures context == None || context == Some([]) ==> r == ""
    ensures context.Some? && |context.value| == 1 ==> r == context.value[0]
  {
    match context
    case None => ""
    case Some(c) => if |c| > 0 then Join(Tail(c, PROMPT_HISTORY), "\n") else ""
  }

  /**
   * Splitting the history text at line breaks gives back exactly the last
   * min(3, n) entries, in order, when no entry holds a line break itself.
   */
  lemma ContextTextRoundTrip(c: seq<string>)
    requires |c| > 0
    requires forall i :: 0 <= i < |c| ==> '\n' !in c[i]
    ensures Split(ContextText(Some(c)), '\n') == Tail(c, PROMPT_HISTORY)
    ensures |Tail(c, PROMPT_HISTORY)| == Min(3, |c|)
  {
    var t := Tail(c, PROMPT_HISTORY);
    assert forall i :: 0 <= i < |t| ==> t[i] == c[|c| - |t| + i];
    SplitJoin(t, '\n');
  }

  /** Entries older than the last three never reach the prompt. */
  lemma ContextTextIgnoresOlderEntries(older: seq<string>, recent: seq<string>)
    requires |recent| >= PROMPT_HISTORY
    ensures ContextText(Some(older + recent)) == ContextText(Some(recent))
  {
    var c := older + recent;
    assert c[|c| - PROMPT_HISTORY..] == recent[|recent| - PROMPT_HISTORY..];
  }

  /** A verdict has all three fields bound (the types of their values are the model's). */
  predicate HasVerdictFields(v: Dict)
  {
    RISK_DETECTED in v && EXPLANATION in v && SUGGESTION in v
  }

  /** The verdict used when the reply could not be decoded. */
  const DECODE_FAILURE_VERDICT: Dict :=
    map[RISK_DETECTED := Bool(false), EXPLANATION := Str("Analysis error"), SUGGESTION := Str("")]

  /** The verdict used when anything else went wrong, naming the error. */
  function FailureVerdict(message: string): (v: Dict)
    ensures HasVerdictFields(v) && v[RISK_DETECTED] == Bool(false)
    ensures v.Keys == {RISK_DETECTED, EXPLANATION, SUGGESTION}
    ensures v[SUGGESTION] == Str("") && v[EXPLANATION].Str?
    ensures |v[EXPLANATION].s| >= 16 && v[EXPLANATION].s[..16] == "Analysis error: " && v[EXPLANATION].s[16..] == message
  {
    map[RISK_DETECTED := Bool(false), EXPLANATION := Str("Analysis error: " + message), SUGGESTION := Str("")]
  }

  /** Binds `key` to `default` unless the dictionary already has it. */
  function WithDefault(d: Dict, key: string, default: Value): (r: Dict)
    ensures r.Keys == d.Keys + {key}
    ensures forall k :: k in d ==> r[k] == d[k]
    ensures key !in d ==> r[key] == default
  {
    if key in d then d else d[key := default]
  }

  /**
   * The verdict for a reply. Fail-soft: every reply, however it ended, gives
   * a dictionary holding the three fields, and none of the errors escapes.
   * A decoded object keeps every key it had, extra keys included, with its
   * value; only the missing fields are filled in, with false, "" and "".
   */
  function Verdict(reply: ModelReply): (v: Dict)
    ensures HasVerdictFields(v)
    ensures reply.Parsed? ==> v.Keys == reply.fields.Keys + {RISK_DETECTED, EXPLANATION, SUGGESTION}
    ensures reply.Parsed? ==> forall k :: k in reply.fields ==> v[k] == reply.fields[k]
    ensures reply.Parsed? && RISK_DETECTED !in reply.fields ==> v[RISK_DETECTED] == Bool(false)
    ensures reply.Parsed? && EXPLANATION !in reply.fields ==> v[EXPLANATION] == Str("")
    ensures reply.Parsed? && SUGGESTION !in reply.fields ==> v[SUGGESTION] == Str("")
    ensures reply.DecodeError? ==> v == DECODE_FAILURE_VERDICT
    ensures reply.CallError? ==> v == FailureVerdict(reply.message)
  {
    match reply
    case Parsed(result) =>
      var withRisk := WithDefault(result, RISK_DETECTED, Bool(false));
      var withExplanation := WithDefault(withRisk, EXPLANATION, Str(""));
      WithDefault(withExplanation, SUGGESTION, Str(""))
    case DecodeError => DECODE_FAILURE_VERDICT
    case CallError(message) => FailureVerdict(message)
  }

  /** A reply that cannot be decoded is never read as a risk. */
  lemma FailuresAreNotRisks(reply: ModelReply)
    requires !reply.Parsed?
    ensures !Truthy(Verdict(reply)[RISK_DETECTED])
  {
  }

  /**
   * One analysis: retrieve the rules for the utterance, ask the model with the
   * prompt built from them, the context text and the utterance, and read its
   * reply. A retrieval that raises ends like any other error of the analysis,
   * with that error's message.
   */
  function AnalyzeUtterance(
    utterance: string,
    context: Option<seq<string>>,
    retrieval: Result<string, string>,
    generate: Prompt -> ModelReply): (v: Dict)
    ensures HasVerdictFields(v)
    ensures retrieval.Err? ==> v == FailureVerdict(retrieval.error)
    ensures retrieval.Ok? ==> v == Verdict(generate(Prompt(retrieval.value, ContextText(context), utterance)))
  {
    match retrieval
    case Err(message) => FailureVerdict(message)
    case Ok(rules) => Verdict(generate(Prompt(rules, ContextText(context), utterance)))
  }

  /** The agent's own conversation memory: a first-in, first-out window of ten utterances. */
  class WorkerAgent {
    var conversationHistory: seq<string>

    constructor ()
      ensures conversationHistory == []
    {
      conversationHistory := [];
    }

    method UpdateConversationHistory(utterance: string)
      modifies this
      ensures conversationHistory == Tail(old(conversationHistory) + [utterance], HISTORY_CAPACITY)
      ensures |conversationHistory| <= HISTORY_CAPACITY
      ensures conversationHistory[|conversationHistory| - 1] == utterance
    {
      conversationHistory := conversationHistory + [utterance];
      if |conversationHistory| > HISTORY_CAPACITY {
        conversationHistory := conversationHistory[|conversationHistory| - HISTORY_CAPACITY..];
      }
    }
  }

  /** The history after updating with each of `utterances` in turn. */
  function AfterUpdates(history: seq<string>, utterances: seq<string>): seq<string>
    decreases |utterances|
  {
    if utterances == [] then history
    else AfterUpdates(Tail(history + [utterances[0]], HISTORY_CAPACITY), utterances[1..])
  }

  /**
   * However many updates happen, the history is the last ten utterances of
   * everything it has seen, oldest first: nothing is reordered, and only the
   * oldest entries are dropped.
   */
  lemma {:induction false} AfterUpdatesIsWindow(history: seq<string>, utterances: seq<string>)
    requires |history| <= HISTORY_CAPACITY
    ensures AfterUpdates(history, utterances) == Tail(history + utterances, HISTORY_CAPACITY)
    decreases |utterances|
  {
    if utterances == [] {
      assert history + utterances == history;
    } else {
      var next := Tail(history + [utterances[0]], HISTORY_CAPACITY);
      AfterUpdatesIsWindow(next, utterances[1..]);
      TailOfExtendedTail(history + [utterances[0]], utterances[1..], HISTORY_CAPACITY);
      assert history + [utterances[0]] + utterances[1..] == history + utterances;
    }
  }
}
