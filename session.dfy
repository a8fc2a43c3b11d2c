/**
 * The session ledger of the user interface: the transcript, the alerts, the
 * recording flag and the conversation history kept across reruns, how the
 * application initialises them, how one transcribed audio chunk updates
 * them, and how the session is cleared. Transcription, the analyzer and the
 * reviewer are inputs; the clock reading is a parameter.
 */
module Session {
  import opened Wrappers
  import opened Values
  import opened Worker

  datatype TranscriptEntry = TranscriptEntry(time: string, text: string)

  datatype AlertEntry = AlertEntry(time: string, original: string, analysis: Dict)

  /**
   * The session keys the application uses; `None` is a key that is not set
   * yet (reading it raises `AttributeError`).
   */
  datatype Ledger = Ledger(
    transcript: Option<seq<TranscriptEntry>>,
    alerts: Option<seq<AlertEntry>>,
    isRecording: Option<bool>,
    history: Option<seq<string>>)

  /** All four keys are set. */
  predicate Initialized(l: Ledger)
  {
    l.transcript.Some? && l.alerts.Some? && l.isRecording.Some? && l.history.Some?
  }

  /** Sets each key that is absent to its initial value, leaving the others as they are. */
  function Init(l: Ledger): (r: Ledger)
    ensures Initialized(r)
    ensures l.transcript.Some? ==> r.transcript == l.transcript
    ensures l.alerts.Some? ==> r.alerts == l.alerts
    ensures l.isRecording.Some? ==> r.isRecording == l.isRecording
    ensures l.history.Some? ==> r.history == l.history
    ensures l.transcript.None? ==> r.transcript == Some([])
    ensures l.alerts.None? ==> r.alerts == Some([])
    ensures l.isRecording.None? ==> r.isRecording == Some(false)
    ensures l.history.None? ==> r.history == Some([])
  {
    Ledger(
      if l.transcript.None? then Some([]) else l.transcript,
      if l.alerts.None? then Some([]) else l.alerts,
      if l.isRecording.None? then Some(false) else l.isRecording,
      if l.history.None? then Some([]) else l.history)
  }

  /** Initialising again changes nothing, so a rerun keeps the session as it is. */
  lemma InitIdempotent(l: Ledger)
    ensures Init(Init(l)) == Init(l)
    ensures Initialized(l) ==> Init(l) == l
  {
  }

  /** Clearing empties the three lists and keeps the recording flag as it was. */
  function Clear(l: Ledger): (r: Ledger)
    ensures r.transcript == Some([]) && r.alerts == Some([]) && r.history == Some([])
    ensures r.isRecording == l.isRecording
  {
    Ledger(Some([]), Some([]), l.isRecording, Some([]))
  }

  /**
   * The ledger after one audio chunk. A transcription that raises or is
   * empty changes nothing. Otherwise the text is appended to the transcript
   * and the history; the analyzer sees the history without it; when the
   * analysis reports a risk, the reviewer's version of it is appended as an
   * alert with the same time and the original text. A key that is not set
   * raises at its first use, and the error is swallowed with whatever was
   * appended before it kept.
   */
  function OnChunk(
    l: Ledger,
    transcription: Result<string, string>,
    time: string,
    worker: (string, seq<string>) -> Dict,
    guardian: (Dict, string) -> Dict): (r: Ledger)
    ensures transcription.Err? || transcription.value == "" ==> r == l
    ensures r.isRecording == l.isRecording
  {
    match transcription
    case Err(_) => l
    case Ok(text) =>
      if text == "" || l.transcript.None? then l
      else
        var transcript := Some(l.transcript.value + [TranscriptEntry(time, text)]);
        if l.history.None? then l.(transcript := transcript)
        else
          var history := l.history.value + [text];
          var analysis := worker(text, history[..|history| - 1]);
          if RISK_DETECTED !in analysis || !Truthy(analysis[RISK_DETECTED]) || l.alerts.None? then
            l.(transcript := transcript, history := Some(history))
          else
            var reviewed := guardian(analysis, text);
            l.(transcript := transcript, history := Some(history),
               alerts := Some(l.alerts.value + [AlertEntry(time, text, reviewed)]))
  }

  /** Whether the analyzer reports a risk for `text` given the history before it. */
  predicate Risky(worker: (string, seq<string>) -> Dict, text: string, history: seq<string>)
  {
    var analysis := worker(text, history);
    RISK_DETECTED in analysis && Truthy(analysis[RISK_DETECTED])
  }

  /**
   * On an initialised ledger, a non-empty text appends exactly one transcript
   * entry and one history entry; the analyzer gets the history as it was
   * before; an alert is appended exactly when the analysis reports a risk,
   * holding the reviewed analysis, the same time and the original text; the
   * recording flag is untouched.
   */
  lemma OnChunkAppends(l: Ledger, text: string, time: string,
                       worker: (string, seq<string>) -> Dict, guardian: (Dict, string) -> Dict)
    requires Initialized(l) && text != ""
    ensures var r := OnChunk(l, Ok(text), time, worker, guardian);
      && Initialized(r)
      && r.transcript.value == l.transcript.value + [TranscriptEntry(time, text)]
      && r.history.value == l.history.value + [text]
      && r.isRecording == l.isRecording
      && (Risky(worker, text, l.history.value) ==>
            r.alerts.value == l.alerts.value + [AlertEntry(time, text, guardian(worker(text, l.history.value), text))])
      && (!Risky(worker, text, l.history.value) ==> r.alerts == l.alerts)
  {
    var history := l.history.value + [text];
    assert history[..|history| - 1] == l.history.value;
  }

  /** Without a risk the reviewer plays no part: any reviewer gives the same ledger. */
  lemma ReviewerOnlyOnRisk(l: Ledger, text: string, time: string,
                           worker: (string, seq<string>) -> Dict, g1: (Dict, string) -> Dict, g2: (Dict, string) -> Dict)
    requires Initialized(l)
    requires !Risky(worker, text, l.history.value)
    ensures OnChunk(l, Ok(text), time, worker, g1) == OnChunk(l, Ok(text), time, worker, g2)
  {
    var history := l.history.value + [text];
    assert history[..|history| - 1] == l.history.value;
  }

  /** One transcription result with the time it was stamped with. */
  datatype ChunkEvent = ChunkEvent(transcription: Result<string, string>, time: string)

  /** The ledger after a sequence of audio chunks, in order. */
  function Replay(l: Ledger, events: seq<ChunkEvent>,
                  worker: (string, seq<string>) -> Dict, guardian: (Dict, string) -> Dict): Ledger
  {
    if events == [] then l
    else
      var e := events[|events| - 1];
      OnChunk(Replay(l, events[..|events| - 1], worker, guardian), e.transcription, e.time, worker, guardian)
  }

  /** The texts that were non-empty, in order. */
  function Texts(events: seq<ChunkEvent>): seq<string>
  {
    if events == [] then []
    else
      var e := events[|events| - 1];
      Texts(events[..|events| - 1]) + (if e.transcription.Ok? && e.transcription.value != "" then [e.transcription.value] else [])
  }

  /** The text of each transcript entry. */
  function EntryTexts(entries: seq<TranscriptEntry>): (r: seq<string>)
    ensures |r| == |entries|
  {
    seq(|entries|, k requires 0 <= k < |entries| => entries[k].text)
  }

  /**
   * From a cleared (or fresh) session, the history is never trimmed: it is
   * exactly the non-empty texts since then, in order, the transcript holds
   * the same texts, and there are never more alerts than transcript entries.
   */
  lemma {:induction false} ReplayLedger(l: Ledger, events: seq<ChunkEvent>,
                                        worker: (string, seq<string>) -> Dict, guardian: (Dict, string) -> Dict)
    requires l.transcript == Some([]) && l.alerts == Some([]) && l.history == Some([]) && l.isRecording.Some?
    ensures var r := Replay(l, events, worker, guardian);
      && Initialized(r)
      && r.history.value == Texts(events)
      && EntryTexts(r.transcript.value) == Texts(events)
      && |r.alerts.value| <= |r.transcript.value|
      && r.isRecording == l.isRecording
  {
    if events != [] {
      var prefix := events[..|events| - 1];
      var e := events[|events| - 1];
      ReplayLedger(l, prefix, worker, guardian);
      var before := Replay(l, prefix, worker, guardian);
      if e.transcription.Ok? && e.transcription.value != "" {
        var text := e.transcription.value;
        OnChunkAppends(before, text, e.time, worker, guardian);
        var after := Replay(l, events, worker, guardian);
        assert EntryTexts(after.transcript.value) == EntryTexts(before.transcript.value) + [text];
      }
    }
  }

  /**
   * A new session, initialised, starts not recording and empty, so every
   * chunk sequence that follows keeps the history, the transcript and the
   * alerts as from a cleared session.
   */
  lemma ReplayFromFreshSession(events: seq<ChunkEvent>,
                               worker: (string, seq<string>) -> Dict, guardian: (Dict, string) -> Dict)
    ensures var l := Init(Ledger(None, None, None, None));
      var r := Replay(l, events, worker, guardian);
      && l.isRecording == Some(false)
      && Initialized(r)
      && r.history.value == Texts(events)
      && EntryTexts(r.transcript.value) == Texts(events)
      && |r.alerts.value| <= |r.transcript.value|
      && r.isRecording == Some(false)
  {
    ReplayLedger(Init(Ledger(None, None, None, None)), events, worker, guardian);
  }

  /** The session keys, as the interface framework keeps them across reruns. */
  class SessionState {
    var transcript: Option<seq<TranscriptEntry>>
    var alerts: Option<seq<AlertEntry>>
    var isRecording: Option<bool>
    var conversationHistory: Option<seq<string>>

    /** A new browser session: no key is set. */
    constructor ()
      ensures transcript == None && alerts == None && isRecording == None && conversationHistory == None
    {
      transcript, alerts, isRecording, conversationHistory := None, None, None, None;
    }

    function Snapshot(): Ledger
      reads this
    {
      Ledger(transcript, alerts, isRecording, conversationHistory)
    }
  }

  /** The application, over the session it was created with. */
  class AegisApp {
    const session: SessionState

    /** Creating the application (on every rerun) initialises only the keys that are absent. */
    constructor (session: SessionState)
      modifies session
      ensures this.session == session
      ensures session.Snapshot() == Init(old(session.Snapshot()))
    {
      this.session := session;
      if session.transcript.None? {
        session.transcript := Some([]);
      }
      if session.alerts.None? {
        session.alerts := Some([]);
      }
      if session.isRecording.None? {
        session.isRecording := Some(false);
      }
      if session.conversationHistory.None? {
        session.conversationHistory := Some([]);
      }
    }

    /** Handles one audio chunk, given what its transcription gave and the time it is stamped with. */
    method OnAudioChunk(transcription: Result<string, string>, time: string,
                        worker: (string, seq<string>) -> Dict, guardian: (Dict, string) -> Dict)
      modifies session
      ensures session.Snapshot() == OnChunk(old(session.Snapshot()), transcription, time, worker, guardian)
    {
      if transcription.Err? {
        return;
      }
      var text := transcription.value;
      if text == "" {
        return;
      }
      if session.transcript.None? {
        return;
      }
      session.transcript := Some(session.transcript.value + [TranscriptEntry(time, text)]);
      if session.conversationHistory.None? {
        return;
      }
      session.conversationHistory := Some(session.conversationHistory.value + [text]);
      var history := session.conversationHistory.value;
      var analysis := worker(text, history[..|history| - 1]);
      if RISK_DETECTED !in analysis || !Truthy(analysis[RISK_DETECTED]) {
        return;
      }
      analysis := guardian(analysis, text);
      if session.alerts.None? {
        return;
      }
      session.alerts := Some(session.alerts.value + [AlertEntry(time, text, analysis)]);
    }

    /** Empties the transcript, the alerts and the history; the recording flag stays as it is. */
    method ClearSession()
      modifies session
      ensures session.Snapshot() == Clear(old(session.Snapshot()))
    {
      session.transcript := Some([]);
      session.alerts := Some([]);
      session.conversationHistory := Some([]);
    }
  }
}
