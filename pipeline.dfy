/**
 * `process_video` (vid_edit.py:24-53) and `divide_transcription_into_topics`
 * (vid_edit.py:98-115): stop when the transcript is empty, ask the language
 * model to divide the translated transcript into topics, stop when no topic
 * parses, load both catalogs (an empty one only logs a warning), cut and
 * dress one segment per topic and assemble the final video.
 *
 * The audio extraction, the transcription and the translation are not part
 * of this model: the transcript and its translation are parameters, and so
 * are the two catalog files as read from disk.
 */
module Pipeline {
  import opened Wrappers
  import opened Text
  import opened Topics
  import opened Catalogs
  import opened Suggestions
  import opened Dispatch
  import opened Segments
  import opened Assembly
  import Llm
  import LlmAsWritten

  // The first word is its own literal, as for the suggestion prompts, so that proofs can read
  // the prompt's first character.
  const DivideHead := "You " + "are given a transcription of a video. Please divide the transcription into distinct topics or segments. "
    + "For each topic, provide the approximate start and end times in seconds. Format the response as follows:\n\n"
    + "- Topic 1: Start Time - End Time\n"
    + "- Topic 2: Start Time - End Time\n"
    + "\nFor example:\n"
    + "- Introduction: 0.0 - 30.5\n"
    + "- Main Discussion: 30.5 - 120.0\n"
    + "- Conclusion: 120.0 - 150.0\n\n"
    + "Transcript follows:\n\n"

  /** The prompt of `divide_transcription_into_topics` (vid_edit.py:99-109). */
  function DividePrompt(transcript: string): string {
    DivideHead + transcript
  }

  /** Different transcripts give different prompts, so the cache never answers one transcript with another's topics. */
  lemma DividePromptInjective(a: string, b: string)
    requires a != b
    ensures DividePrompt(a) != DividePrompt(b)
  {
    assert DividePrompt(a)[|DivideHead|..] == a && DividePrompt(b)[|DivideHead|..] == b;
  }

  /** The topics prompt is never a suggestion prompt, so the cache never answers it with a suggestion. */
  lemma DividePromptIsNoSuggestion(transcript: string, topic1: string, topic2: string, names: seq<string>)
    ensures DividePrompt(transcript) != EffectPrompt(topic1, names)
    ensures DividePrompt(transcript) != TransitionPrompt(topic1, topic2, names)
  {
    var e, t := EffectPrompt(topic1, names), TransitionPrompt(topic1, topic2, names);
    assert e == EffectHead + (topic1 + "\n" + (EffectAsk + JoinWith(", ", names) + EffectTail));
    assert t == TransitionHead + (topic1 + "\n" + (TransitionSecond + topic2 + "\n" + TransitionAsk + JoinWith(", ", names) + TransitionTail));
    assert DividePrompt(transcript)[0] == 'Y' && e[0] == 'G' && t[0] == 'G';
  }

  /**
   * `divide_transcription_into_topics(transcript)` with the list-based
   * client: one request, whose reply (`None` when the request failed) is
   * the result.
   */
  method DivideTranscription(client: Llm.LlmClient, transcript: string) returns (topicsText: Option<string>)
    requires client.Valid()
    modifies client
    ensures client.Valid()
    ensures (client.State(), topicsText) == Llm.AskStep(old(client.State()), client.complete, DividePrompt(transcript))
  {
    topicsText := client.Ask(DividePrompt(transcript));
  }

  /**
   * `divide_transcription_into_topics(transcript)` on the code as written:
   * the exception the call raises is caught and the result is `""`.
   */
  function DivideAsWritten(cache: map<string, string>, transcript: string): (text: string)
    ensures DividePrompt(transcript) !in cache ==> text == ""
  {
    match LlmAsWritten.AskAsWritten(cache, DividePrompt(transcript)).1
    case Returned(reply) => reply
    case Raised(_) => ""
  }

  /**
   * With the code as written, every run that has a transcript stops at
   * "No valid topics found": the topics request raises, the empty text it
   * is replaced with yields no topic, and nothing is cut or assembled.
   */
  lemma AsWrittenFindsNoTopics(transcript: string)
    ensures TopicsOf(Split(DivideAsWritten(map[], transcript))) == []
  {
    LlmAsWritten.EveryCallRaises([DividePrompt(transcript)]);
    assert Split("") == [""];
    SilentLine("");
  }

  /** How a run of `process_video` ends. */
  datatype Run =
    | NoTranscript
    | NoTopics
    | Aborted(error: Error)
    | Finished(segments: seq<string>, final: string, clip: Clip)

  /** Every segment file once, in order. */
  function PlayedOnce(segments: seq<string>): (clip: Clip)
    ensures |clip| == |segments|
  {
    seq(|segments|, k requires 0 <= k < |segments| => Read(segments[k]))
  }

  /** Every effect entry has the description `apply_effect` reads. */
  predicate Described(effects: Catalog) {
    forall name :: name in effects.entries ==> effects.entries[name].description.Some?
  }

  /** Every transition entry has both keys `apply_transition` reads. */
  predicate AllComplete(transitions: Catalog) {
    forall name :: name in transitions.entries ==> Complete(transitions.entries[name])
  }

  /** Catalogs with which a run that found topics finishes: some effect, and every entry with the keys read from it. */
  predicate Ready(effects: Catalog, transitions: Catalog) {
    !IsEmpty(effects) && Described(effects) && AllComplete(transitions)
  }

  /** What the end of `process_video_segments` tells about the run, for a non-empty topic list. */
  lemma SegmentsOutcome(complete: Llm.Collaborator, topics: seq<Topic>, dir: string, effects: Catalog, implemented: set<string>,
                        states: seq<Llm.ClientState>, replies: seq<Option<string>>, chosen: seq<string>, files: seq<Footage>,
                        r: Result<seq<string>, Error>)
    requires Processed(complete, topics, dir, effects, implemented, states, replies, chosen, files, r) && topics != []
    ensures IsEmpty(effects) ==> r == Err(IndexError)
    ensures !IsEmpty(effects) && Described(effects) ==> r.Ok?
    ensures r.Err? ==> r.error == IndexError || r.error.KeyError?
    ensures r.Ok? ==> r.value == SegmentPaths(dir, |topics|)
  {
    if !IsEmpty(effects) && r.Err? {
      var name := chosen[|files|];
      assert Usable(name, effects, implemented) && effects.entries[name].description.None?;
    }
  }

  /** What the end of `create_final_video` tells about the run, for a non-empty segment list. */
  lemma AssemblyOutcome(complete: Llm.Collaborator, segments: seq<string>, transitions: Catalog, implemented: set<string>, reached: nat,
                        states: seq<Llm.ClientState>, replies: seq<Option<string>>, chosen: seq<string>, outcome: Result<Clip, Error>)
    requires Stopped(complete, segments, transitions, implemented, reached, states, replies, chosen, outcome) && segments != []
    ensures outcome.Err? ==> outcome.error.KeyError?
    ensures AllComplete(transitions) ==> outcome.Ok?
  {
    if outcome.Err? {
      FailureIsKeyError(segments, reached, chosen, transitions, implemented);
      FailureIsIncompleteEntry(segments, reached, chosen, transitions, implemented);
    }
  }

  /**
   * Everything `process_video` does once topics were found: one segment per
   * topic, then the final video.  An empty effect catalog stops the run with
   * `IndexError`; an empty transition catalog does not stop it, and the final
   * video then plays every segment once, in order.  With entries that have
   * every key the run finishes.
   */
  method Produce(client: Llm.LlmClient, topics: seq<Topic>, transitions: Catalog, effects: Catalog, dir: string,
                 implementedEffects: set<string>, implementedTransitions: set<string>) returns (run: Run)
    requires client.Valid() && WellFormed(transitions) && WellFormed(effects) && topics != []
    modifies client
    ensures client.Valid()
    ensures run.Aborted? || run.Finished?
    ensures run.Aborted? ==> run.error == IndexError || run.error.KeyError?
    ensures IsEmpty(effects) ==> run == Aborted(IndexError)
    ensures Ready(effects, transitions) ==> run.Finished?
    ensures run.Finished? ==> run.segments == SegmentPaths(dir, |topics|) && run.final == FinalPath(dir)
    ensures run.Finished? && IsEmpty(transitions) ==>
      run.clip == PlayedOnce(run.segments)
  {
    var r, files, chosen, replies, states := ProcessVideoSegments(client, topics, dir, effects, implementedEffects);
    SegmentsOutcome(client.complete, topics, dir, effects, implementedEffects, states, replies, chosen, files, r);
    if r.Err? {
      return Aborted(r.error);
    }
    var segments := r.value;
    var f, reached, tchosen, treplies, tstates := CreateFinalVideo(client, segments, transitions, dir, implementedTransitions);
    AssemblyOutcome(client.complete, segments, transitions, implementedTransitions, reached, tstates, treplies, tchosen,
                    if f.Ok? then Ok(f.value.1) else Err(f.error));
    if f.Err? {
      return Aborted(f.error);
    }
    if IsEmpty(transitions) {
      WithoutTransitions(segments, |segments|, tchosen, transitions, implementedTransitions);
    }
    run := Finished(segments, f.value.0, f.value.1);
  }

  /** Topics were found: the run went past both early returns. */
  ghost predicate Started(transcript: string, reply: Option<string>, topics: seq<Topic>) {
    transcript != [] && reply.Some? && topics != []
  }

  /**
   * `process_video()`, from the transcript on.  No transcript: nothing is
   * asked.  Otherwise one topics request; a failed one (`None`) makes
   * `parse_topics` raise `AttributeError`, and a reply without topics stops
   * the run with nothing more asked.  Past that, the run is `Produce` on the
   * loaded catalogs.
   */
  method ProcessVideo(client: Llm.LlmClient, transcript: string, translated: string,
                      transitionsFile: Option<Document>, effectsFile: Option<Document>, dir: string,
                      implementedEffects: set<string>, implementedTransitions: set<string>)
    returns (run: Run, ghost reply: Option<string>, ghost topics: seq<Topic>)
    requires client.Valid()
    modifies client
    ensures client.Valid()
    ensures run == NoTranscript <==> transcript == []
    ensures transcript == [] ==> client.State() == old(client.State())
    ensures transcript != [] ==> reply == Llm.AskStep(old(client.State()), client.complete, DividePrompt(translated)).1
    ensures reply.Some? ==> topics == TopicsOf(Split(reply.value))
    ensures transcript != [] ==> (run == Aborted(AttributeError) <==> reply.None?)
    ensures run == NoTopics <==> transcript != [] && reply.Some? && topics == []
    ensures run == NoTopics || run == Aborted(AttributeError) ==>
      client.State() == Llm.AskStep(old(client.State()), client.complete, DividePrompt(translated)).0
    ensures Started(transcript, reply, topics) && IsEmpty(LoadEffects(effectsFile)) ==> run == Aborted(IndexError)
    ensures Started(transcript, reply, topics) && Ready(LoadEffects(effectsFile), LoadTransitions(transitionsFile)) ==> run.Finished?
    ensures run.Finished? ==> Started(transcript, reply, topics) && run.segments == SegmentPaths(dir, |topics|) && run.final == FinalPath(dir)
    ensures run.Finished? && IsEmpty(LoadTransitions(transitionsFile)) ==>
      run.clip == PlayedOnce(run.segments)
  {
    reply, topics := None, [];
    if transcript == [] {
      return NoTranscript, reply, topics;
    }
    var topicsText := DivideTranscription(client, translated);
    reply := topicsText;
    if topicsText.None? {
      return Aborted(AttributeError), reply, topics;
    }
    var parsedTopics := ParseTopics(topicsText.value);
    topics := parsedTopics;
    if parsedTopics == [] {
      return NoTopics, reply, topics;
    }
    var transitions := LoadTransitions(transitionsFile);
    var effects := LoadEffects(effectsFile);
    run := Produce(client, parsedTopics, transitions, effects, dir, implementedEffects, implementedTransitions);
  }
}
