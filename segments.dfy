/**
 * `process_video_segments` (vid_edit.py:203-215): for each topic in order,
 * cut the input video to the topic's range, ask for an effect for
 * `Topic {i+1}`, apply it, and write the result to `segment_{i}.mp4` in the
 * output directory; the paths written are returned in order.  An exception
 * (an empty effect catalog, an effect entry without a description) ends
 * the loop and propagates, after the segments already written.
 */
module Segments {
  import opened Wrappers
  import opened Text
  import opened Catalogs
  import opened Topics
  import opened Suggestions
  import opened Dispatch
  import Llm

  /** `os.path.join(dir, name)` for a relative `name`, on POSIX. */
  function PathJoin(dir: string, name: string): (path: string)
    ensures |path| >= |name| && path[|path| - |name|..] == name
  {
    if dir == [] || dir[|dir| - 1] == '/' then dir + name else dir + "/" + name
  }

  /** Joining one directory to two names gives two paths that are equal only when the names are. */
  lemma PathJoinInjective(dir: string, a: string, b: string)
    requires a != b
    ensures PathJoin(dir, a) != PathJoin(dir, b)
  {
    var pa, pb := PathJoin(dir, a), PathJoin(dir, b);
    if |pa| == |pb| {
      assert |a| == |b|;
      assert pa[|pa| - |a|..] == a && pb[|pb| - |b|..] == b;
    }
  }

  /** The file name of segment `i`. */
  function SegmentName(i: nat): string {
    "segment_" + NatToString(i) + ".mp4"
  }

  function SegmentPath(dir: string, i: nat): string {
    PathJoin(dir, SegmentName(i))
  }

  const FinalName := "final_video_with_transitions.mp4"

  /** The file the final video is written to (vid_edit.py:227). */
  function FinalPath(dir: string): string {
    PathJoin(dir, FinalName)
  }

  /** The paths of the first `n` segments, in the order they are written. */
  function SegmentPaths(dir: string, n: nat): (paths: seq<string>)
    ensures |paths| == n
  {
    if n == 0 then [] else SegmentPaths(dir, n - 1) + [SegmentPath(dir, n - 1)]
  }

  /** The `i`-th path returned is segment `i`'s. */
  lemma {:induction false} SegmentPathAt(dir: string, n: nat, i: nat)
    requires i < n
    ensures SegmentPaths(dir, n)[i] == SegmentPath(dir, i)
    decreases n
  {
    if i < n - 1 {
      SegmentPathAt(dir, n - 1, i);
    }
  }

  /** Different segments are written to different files, so no segment overwrites another. */
  lemma SegmentPathInjective(dir: string, i: nat, j: nat)
    requires i != j
    ensures SegmentPath(dir, i) != SegmentPath(dir, j)
  {
    var di, dj := NatToString(i), NatToString(j);
    assert DigitsValue(di) != DigitsValue(dj);
    var si, sj := SegmentName(i), SegmentName(j);
    assert si[8..|si| - 4] == di && sj[8..|sj| - 4] == dj;
    PathJoinInjective(dir, si, sj);
  }

  /** The final video never overwrites a segment file. */
  lemma FinalPathDistinct(dir: string, i: nat)
    ensures FinalPath(dir) != SegmentPath(dir, i)
  {
    assert FinalName[0] == 'f' && SegmentName(i)[0] == 's';
    PathJoinInjective(dir, FinalName, SegmentName(i));
  }

  /** The cut of the input video for one topic, `video.subclip(start, end)`. */
  function CutOf(t: Topic): Footage {
    Cut(t.start, t.end)
  }

  /** The effect prompts of the first `n` segments, in the order they are asked. */
  function EffectPrompts(names: seq<string>, n: nat): (prompts: seq<string>)
    ensures |prompts| == n
  {
    if n == 0 then [] else EffectPrompts(names, n - 1) + [SegmentPrompt(names, n - 1)]
  }

  /** The effect prompt asked for segment `i`, about `Topic {i+1}`. */
  function SegmentPrompt(names: seq<string>, i: nat): string {
    EffectPrompt(TopicLabel(i + 1), names)
  }

  /** Segment `i` asks the effect prompt for `Topic {i+1}`. */
  lemma {:induction false} EffectPromptAt(names: seq<string>, n: nat, i: nat)
    requires i < n
    ensures EffectPrompts(names, n)[i] == SegmentPrompt(names, i)
    decreases n
  {
    if i < n - 1 {
      EffectPromptAt(names, n - 1, i);
    }
  }

  /** Every segment asks its own prompt, so every effect request of a run misses the cache on its own account. */
  lemma EffectPromptsAllDistinct(names: seq<string>, n: nat)
    ensures forall i, j :: 0 <= i < j < n ==> EffectPrompts(names, n)[i] != EffectPrompts(names, n)[j]
  {
    var prompts := EffectPrompts(names, n);
    forall i, j | 0 <= i < j < n
      ensures prompts[i] != prompts[j]
    {
      EffectPromptAt(names, n, i);
      EffectPromptAt(names, n, j);
      EffectPromptsDistinct(i, j, names);
    }
  }

  /**
   * The first `n` segments of a run: call `k` asked the effect prompt of
   * segment `k` in `states[k]` and got `replies[k]`; the effect used,
   * `chosen[k]`, is an entry of the catalog and the reply whenever the
   * reply named one; `files[k]` is the cut for topic `k` with that effect
   * applied as `apply_effect` applies it, written to `paths[k]`.
   */
  ghost predicate Written(complete: Llm.Collaborator, topics: seq<Topic>, dir: string, effects: Catalog, implemented: set<string>, n: nat,
                          states: seq<Llm.ClientState>, replies: seq<Option<string>>, chosen: seq<string>, files: seq<Footage>, paths: seq<string>)
  {
    && |replies| == n && |files| == n && paths == SegmentPaths(dir, n)
    && Dressed(complete, topics, effects, implemented, states, replies, chosen, files)
  }

  /**
   * The record of a run so far: one conversation step per effect prompt
   * asked, an effect chosen per reply, and a file per chosen effect, made
   * from that segment's cut.
   */
  ghost predicate Dressed(complete: Llm.Collaborator, topics: seq<Topic>, effects: Catalog, implemented: set<string>,
                          states: seq<Llm.ClientState>, replies: seq<Option<string>>, chosen: seq<string>, files: seq<Footage>)
  {
    && |files| <= |chosen| <= |replies| <= |topics|
    && Llm.Conversation(states, replies, complete, EffectPrompts(effects.names, |replies|))
    && (forall i :: 0 <= i < |chosen| ==> Chosen(replies[i], chosen[i], effects))
    && (forall i :: 0 <= i < |files| ==> ApplyEffect(CutOf(topics[i]), chosen[i], effects, implemented) == Ok(files[i]))
  }

  /** `name` is a possible outcome of the suggestion whose reply was `reply`. */
  ghost predicate Chosen(reply: Option<string>, name: string, c: Catalog) {
    name in c.entries && (Accepted(reply, c).Some? ==> name == Accepted(reply, c).value)
  }

  /** One more choice that follows its reply keeps every choice following its reply. */
  lemma ExtendChosen(replies: seq<Option<string>>, chosen: seq<string>, c: Catalog, reply: Option<string>, name: string)
    requires |chosen| == |replies| && forall k :: 0 <= k < |chosen| ==> Chosen(replies[k], chosen[k], c)
    requires Chosen(reply, name, c)
    ensures forall k :: 0 <= k < |chosen| + 1 ==> Chosen((replies + [reply])[k], (chosen + [name])[k], c)
  {
  }

  /** One more segment written extends a run. */
  lemma WrittenStep(complete: Llm.Collaborator, topics: seq<Topic>, dir: string, effects: Catalog, implemented: set<string>, n: nat,
                    states: seq<Llm.ClientState>, replies: seq<Option<string>>, chosen: seq<string>, files: seq<Footage>, paths: seq<string>,
                    next: Llm.ClientState, reply: Option<string>, name: string, file: Footage)
    requires Written(complete, topics, dir, effects, implemented, n, states, replies, chosen, files, paths)
    requires n < |topics|
    requires (next, reply) == Llm.AskStep(states[n], complete, EffectPrompt(TopicLabel(n + 1), effects.names))
    requires Chosen(reply, name, effects)
    requires ApplyEffect(CutOf(topics[n]), name, effects, implemented) == Ok(file)
    ensures Written(complete, topics, dir, effects, implemented, n + 1,
                    states + [next], replies + [reply], chosen + [name], files + [file], paths + [SegmentPath(dir, n)])
  {
    Llm.ConversationSnoc(states, replies, complete, EffectPrompts(effects.names, n), SegmentPrompt(effects.names, n), next, reply);
    ExtendChosen(replies, chosen, effects, reply, name);
    ExtendFiles(topics, chosen, files, effects, implemented, name, file);
  }


  /**
   * `process_video_segments(video, topics, dir, effects)`.  `files[i]` is
   * what was written to `SegmentPath(dir, i)`: the cut for topic `i` with
   * the effect `chosen[i]` applied as `apply_effect` applies it, where
   * `chosen[i]` is an entry of the catalog and the model's reply whenever
   * that reply named one; `replies[i]` is the client's answer to the
   * effect prompt of segment `i`, one prompt per segment reached.  The run
   * fails with `IndexError` on the first topic when the catalog is empty
   * and with `KeyError` at the first usable effect without a description;
   * otherwise it returns every segment path.
   */
  method ProcessVideoSegments(client: Llm.LlmClient, topics: seq<Topic>, dir: string, effects: Catalog, implemented: set<string>)
    returns (r: Result<seq<string>, Error>, files: seq<Footage>, ghost chosen: seq<string>, ghost replies: seq<Option<string>>,
             ghost states: seq<Llm.ClientState>)
    requires client.Valid() && WellFormed(effects)
    modifies client
    ensures client.Valid()
    ensures Processed(client.complete, topics, dir, effects, implemented, states, replies, chosen, files, r)
    ensures states[0] == old(client.State()) && client.State() == states[|replies|]
  {
    ghost var s0 := client.State();
    states := [s0];
    var paths: seq<string> := [];
    files, chosen, replies := [], [], [];
    WrittenNothing(client.complete, topics, dir, effects, implemented, s0);
    var i := 0;
    while i < |topics|
      invariant i <= |topics| && |states| == i + 1 && |replies| == i
      invariant client.Valid() && states[0] == s0 && client.State() == states[i]
      invariant Written(client.complete, topics, dir, effects, implemented, i, states, replies, chosen, files, paths)
      invariant i > 0 ==> !IsEmpty(effects)
    {
      var segment;
      segment, states, replies, chosen := DressSegment(client, topics, dir, effects, implemented, i, files, paths, states, replies, chosen);
      if segment.Err? {
        return Err(segment.error), files, chosen, replies, states;
      }
      files, paths := files + [segment.value], paths + [SegmentPath(dir, i)];
      i := i + 1;
    }
    AllWritten(client.complete, topics, dir, effects, implemented, states, replies, chosen, files, paths);
    r := Ok(paths);
  }

  /**
   * One pass of the loop of `process_video_segments`: ask for the effect of
   * segment `i`, apply it to the segment's cut; either the run goes on with
   * one more file, or it ends here with the error raised.
   */
  method DressSegment(client: Llm.LlmClient, topics: seq<Topic>, dir: string, effects: Catalog, implemented: set<string>, i: nat,
                      files: seq<Footage>, paths: seq<string>,
                      ghost states: seq<Llm.ClientState>, ghost replies: seq<Option<string>>, ghost chosen: seq<string>)
    returns (r: Result<Footage, Error>, ghost states': seq<Llm.ClientState>, ghost replies': seq<Option<string>>, ghost chosen': seq<string>)
    requires client.Valid() && WellFormed(effects) && i < |topics| && (i > 0 ==> !IsEmpty(effects))
    requires Written(client.complete, topics, dir, effects, implemented, i, states, replies, chosen, files, paths)
    requires client.State() == states[i]
    modifies client
    ensures client.Valid() && |states'| == i + 2 && |replies'| == i + 1
    ensures states'[0] == states[0] && client.State() == states'[i + 1] && (r.Ok? ==> !IsEmpty(effects))
    ensures r.Ok? ==> Written(client.complete, topics, dir, effects, implemented, i + 1, states', replies', chosen', files + [r.value], paths + [SegmentPath(dir, i)])
    ensures r.Err? ==> Processed(client.complete, topics, dir, effects, implemented, states', replies', chosen', files, Err(r.error))
  {
    var name;
    ghost var reply;
    name, reply := GetEffectSuggestion(client, TopicLabel(i + 1), effects);
    states', replies' := states + [client.State()], replies + [reply];
    if name.Err? {
      NoEffects(client.complete, topics, dir, effects, implemented, states, replies, chosen, files, paths, client.State(), reply);
      return Err(name.error), states', replies', chosen;
    }
    chosen' := chosen + [name.value];
    r := ApplyEffect(CutOf(topics[i]), name.value, effects, implemented);
    if r.Err? {
      BadEntry(client.complete, topics, dir, effects, implemented, i, states, replies, chosen, files, paths, client.State(), reply, name.value);
    } else {
      WrittenStep(client.complete, topics, dir, effects, implemented, i, states, replies, chosen, files, paths, client.State(), reply, name.value, r.value);
    }
  }

  /**
   * What a run of `process_video_segments` leaves behind, whichever way it
   * ends: one conversation step per segment reached, the chosen effects,
   * the files written, and the outcome.
   */
  ghost predicate Processed(complete: Llm.Collaborator, topics: seq<Topic>, dir: string, effects: Catalog, implemented: set<string>,
                            states: seq<Llm.ClientState>, replies: seq<Option<string>>, chosen: seq<string>, files: seq<Footage>,
                            r: Result<seq<string>, Error>)
  {
    && Dressed(complete, topics, effects, implemented, states, replies, chosen, files) && |replies| <= |files| + 1
    && (r.Ok? ==> |files| == |topics| && r.value == SegmentPaths(dir, |topics|))
    && (topics == [] ==> r == Ok([]) && replies == [])
    && (IsEmpty(effects) && |topics| > 0 ==>
          && r == Err(IndexError) && files == [] && chosen == []
          && replies == [Llm.AskStep(states[0], complete, EffectPrompt(TopicLabel(1), effects.names)).1])
    && (!IsEmpty(effects) && r.Err? ==>
          && |chosen| == |replies| == |files| + 1 && r.error == KeyError("description")
          && ApplyEffect(CutOf(topics[|files|]), chosen[|files|], effects, implemented) == Err(KeyError("description")))
  }

  lemma WrittenNothing(complete: Llm.Collaborator, topics: seq<Topic>, dir: string, effects: Catalog, implemented: set<string>, s0: Llm.ClientState)
    ensures Written(complete, topics, dir, effects, implemented, 0, [s0], [], [], [], [])
  {
    assert Llm.Conversation([s0], [], complete, EffectPrompts(effects.names, 0));
  }

  /** The run that met an empty catalog at its first topic. */
  lemma NoEffects(complete: Llm.Collaborator, topics: seq<Topic>, dir: string, effects: Catalog, implemented: set<string>,
                  states: seq<Llm.ClientState>, replies: seq<Option<string>>, chosen: seq<string>, files: seq<Footage>, paths: seq<string>,
                  next: Llm.ClientState, reply: Option<string>)
    requires Written(complete, topics, dir, effects, implemented, 0, states, replies, chosen, files, paths)
    requires 0 < |topics| && IsEmpty(effects)
    requires (next, reply) == Llm.AskStep(states[0], complete, EffectPrompt(TopicLabel(1), effects.names))
    ensures Processed(complete, topics, dir, effects, implemented, states + [next], replies + [reply], chosen, files, Err(IndexError))
  {
    Llm.ConversationSnoc(states, replies, complete, EffectPrompts(effects.names, 0), SegmentPrompt(effects.names, 0), next, reply);
  }

  /** The run that stopped at a usable effect without a description. */
  lemma BadEntry(complete: Llm.Collaborator, topics: seq<Topic>, dir: string, effects: Catalog, implemented: set<string>, n: nat,
                 states: seq<Llm.ClientState>, replies: seq<Option<string>>, chosen: seq<string>, files: seq<Footage>, paths: seq<string>,
                 next: Llm.ClientState, reply: Option<string>, name: string)
    requires Written(complete, topics, dir, effects, implemented, n, states, replies, chosen, files, paths)
    requires n < |topics| && !IsEmpty(effects)
    requires (next, reply) == Llm.AskStep(states[n], complete, EffectPrompt(TopicLabel(n + 1), effects.names))
    requires Chosen(reply, name, effects)
    requires ApplyEffect(CutOf(topics[n]), name, effects, implemented).Err?
    ensures Processed(complete, topics, dir, effects, implemented, states + [next], replies + [reply], chosen + [name], files,
                      Err(ApplyEffect(CutOf(topics[n]), name, effects, implemented).error))
  {
    Llm.ConversationSnoc(states, replies, complete, EffectPrompts(effects.names, n), SegmentPrompt(effects.names, n), next, reply);
    ExtendChosen(replies, chosen, effects, reply, name);
    DressedPrefix(topics, chosen, files, effects, implemented, name);
    assert (chosen + [name])[|files|] == name;
  }

  /** The run that wrote every segment. */
  lemma AllWritten(complete: Llm.Collaborator, topics: seq<Topic>, dir: string, effects: Catalog, implemented: set<string>,
                   states: seq<Llm.ClientState>, replies: seq<Option<string>>, chosen: seq<string>, files: seq<Footage>, paths: seq<string>)
    requires Written(complete, topics, dir, effects, implemented, |topics|, states, replies, chosen, files, paths)
    requires |topics| > 0 ==> !IsEmpty(effects)
    ensures Processed(complete, topics, dir, effects, implemented, states, replies, chosen, files, Ok(paths))
  {
  }


  lemma DressedPrefix(topics: seq<Topic>, chosen: seq<string>, files: seq<Footage>, effects: Catalog, implemented: set<string>, name: string)
    requires |files| == |chosen| <= |topics|
    requires forall k :: 0 <= k < |files| ==> ApplyEffect(CutOf(topics[k]), chosen[k], effects, implemented) == Ok(files[k])
    ensures forall k :: 0 <= k < |files| ==> ApplyEffect(CutOf(topics[k]), (chosen + [name])[k], effects, implemented) == Ok(files[k])
  {
    forall k | 0 <= k < |files|
      ensures ApplyEffect(CutOf(topics[k]), (chosen + [name])[k], effects, implemented) == Ok(files[k])
    {
      assert (chosen + [name])[k] == chosen[k];
    }
  }

  lemma ExtendFiles(topics: seq<Topic>, chosen: seq<string>, files: seq<Footage>, effects: Catalog, implemented: set<string>,
                    name: string, file: Footage)
    requires |files| == |chosen| < |topics|
    requires forall k :: 0 <= k < |files| ==> ApplyEffect(CutOf(topics[k]), chosen[k], effects, implemented) == Ok(files[k])
    requires ApplyEffect(CutOf(topics[|files|]), name, effects, implemented) == Ok(file)
    ensures forall k :: 0 <= k < |files| + 1 ==> ApplyEffect(CutOf(topics[k]), (chosen + [name])[k], effects, implemented) == Ok((files + [file])[k])
  {
    DressedPrefix(topics, chosen, files, effects, implemented, name);
  }
}
