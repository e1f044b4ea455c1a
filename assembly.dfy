/**
 * `create_final_video` (vid_edit.py:217-229): start from the first segment
 * file and, for each later segment, append either the clip returned by
 * `apply_transition` for the junction (when the transition catalog is not
 * empty) or the next segment file; write the result to
 * `final_video_with_transitions.mp4` in the output directory.  An empty
 * segment list raises `IndexError` at `segments[0]`.
 */
module Assembly {
  import opened Wrappers
  import opened Catalogs
  import opened Suggestions
  import opened Dispatch
  import opened Segments
  import Llm

  /**
   * What junction `i` (between segments `i - 1` and `i`) appends: the next
   * segment file when the catalog is empty, otherwise what
   * `apply_transition` returns for the choice `chosen[i - 1]`.
   */
  function Junction(segments: seq<string>, i: nat, chosen: seq<string>, transitions: Catalog, implemented: set<string>): Result<Clip, Error>
    requires 1 <= i < |segments| && (IsEmpty(transitions) || i <= |chosen|)
  {
    if IsEmpty(transitions) then Ok([Read(segments[i])])
    else ApplyTransition(segments[i - 1], segments[i], chosen[i - 1], transitions, implemented)
  }

  /**
   * The clip after the first `n` segments, where junction `k` (between
   * segments `k` and `k + 1`) uses the transition `chosen[k]`; the choices
   * matter only when the catalog is not empty.
   */
  function Assemble(segments: seq<string>, n: nat, chosen: seq<string>, transitions: Catalog, implemented: set<string>): (r: Result<Clip, Error>)
    requires n <= |segments| && (IsEmpty(transitions) || n <= |chosen| + 1)
    ensures n == 0 <==> r == Err(IndexError)
    ensures r.Ok? ==> |r.value| >= 1 && r.value[0] == Read(segments[0])
  {
    if n == 0 then Err(IndexError)
    else if n == 1 then Ok([Read(segments[0])])
    else
      match Assemble(segments, n - 1, chosen, transitions, implemented)
      case Err(e) => Err(e)
      case Ok(front) =>
        match Junction(segments, n - 1, chosen, transitions, implemented)
        case Err(e) => Err(e)
        case Ok(junction) => Ok(front + junction)
  }

  /** Choices past the last junction reached do not matter. */
  lemma {:induction false} AssembleIgnoresLaterChoices(segments: seq<string>, n: nat, chosen: seq<string>, more: seq<string>, transitions: Catalog, implemented: set<string>)
    requires n <= |segments| && (IsEmpty(transitions) || n <= |chosen| + 1)
    ensures Assemble(segments, n, chosen + more, transitions, implemented) == Assemble(segments, n, chosen, transitions, implemented)
  {
    if n > 1 {
      AssembleIgnoresLaterChoices(segments, n - 1, chosen, more, transitions, implemented);
      if !IsEmpty(transitions) {
        assert (chosen + more)[n - 2] == chosen[n - 2];
      }
    }
  }

  /** Without transitions the final video plays every segment once, in order. */
  lemma {:induction false} WithoutTransitions(segments: seq<string>, n: nat, chosen: seq<string>, transitions: Catalog, implemented: set<string>)
    requires 1 <= n <= |segments| && IsEmpty(transitions)
    ensures Assemble(segments, n, chosen, transitions, implemented) == Ok(seq(n, k requires 0 <= k < n => Read(segments[k])))
  {
    if n > 1 {
      WithoutTransitions(segments, n - 1, chosen, transitions, implemented);
      var front := seq(n - 1, k requires 0 <= k < n - 1 => Read(segments[k]));
      assert front + [Read(segments[n - 1])] == seq(n, k requires 0 <= k < n => Read(segments[k]));
    } else {
      assert [Read(segments[0])] == seq(n, k requires 0 <= k < n => Read(segments[k]));
    }
  }

  /**
   * When no chosen transition is usable, every junction falls back to both
   * segment files, so each segment but the last plays twice: the clip has
   * `2n - 1` entries and entry `j` is segment `j / 2`.
   */
  lemma {:induction false} FallbackRepeatsSegments(segments: seq<string>, n: nat, chosen: seq<string>, transitions: Catalog, implemented: set<string>)
    requires 1 <= n <= |segments| && n <= |chosen| + 1 && !IsEmpty(transitions)
    requires forall k :: 0 <= k < n - 1 ==> !Usable(chosen[k], transitions, implemented)
    ensures var r := Assemble(segments, n, chosen, transitions, implemented);
      r.Ok? && |r.value| == 2 * n - 1 && forall j :: 0 <= j < 2 * n - 1 ==> r.value[j] == Read(segments[j / 2])
  {
    if n > 1 {
      FallbackRepeatsSegments(segments, n - 1, chosen, transitions, implemented);
      var front := Assemble(segments, n - 1, chosen, transitions, implemented).value;
      var r := front + [Read(segments[n - 2]), Read(segments[n - 1])];
      assert Assemble(segments, n, chosen, transitions, implemented) == Ok(r);
      forall j | 0 <= j < 2 * n - 1
        ensures r[j] == Read(segments[j / 2])
      {
        if j == 2 * n - 3 {
          assert j / 2 == n - 2;
        } else if j == 2 * n - 2 {
          assert j / 2 == n - 1;
        }
      }
    }
  }

  /** An entry every usable junction can use: it has a description and an output file. */
  predicate AllUsable(chosen: seq<string>, k: nat, transitions: Catalog, implemented: set<string>)
    requires k <= |chosen|
  {
    forall i :: 0 <= i < k ==> Usable(chosen[i], transitions, implemented) && Complete(transitions.entries[chosen[i]])
  }

  /**
   * When every chosen transition is usable and complete, the final video is
   * the first segment followed by the output file of each junction's
   * transition: one entry per segment.
   */
  lemma {:induction false} TransitionsReplaceJunctions(segments: seq<string>, n: nat, chosen: seq<string>, transitions: Catalog, implemented: set<string>)
    requires 1 <= n <= |segments| && n <= |chosen| + 1 && !IsEmpty(transitions)
    requires AllUsable(chosen, n - 1, transitions, implemented)
    ensures var r := Assemble(segments, n, chosen, transitions, implemented);
      && r.Ok? && |r.value| == n && r.value[0] == Read(segments[0])
      && forall k :: 1 <= k < n ==> r.value[k] == Read(transitions.entries[chosen[k - 1]].outputFile.value)
  {
    if n > 1 {
      TransitionsReplaceJunctions(segments, n - 1, chosen, transitions, implemented);
      var front := Assemble(segments, n - 1, chosen, transitions, implemented).value;
      var out := Read(transitions.entries[chosen[n - 2]].outputFile.value);
      assert Assemble(segments, n, chosen, transitions, implemented) == Ok(front + [out]);
    }
  }

  /** A failed assembly of a non-empty list is a junction whose usable transition lacks a key it reads. */
  lemma {:induction false} FailureIsIncompleteEntry(segments: seq<string>, n: nat, chosen: seq<string>, transitions: Catalog, implemented: set<string>)
    requires 1 <= n <= |segments| && (IsEmpty(transitions) || n <= |chosen| + 1)
    requires Assemble(segments, n, chosen, transitions, implemented).Err?
    ensures !IsEmpty(transitions)
    ensures exists k :: 0 <= k < n - 1 && Usable(chosen[k], transitions, implemented) && !Complete(transitions.entries[chosen[k]])
  {
    if IsEmpty(transitions) {
      WithoutTransitions(segments, n, chosen, transitions, implemented);
    } else {
      var front := Assemble(segments, n - 1, chosen, transitions, implemented);
      if n - 1 >= 1 && front.Err? {
        FailureIsIncompleteEntry(segments, n - 1, chosen, transitions, implemented);
      } else {
        var k := n - 2;
        assert Usable(chosen[k], transitions, implemented) && !Complete(transitions.entries[chosen[k]]);
      }
    }
  }

  /** The transition prompts of the first `n` junctions, in the order they are asked. */
  function TransitionPrompts(names: seq<string>, n: nat): (prompts: seq<string>)
    ensures |prompts| == n
  {
    if n == 0 then [] else TransitionPrompts(names, n - 1) + [JunctionPrompt(names, n - 1)]
  }

  /** The prompt asked at junction `k`, between `Topic {k+1}` and `Topic {k+2}`. */
  function JunctionPrompt(names: seq<string>, k: nat): string {
    TransitionPrompt(TopicLabel(k + 1), TopicLabel(k + 2), names)
  }

  /** Junction `k` asks the transition prompt for `Topic {k+1}` and `Topic {k+2}`. */
  lemma {:induction false} TransitionPromptAt(names: seq<string>, n: nat, k: nat)
    requires k < n
    ensures TransitionPrompts(names, n)[k] == JunctionPrompt(names, k)
    decreases n
  {
    var front := TransitionPrompts(names, n - 1);
    if k < n - 1 {
      TransitionPromptAt(names, n - 1, k);
      assert (front + [JunctionPrompt(names, n - 1)])[k] == front[k];
    } else {
      assert (front + [JunctionPrompt(names, k)])[k] == JunctionPrompt(names, k);
    }
  }

  /** Every junction asks its own prompt, so no junction is answered from another's cache entry. */
  lemma TransitionPromptsAllDistinct(names: seq<string>, n: nat)
    ensures forall i, j :: 0 <= i < j < n ==> TransitionPrompts(names, n)[i] != TransitionPrompts(names, n)[j]
  {
    var prompts := TransitionPrompts(names, n);
    forall i, j | 0 <= i < j < n
      ensures prompts[i] != prompts[j]
    {
      TransitionPromptAt(names, n, i);
      TransitionPromptAt(names, n, j);
      TransitionPromptsDistinct(i, j, names);
    }
  }

  /**
   * The requests of a run so far: with a non-empty catalog junction `k`
   * asked the transition prompt for topics `k + 1` and `k + 2` in
   * `states[k]`, got `replies[k]` and used `chosen[k]`; with an empty
   * catalog nothing was asked.
   */
  ghost predicate Asked(complete: Llm.Collaborator, transitions: Catalog, states: seq<Llm.ClientState>, replies: seq<Option<string>>,
                        chosen: seq<string>)
  {
    && |states| == |replies| + 1 && |chosen| == |replies|
    && (IsEmpty(transitions) ==> replies == [])
    && Llm.Conversation(states, replies, complete, TransitionPrompts(transitions.names, |replies|))
    && (forall k :: 0 <= k < |chosen| ==> Chosen(replies[k], chosen[k], transitions))
  }

  /** The first `i` segments joined into `final`, one request per junction when the catalog is not empty. */
  ghost predicate Joined(complete: Llm.Collaborator, segments: seq<string>, transitions: Catalog, implemented: set<string>, i: nat,
                         states: seq<Llm.ClientState>, replies: seq<Option<string>>, chosen: seq<string>, final: Clip)
  {
    && 1 <= i <= |segments| && Asked(complete, transitions, states, replies, chosen)
    && (IsEmpty(transitions) || |chosen| == i - 1)
    && Assemble(segments, i, chosen, transitions, implemented) == Ok(final)
  }

  /** Joining the next segment without transitions. */
  lemma JoinPlain(complete: Llm.Collaborator, segments: seq<string>, transitions: Catalog, implemented: set<string>, i: nat,
                  states: seq<Llm.ClientState>, replies: seq<Option<string>>, chosen: seq<string>, final: Clip)
    requires Joined(complete, segments, transitions, implemented, i, states, replies, chosen, final)
    requires i < |segments| && IsEmpty(transitions)
    ensures Joined(complete, segments, transitions, implemented, i + 1, states, replies, chosen, final + [Read(segments[i])])
  {
  }

  /**
   * Joining the next segment with the transition `name` suggested after the
   * call that answered `reply`: the run grows by that call, and the
   * assembly grows by the junction or fails with it.
   */
  lemma JoinTransition(complete: Llm.Collaborator, segments: seq<string>, transitions: Catalog, implemented: set<string>, i: nat,
                       states: seq<Llm.ClientState>, replies: seq<Option<string>>, chosen: seq<string>, final: Clip,
                       next: Llm.ClientState, reply: Option<string>, name: string)
    requires Joined(complete, segments, transitions, implemented, i, states, replies, chosen, final)
    requires i < |segments| && !IsEmpty(transitions)
    requires (next, reply) == Llm.AskStep(states[|replies|], complete, TransitionPrompt(TopicLabel(i), TopicLabel(i + 1), transitions.names))
    requires Chosen(reply, name, transitions)
    ensures var junction := ApplyTransition(segments[i - 1], segments[i], name, transitions, implemented);
      && Asked(complete, transitions, states + [next], replies + [reply], chosen + [name])
      && (junction.Ok? ==> Joined(complete, segments, transitions, implemented, i + 1, states + [next], replies + [reply], chosen + [name],
                                  final + junction.value))
      && (junction.Err? ==> Assemble(segments, i + 1, chosen + [name], transitions, implemented) == Err(junction.error))
  {
    Llm.ConversationSnoc(states, replies, complete, TransitionPrompts(transitions.names, i - 1), JunctionPrompt(transitions.names, i - 1), next, reply);
    ExtendChosen(replies, chosen, transitions, reply, name);
    AssembleIgnoresLaterChoices(segments, i, chosen, [name], transitions, implemented);
    assert (chosen + [name])[i - 1] == name;
  }

  /**
   * One pass of the loop of `create_final_video` with a non-empty catalog:
   * ask for the transition of junction `i` and join segment `i` to the
   * first `i` with it.  The run grows by that one request; the result is
   * the assembly of the first `i + 1` segments, or the error it fails with.
   */
  method JoinWithTransition(client: Llm.LlmClient, segments: seq<string>, transitions: Catalog, implemented: set<string>, i: nat, final: Clip,
                            ghost states: seq<Llm.ClientState>, ghost replies: seq<Option<string>>, ghost chosen: seq<string>)
    returns (r: Result<Clip, Error>, ghost states': seq<Llm.ClientState>, ghost replies': seq<Option<string>>, ghost chosen': seq<string>)
    requires client.Valid() && WellFormed(transitions) && !IsEmpty(transitions) && i < |segments|
    requires Joined(client.complete, segments, transitions, implemented, i, states, replies, chosen, final)
    requires client.State() == states[|replies|]
    modifies client
    ensures client.Valid() && Asked(client.complete, transitions, states', replies', chosen') && |chosen'| == i
    ensures states'[0] == states[0] && client.State() == states'[|replies'|]
    ensures r.Ok? ==> Joined(client.complete, segments, transitions, implemented, i + 1, states', replies', chosen', r.value)
    ensures r.Err? ==> Assemble(segments, i + 1, chosen', transitions, implemented) == Err(r.error)
    ensures Assemble(segments, i, chosen', transitions, implemented) == Ok(final)
  {
    var name;
    ghost var reply;
    name, reply := GetTransitionSuggestion(client, TopicLabel(i), TopicLabel(i + 1), transitions);
    var junction := ApplyTransition(segments[i - 1], segments[i], name.value, transitions, implemented);
    JoinTransition(client.complete, segments, transitions, implemented, i, states, replies, chosen, final, client.State(), reply, name.value);
    AssembleIgnoresLaterChoices(segments, i, chosen, [name.value], transitions, implemented);
    states', replies', chosen' := states + [client.State()], replies + [reply], chosen + [name.value];
    r := if junction.Ok? then Ok(final + junction.value) else Err(junction.error);
  }


  /** A failed assembly of a non-empty list fails with the `KeyError` of the entry it read. */
  lemma {:induction false} FailureIsKeyError(segments: seq<string>, n: nat, chosen: seq<string>, transitions: Catalog, implemented: set<string>)
    requires 1 <= n <= |segments| && (IsEmpty(transitions) || n <= |chosen| + 1)
    requires Assemble(segments, n, chosen, transitions, implemented).Err?
    ensures Assemble(segments, n, chosen, transitions, implemented).error.KeyError?
  {
    if n > 1 && Assemble(segments, n - 1, chosen, transitions, implemented).Err? {
      FailureIsKeyError(segments, n - 1, chosen, transitions, implemented);
    }
  }

  /**
   * Where a run of `create_final_video` stopped: the first `reached`
   * segments were used, one request per junction reached when the catalog
   * is not empty, and `outcome` is the assembly of those segments (an
   * error when one of them failed, `IndexError` when there were none).
   * A failure stops the run at the first failing junction: the segments
   * before it assembled without error.
   */
  ghost predicate Stopped(complete: Llm.Collaborator, segments: seq<string>, transitions: Catalog, implemented: set<string>, reached: nat,
                          states: seq<Llm.ClientState>, replies: seq<Option<string>>, chosen: seq<string>, outcome: Result<Clip, Error>)
  {
    && Asked(complete, transitions, states, replies, chosen)
    && reached <= |segments| && (segments != [] ==> 1 <= reached)
    && (IsEmpty(transitions) || segments == [] || |chosen| == reached - 1)
    && Assemble(segments, reached, chosen, transitions, implemented) == outcome
    && (outcome.Err? && segments != [] ==> 2 <= reached && Assemble(segments, reached - 1, chosen, transitions, implemented).Ok?)
  }

  /** With no segments the run stops at once, before any request. */
  lemma StoppedAtStart(complete: Llm.Collaborator, segments: seq<string>, transitions: Catalog, implemented: set<string>, s0: Llm.ClientState)
    requires segments == []
    ensures Stopped(complete, segments, transitions, implemented, 0, [s0], [], [], Err(IndexError))
  {
    assert Llm.Conversation([s0], [], complete, TransitionPrompts(transitions.names, 0));
  }

  /** The first segment on its own, before any request. */
  lemma JoinedFirst(complete: Llm.Collaborator, segments: seq<string>, transitions: Catalog, implemented: set<string>, s0: Llm.ClientState)
    requires segments != []
    ensures Joined(complete, segments, transitions, implemented, 1, [s0], [], [], [Read(segments[0])])
  {
    assert Llm.Conversation([s0], [], complete, TransitionPrompts(transitions.names, 0));
  }

  /**
   * `create_final_video(segments, transitions, dir)`.  The run stops after
   * `reached` segments with their assembly as the result, written to
   * `FinalPath(dir)` on success, when every segment is reached.  With an
   * empty catalog no request is made; otherwise junction `k` asked the
   * transition prompt for topics `k + 1` and `k + 2`, got `replies[k]`, and
   * used `chosen[k]`, an entry of the catalog and the reply whenever the
   * reply named one.
   */
  method CreateFinalVideo(client: Llm.LlmClient, segments: seq<string>, transitions: Catalog, dir: string, implemented: set<string>)
    returns (r: Result<(string, Clip), Error>, ghost reached: nat, ghost chosen: seq<string>, ghost replies: seq<Option<string>>,
             ghost states: seq<Llm.ClientState>)
    requires client.Valid() && WellFormed(transitions)
    modifies client
    ensures client.Valid()
    ensures Stopped(client.complete, segments, transitions, implemented, reached, states, replies, chosen,
                    if r.Ok? then Ok(r.value.1) else Err(r.error))
    ensures states[0] == old(client.State()) && client.State() == states[|replies|]
    ensures r.Ok? ==> reached == |segments| && r.value.0 == FinalPath(dir)
  {
    ghost var s0 := client.State();
    states, chosen, replies := [s0], [], [];
    if |segments| == 0 {
      StoppedAtStart(client.complete, segments, transitions, implemented, s0);
      return Err(IndexError), 0, chosen, replies, states;
    }
    JoinedFirst(client.complete, segments, transitions, implemented, s0);
    var final: Clip := [Read(segments[0])];
    var i := 1;
    while i < |segments|
      invariant client.Valid() && Joined(client.complete, segments, transitions, implemented, i, states, replies, chosen, final)
      invariant states[0] == s0 && client.State() == states[|replies|]
    {
      if !IsEmpty(transitions) {
        var next;
        next, states, replies, chosen := JoinWithTransition(client, segments, transitions, implemented, i, final, states, replies, chosen);
        if next.Err? {
          return Err(next.error), i + 1, chosen, replies, states;
        }
        final := next.value;
      } else {
        JoinPlain(client.complete, segments, transitions, implemented, i, states, replies, chosen, final);
        final := final + [Read(segments[i])];
      }
      i := i + 1;
    }
    return Ok((FinalPath(dir), final)), i, chosen, replies, states;
  }
}
