/**
 * `llm/llama.py`: the memoising language-model client.  A process-wide
 * `cache` maps each prompt already answered to its answer, and `messages`
 * is the conversation sent with every request.  On a hit the cached answer
 * comes back at once; on a miss the prompt joins the conversation, the
 * collaborator is called, and a successful answer joins the conversation
 * and the cache; a failed call gives `None`.
 *
 * The source initialises `messages` as a dict, on which `append` raises;
 * this module models the evidently intended list (`LlmAsWritten` models the
 * code as written).
 */
module Llm {
  import opened Wrappers

  datatype Role = System | Assistant

  /** One conversation entry, `{"role": ..., "content": ...}`. */
  datatype Message = Message(role: Role, content: string)

  const SystemMessage := Message(System, "You need to perform the task given by the user")

  /**
   * The language-model collaborator: the answer to a conversation, or
   * `None` when the request fails (any exception caught at llama.py:40).
   */
  type Collaborator = seq<Message> -> Option<string>

  /** The module-level state: `cache`, `messages`, and (ghost bookkeeping) how many requests were sent. */
  datatype ClientState = ClientState(cache: map<string, string>, history: seq<Message>, calls: nat)

  /** The state at import time. */
  const Initial := ClientState(map[], [SystemMessage], 0)

  /** `prompt` was sent and `answer` came back right after it. */
  ghost predicate Answered(history: seq<Message>, prompt: string, answer: string) {
    exists i :: 0 <= i < |history| - 1 && history[i] == Message(System, prompt) && history[i + 1] == Message(Assistant, answer)
  }

  /**
   * What the client keeps true: the conversation starts with the system
   * message, every request added one prompt and every success one answer,
   * and each cached answer is the one the conversation recorded for its prompt.
   */
  ghost predicate Consistent(s: ClientState) {
    && |s.history| >= 1 && s.history[0] == SystemMessage
    && |s.history| == 1 + s.calls + |s.cache|
    && forall p :: p in s.cache ==> Answered(s.history, p, s.cache[p])
  }

  /**
   * One call `LLM(prompt)`: the next state and the returned value.  The
   * cache only grows and never changes an answer, the conversation only
   * grows, at most one request is sent, and a returned answer is the one
   * now cached for the prompt.
   */
  function AskStep(s: ClientState, complete: Collaborator, prompt: string): (r: (ClientState, Option<string>))
    ensures prompt in s.cache ==> r == (s, Some(s.cache[prompt]))
    ensures s.cache.Keys <= r.0.cache.Keys && forall p :: p in s.cache ==> r.0.cache[p] == s.cache[p]
    ensures r.1.Some? ==> prompt in r.0.cache && r.0.cache[prompt] == r.1.value
    ensures |s.history| <= |r.0.history| && r.0.history[..|s.history|] == s.history
    ensures s.calls <= r.0.calls <= s.calls + 1
  {
    if prompt in s.cache then (s, Some(s.cache[prompt]))
    else
      var sent := s.history + [Message(System, prompt)];
      match complete(sent)
      case None => (ClientState(s.cache, sent, s.calls + 1), None)
      case Some(answer) =>
        (ClientState(s.cache[prompt := answer], sent + [Message(Assistant, answer)], s.calls + 1), Some(answer))
  }

  /** On a miss that succeeds, the answer is the collaborator's, and the conversation grows by the prompt and then the answer. */
  lemma MissThenSuccess(s: ClientState, complete: Collaborator, prompt: string, answer: string)
    requires prompt !in s.cache
    requires complete(s.history + [Message(System, prompt)]) == Some(answer)
    ensures AskStep(s, complete, prompt).1 == Some(answer)
    ensures AskStep(s, complete, prompt).0.cache == s.cache[prompt := answer]
    ensures AskStep(s, complete, prompt).0.history == s.history + [Message(System, prompt), Message(Assistant, answer)]
    ensures AskStep(s, complete, prompt).0.calls == s.calls + 1
  {
  }

  /** On a miss that fails, `None` comes back, the cache is unchanged, and the prompt stays in the conversation. */
  lemma MissThenFailure(s: ClientState, complete: Collaborator, prompt: string)
    requires prompt !in s.cache
    requires complete(s.history + [Message(System, prompt)]).None?
    ensures AskStep(s, complete, prompt).1 == None
    ensures AskStep(s, complete, prompt).0.cache == s.cache
    ensures AskStep(s, complete, prompt).0.history == s.history + [Message(System, prompt)]
  {
  }

  lemma AnsweredExtends(h: seq<Message>, more: seq<Message>, p: string, a: string)
    requires Answered(h, p, a)
    ensures Answered(h + more, p, a)
  {
    var i :| 0 <= i < |h| - 1 && h[i] == Message(System, p) && h[i + 1] == Message(Assistant, a);
    assert (h + more)[i] == h[i] && (h + more)[i + 1] == h[i + 1];
  }

  /** Every call keeps the client consistent. */
  lemma AskStepConsistent(s: ClientState, complete: Collaborator, prompt: string)
    requires Consistent(s)
    ensures Consistent(AskStep(s, complete, prompt).0)
  {
    if prompt !in s.cache {
      var sent := s.history + [Message(System, prompt)];
      match complete(sent)
      case None => ConsistentAfterFailure(s, prompt);
      case Some(answer) => ConsistentAfterSuccess(s, prompt, answer);
    }
  }

  lemma KeepsConsistent(s: ClientState, complete: Collaborator, prompt: string)
    ensures Consistent(s) ==> Consistent(AskStep(s, complete, prompt).0)
  {
    if Consistent(s) {
      AskStepConsistent(s, complete, prompt);
    }
  }

  lemma ConsistentAfterFailure(s: ClientState, prompt: string)
    requires Consistent(s) && prompt !in s.cache
    ensures Consistent(ClientState(s.cache, s.history + [Message(System, prompt)], s.calls + 1))
  {
    forall p | p in s.cache
      ensures Answered(s.history + [Message(System, prompt)], p, s.cache[p])
    {
      AnsweredExtends(s.history, [Message(System, prompt)], p, s.cache[p]);
    }
  }

  lemma ConsistentAfterSuccess(s: ClientState, prompt: string, answer: string)
    requires Consistent(s) && prompt !in s.cache
    ensures Consistent(ClientState(s.cache[prompt := answer], s.history + [Message(System, prompt)] + [Message(Assistant, answer)], s.calls + 1))
  {
    var h := s.history + [Message(System, prompt)] + [Message(Assistant, answer)];
    AnsweredAfterSuccess(s, prompt, answer, h, s.cache[prompt := answer]);
    NewKeyCount(s.cache, prompt, answer);
    assert h[0] == SystemMessage;
  }

  /** After a success every cached prompt, old or new, has its answer in the conversation. */
  lemma AnsweredAfterSuccess(s: ClientState, prompt: string, answer: string, h: seq<Message>, cache: map<string, string>)
    requires Consistent(s) && h == s.history + [Message(System, prompt)] + [Message(Assistant, answer)]
    requires cache == s.cache[prompt := answer]
    ensures forall p :: p in cache ==> Answered(h, p, cache[p])
  {
    var more := [Message(System, prompt), Message(Assistant, answer)];
    assert h == s.history + more;
    forall p | p in cache
      ensures Answered(h, p, cache[p])
    {
      if p == prompt {
        var i := |s.history|;
        assert h[i] == Message(System, prompt) && h[i + 1] == Message(Assistant, answer);
      } else {
        AnsweredExtends(s.history, more, p, s.cache[p]);
      }
    }
  }

  lemma NewKeyCount(m: map<string, string>, k: string, v: string)
    requires k !in m
    ensures |m[k := v]| == |m| + 1
  {
    assert m[k := v].Keys == m.Keys + {k};
  }


  /** Asking the same prompt again after a success sends no request and returns the same value. */
  lemma AskTwice(s: ClientState, complete: Collaborator, prompt: string)
    requires AskStep(s, complete, prompt).1.Some?
    ensures var (mid, first) := AskStep(s, complete, prompt);
      AskStep(mid, complete, prompt) == (mid, first) && mid.calls <= s.calls + 1
  {
  }

  /** The state after asking `prompts` one after another. */
  function AskAll(s: ClientState, complete: Collaborator, prompts: seq<string>): (r: ClientState)
    ensures s.cache.Keys <= r.cache.Keys && forall p :: p in s.cache ==> r.cache[p] == s.cache[p]
    ensures r.cache.Keys - s.cache.Keys <= set p | p in prompts
    ensures Consistent(s) ==> Consistent(r)
    ensures s.calls <= r.calls
    ensures (forall h :: complete(h).Some?) ==> r.calls - s.calls == |r.cache.Keys - s.cache.Keys|
  {
    if prompts == [] then s
    else
      var front, prompt := prompts[..|prompts| - 1], prompts[|prompts| - 1];
      var mid := AskAll(s, complete, front);
      assert prompts == front + [prompt];
      AskAllKeys(s, mid, complete, prompt, front, prompts);
      AskAllCount(s, mid, complete, prompt);
      KeepsConsistent(mid, complete, prompt);
      AskStep(mid, complete, prompt).0
  }

  /** Asking one more prompt is one more step. */
  lemma AskAllSnoc(s: ClientState, complete: Collaborator, prompts: seq<string>, prompt: string)
    ensures AskAll(s, complete, prompts + [prompt]) == AskStep(AskAll(s, complete, prompts), complete, prompt).0
  {
    assert (prompts + [prompt])[..|prompts|] == prompts;
  }

  /**
   * `states` and `replies` record a run of calls: call `k` asked
   * `prompts[k]` in `states[k]`, answered `replies[k]` and left `states[k + 1]`.
   */
  ghost predicate Conversation(states: seq<ClientState>, replies: seq<Option<string>>, complete: Collaborator, prompts: seq<string>) {
    && |states| == |prompts| + 1 && |replies| == |prompts|
    && forall k {:trigger replies[k]} :: 0 <= k < |prompts| ==> (states[k + 1], replies[k]) == AskStep(states[k], complete, prompts[k])
  }

  /** One more call, asked in the last state of a recorded run, extends the run by its prompt. */
  lemma ConversationSnoc(states: seq<ClientState>, replies: seq<Option<string>>, complete: Collaborator, prompts: seq<string>,
                         prompt: string, next: ClientState, reply: Option<string>)
    requires Conversation(states, replies, complete, prompts)
    requires (next, reply) == AskStep(states[|prompts|], complete, prompt)
    ensures Conversation(states + [next], replies + [reply], complete, prompts + [prompt])
  {
    var states', replies', prompts' := states + [next], replies + [reply], prompts + [prompt];
    forall k | 0 <= k < |prompts'|
      ensures (states'[k + 1], replies'[k]) == AskStep(states'[k], complete, prompts'[k])
    {
      if k < |prompts| {
        assert prompts'[k] == prompts[k];
        assert states'[k + 1] == states[k + 1] && replies'[k] == replies[k] && states'[k] == states[k];
      }
    }
  }

  /** A recorded run ends where `AskAll` does. */
  lemma {:induction false} ConversationEndsInAskAll(states: seq<ClientState>, replies: seq<Option<string>>, complete: Collaborator, prompts: seq<string>)
    requires Conversation(states, replies, complete, prompts)
    ensures states[|prompts|] == AskAll(states[0], complete, prompts)
  {
    if prompts != [] {
      var n := |prompts| - 1;
      assert (states[n + 1], replies[n]) == AskStep(states[n], complete, prompts[n]);
      assert Conversation(states[..n + 1], replies[..n], complete, prompts[..n]);
      ConversationEndsInAskAll(states[..n + 1], replies[..n], complete, prompts[..n]);
    }
  }

  /** One more call adds at most its own prompt to the new keys. */
  lemma AskAllKeys(s: ClientState, mid: ClientState, complete: Collaborator, prompt: string, front: seq<string>, prompts: seq<string>)
    requires prompts == front + [prompt]
    requires mid.cache.Keys - s.cache.Keys <= set p | p in front
    ensures AskStep(mid, complete, prompt).0.cache.Keys - s.cache.Keys <= set p | p in prompts
  {
    var keys := AskStep(mid, complete, prompt).0.cache.Keys;
    StepKeys(mid, complete, prompt);
    forall p | p in keys - s.cache.Keys
      ensures p in set p | p in prompts
    {
      if p != prompt {
        assert p in mid.cache.Keys - s.cache.Keys;
        assert p in front;
        assert p in prompts;
      }
    }
  }

  /** A call adds no key other than its prompt, and adds that one exactly when a request succeeds. */
  lemma StepKeys(s: ClientState, complete: Collaborator, prompt: string)
    ensures var r := AskStep(s, complete, prompt).0;
      && r.cache.Keys <= s.cache.Keys + {prompt}
      && (prompt !in s.cache && complete(s.history + [Message(System, prompt)]).Some? ==> r.cache.Keys == s.cache.Keys + {prompt} && r.calls == s.calls + 1)
      && (prompt in s.cache ==> r == s)
  {
  }

  /** One more call that cannot fail sends a request exactly when it adds a key. */
  lemma AskAllCount(s: ClientState, mid: ClientState, complete: Collaborator, prompt: string)
    requires s.cache.Keys <= mid.cache.Keys && s.calls <= mid.calls
    ensures var r := AskStep(mid, complete, prompt).0;
      complete(mid.history + [Message(System, prompt)]).Some? && mid.calls - s.calls == |mid.cache.Keys - s.cache.Keys|
      ==> r.calls - s.calls == |r.cache.Keys - s.cache.Keys|
  {
    StepKeys(mid, complete, prompt);
    var r := AskStep(mid, complete, prompt).0;
    if prompt !in mid.cache && complete(mid.history + [Message(System, prompt)]).Some? {
      AddedKey(s.cache.Keys, mid.cache.Keys, r.cache.Keys, prompt);
    }
  }

  /** Adding a key that was missing adds exactly one new key. */
  lemma AddedKey<T>(before: set<T>, mid: set<T>, now: set<T>, k: T)
    requires before <= mid && k !in mid && now == mid + {k}
    ensures |now - before| == |mid - before| + 1
  {
    assert now - before == (mid - before) + {k};
  }

  /** With a collaborator that always answers, a sequence of calls sends at most one request per distinct prompt. */
  lemma AtMostOneRequestPerPrompt(s: ClientState, complete: Collaborator, prompts: seq<string>)
    requires forall h :: complete(h).Some?
    ensures AskAll(s, complete, prompts).calls - s.calls <= |set p | p in prompts|
  {
    var r := AskAll(s, complete, prompts);
    assert r.cache.Keys - s.cache.Keys <= set p | p in prompts;
    SubsetCardinality(r.cache.Keys - s.cache.Keys, set p | p in prompts);
  }

  lemma SubsetCardinality<T>(a: set<T>, b: set<T>)
    requires a <= b
    ensures |a| <= |b|
  {
    assert b == a + (b - a);
  }

  /** The client object: one per process, as the module-level state of llama.py. */
  class LlmClient {
    var cache: map<string, string>
    var history: seq<Message>
    ghost var calls: nat
    const complete: Collaborator

    ghost function State(): ClientState
      reads this
    {
      ClientState(cache, history, calls)
    }

    ghost predicate Valid()
      reads this
    {
      Consistent(State())
    }

    constructor (complete: Collaborator)
      ensures State() == Initial && this.complete == complete
      ensures Valid()
    {
      this.complete := complete;
      cache := map[];
      history := [SystemMessage];
      calls := 0;
    }

    /** `LLM(prompt)`; the five-second pause before a request is not modelled. */
    method Ask(prompt: string) returns (answer: Option<string>)
      requires Valid()
      modifies this
      ensures Valid()
      ensures (State(), answer) == AskStep(old(State()), complete, prompt)
    {
      ghost var before := State();
      AskStepConsistent(before, complete, prompt);
      if prompt in cache {
        return Some(cache[prompt]);
      }
      var sent := history + [Message(System, prompt)];
      var reply := complete(sent);
      if reply.None? {
        MissThenFailure(before, complete, prompt);
        history, calls := sent, calls + 1;
        assert State() == AskStep(before, complete, prompt).0;
        return None;
      }
      MissThenSuccess(before, complete, prompt, reply.value);
      history, calls := sent + [Message(Assistant, reply.value)], calls + 1;
      cache := cache[prompt := reply.value];
      assert State() == AskStep(before, complete, prompt).0;
      answer := reply;
    }
  }
}
