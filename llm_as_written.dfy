/**
 * `llm/llama.py` as written: `messages` starts as a dict (llama.py:9-12),
 * and a dict has no `append`, so every call that misses the cache raises
 * `AttributeError` at llama.py:24, before the `try` that would turn a
 * failure into `None`.  Nothing is ever added to `cache`, which starts
 * empty, so every call misses.
 */
module LlmAsWritten {
  import opened Wrappers
  import Llm

  /** What a call does: returns a value or raises. */
  datatype Outcome = Returned(value: string) | Raised(error: Error)

  /** One call `LLM(prompt)` on the code as written: the cache after the call and the outcome. */
  function AskAsWritten(cache: map<string, string>, prompt: string): (r: (map<string, string>, Outcome))
    ensures r.0 == cache
    ensures r.1.Returned? <==> prompt in cache
    ensures r.1.Returned? ==> r.1.value == cache[prompt]
    ensures r.1.Raised? ==> r.1.error == AttributeError
  {
    if prompt in cache then (cache, Returned(cache[prompt]))
    else (cache, Raised(AttributeError))
  }

  /** The outcomes of a sequence of calls, in order, starting from `cache`. */
  function AskAllAsWritten(cache: map<string, string>, prompts: seq<string>): (outcomes: seq<Outcome>)
    ensures |outcomes| == |prompts|
  {
    if prompts == [] then []
    else
      var (next, outcome) := AskAsWritten(cache, prompts[0]);
      [outcome] + AskAllAsWritten(next, prompts[1..])
  }

  /** From the import-time empty cache, every call of the program raises `AttributeError`. */
  lemma {:induction false} EveryCallRaises(prompts: seq<string>)
    ensures forall i :: 0 <= i < |prompts| ==> AskAllAsWritten(map[], prompts)[i] == Raised(AttributeError)
  {
    if prompts != [] {
      EveryCallRaises(prompts[1..]);
      var outcomes := AskAllAsWritten(map[], prompts);
      forall i | 0 <= i < |prompts|
        ensures outcomes[i] == Raised(AttributeError)
      {
        if i > 0 {
          assert outcomes[i] == AskAllAsWritten(map[], prompts[1..])[i - 1];
        }
      }
    }
  }

  /**
   * The discrepancy: on the first call of a run, with a collaborator that
   * answers, the code as written raises, while the list-based client
   * returns the answer.
   */
  lemma FirstCallDiffers(complete: Llm.Collaborator, prompt: string, answer: string)
    requires complete([Llm.SystemMessage, Llm.Message(Llm.System, prompt)]) == Some(answer)
    ensures AskAsWritten(map[], prompt).1 == Raised(AttributeError)
    ensures Llm.AskStep(Llm.Initial, complete, prompt).1 == Some(answer)
  {
    assert Llm.Initial.history + [Llm.Message(Llm.System, prompt)] == [Llm.SystemMessage, Llm.Message(Llm.System, prompt)];
  }
}
