/**
 * `get_effect_suggestion` and `get_transition_suggestion` (vid_edit.py:148-179):
 * ask the language model to pick one name from a catalog, keep the trimmed
 * reply when it names an entry, and otherwise pick a name at random.  A
 * failed request (`None`, whose `strip` raises inside the `try`) and an
 * unknown reply both end in the random pick; the random pick from an empty
 * catalog raises `IndexError`, which nothing catches.
 */
module Suggestions {
  import opened Wrappers
  import opened Text
  import opened Catalogs
  import Llm

  /** `f"Topic {n}"`. */
  function TopicLabel(n: nat): (l: string)
    ensures '\n' !in l
  {
    var digits := NatToString(n);
    assert forall k :: 0 <= k < |digits| ==> IsDigit(digits[k]);
    "Topic " + digits
  }

  /** Labels of different segments differ. */
  lemma TopicLabelInjective(m: nat, n: nat)
    requires m != n
    ensures TopicLabel(m) != TopicLabel(n)
  {
    assert DigitsValue(NatToString(m)) != DigitsValue(NatToString(n));
    assert TopicLabel(m)[6..] == NatToString(m) && TopicLabel(n)[6..] == NatToString(n);
  }

  // The first word of each head is its own literal so that proofs can read a prompt's first
  // character: the verifier does not index into a literal of this length directly.
  const EffectHead := "Given " + "a video segment with the following topic:\n"
  const EffectAsk := "Suggest the most suitable video effect from the following list:\n"
  const EffectTail := "\nRespond with only the name of the effect."
  const TransitionHead := "Given " + "two consecutive video segments with the following topics:\n1. "
  const TransitionSecond := "2. "
  const TransitionAsk := "Suggest the most suitable transition effect from the following list:\n"
  const TransitionTail := "\nRespond with only the name of the transition effect."

  /** The prompt of `get_effect_suggestion` (vid_edit.py:167-173). */
  function EffectPrompt(topic: string, names: seq<string>): string {
    EffectHead + topic + "\n" + (EffectAsk + JoinWith(", ", names) + EffectTail)
  }

  /** The prompt of `get_transition_suggestion` (vid_edit.py:150-157). */
  function TransitionPrompt(topic1: string, topic2: string, names: seq<string>): string {
    TransitionHead + topic1 + "\n" + (TransitionSecond + topic2 + "\n" + TransitionAsk + JoinWith(", ", names) + TransitionTail)
  }

  /** Two texts that differ in a newline-free field between a common head and a newline differ. */
  lemma DistinctField(head: string, t1: string, t2: string, rest1: string, rest2: string)
    requires t1 != t2 && '\n' !in t1 && '\n' !in t2
    ensures head + t1 + "\n" + rest1 != head + t2 + "\n" + rest2
  {
    var p1, p2 := head + t1 + "\n" + rest1, head + t2 + "\n" + rest2;
    if |t1| <= |t2| && t2[..|t1|] == t1 {
      assert |t1| < |t2|;
      var j := |head| + |t1|;
      assert p1[j] == '\n' && p2[j] == t2[|t1|];
    } else if |t2| <= |t1| && t1[..|t2|] == t2 {
      assert |t2| < |t1|;
      var j := |head| + |t2|;
      assert p2[j] == '\n' && p1[j] == t1[|t2|];
    } else {
      var k :| 0 <= k < |t1| && k < |t2| && t1[k] != t2[k];
      assert p1[|head| + k] == t1[k] && p2[|head| + k] == t2[k];
    }
  }

  /** The effect prompts of different segments differ (segment `m` asks about `Topic {m+1}`), so the cache never answers one segment with another's suggestion. */
  lemma EffectPromptsDistinct(m: nat, n: nat, names: seq<string>)
    requires m != n
    ensures EffectPrompt(TopicLabel(m + 1), names) != EffectPrompt(TopicLabel(n + 1), names)
  {
    TopicLabelInjective(m + 1, n + 1);
    var more := EffectAsk + JoinWith(", ", names) + EffectTail;
    DistinctField(EffectHead, TopicLabel(m + 1), TopicLabel(n + 1), more, more);
  }

  /** The transition prompts of different junctions differ: junction `m` joins `Topic {m+1}` to `Topic {m+2}`. */
  lemma TransitionPromptsDistinct(m: nat, n: nat, names: seq<string>)
    requires m != n
    ensures TransitionPrompt(TopicLabel(m + 1), TopicLabel(m + 2), names) != TransitionPrompt(TopicLabel(n + 1), TopicLabel(n + 2), names)
  {
    TopicLabelInjective(m + 1, n + 1);
    var list := JoinWith(", ", names);
    DistinctField(TransitionHead, TopicLabel(m + 1), TopicLabel(n + 1),
      TransitionSecond + TopicLabel(m + 2) + "\n" + TransitionAsk + list + TransitionTail,
      TransitionSecond + TopicLabel(n + 2) + "\n" + TransitionAsk + list + TransitionTail);
  }

  /** The reply kept as the suggestion: its trimmed text when that names an entry of the catalog. */
  function Accepted(reply: Option<string>, c: Catalog): (r: Option<string>)
    ensures r.Some? <==> reply.Some? && Trim(reply.value) in c.entries
    ensures r.Some? ==> r.value == Trim(reply.value) && r.value in c.entries
  {
    match reply
    case None => None
    case Some(text) => if Trim(text) in c.entries then Some(Trim(text)) else None
  }

  /**
   * Ask the client `prompt` and turn the reply into a name of `c`.  The
   * result is an entry of `c`; it is the accepted reply when there is one;
   * it is `IndexError` exactly when the catalog is empty, and the request is
   * made even then.
   */
  method Resolve(client: Llm.LlmClient, prompt: string, c: Catalog) returns (r: Result<string, Error>, ghost reply: Option<string>)
    requires client.Valid() && WellFormed(c)
    modifies client
    ensures client.Valid()
    ensures (client.State(), reply) == Llm.AskStep(old(client.State()), client.complete, prompt)
    ensures r.Err? <==> IsEmpty(c)
    ensures r.Err? ==> r.error == IndexError
    ensures r.Ok? ==> r.value in c.entries
    ensures Accepted(reply, c).Some? ==> r == Ok(Accepted(reply, c).value)
  {
    var answer := client.Ask(prompt);
    reply := answer;
    var accepted := Accepted(answer, c);
    if accepted.Some? {
      assert !IsEmpty(c) by {
        assert accepted.value in c.entries.Keys;
      }
      return Ok(accepted.value), reply;
    }
    if |c.names| == 0 {
      return Err(IndexError), reply;
    }
    assert c.names[0] in c.names;
    var pick :| pick in c.names;
    r := Ok(pick);
  }

  /** `get_effect_suggestion(topic, effects)`. */
  method GetEffectSuggestion(client: Llm.LlmClient, topic: string, effects: Catalog) returns (r: Result<string, Error>, ghost reply: Option<string>)
    requires client.Valid() && WellFormed(effects)
    modifies client
    ensures client.Valid()
    ensures (client.State(), reply) == Llm.AskStep(old(client.State()), client.complete, EffectPrompt(topic, effects.names))
    ensures r.Err? <==> IsEmpty(effects)
    ensures r.Err? ==> r.error == IndexError
    ensures r.Ok? ==> r.value in effects.entries
    ensures Accepted(reply, effects).Some? ==> r == Ok(Accepted(reply, effects).value)
  {
    r, reply := Resolve(client, EffectPrompt(topic, effects.names), effects);
  }

  /** `get_transition_suggestion(topic1, topic2, transitions)`. */
  method GetTransitionSuggestion(client: Llm.LlmClient, topic1: string, topic2: string, transitions: Catalog)
    returns (r: Result<string, Error>, ghost reply: Option<string>)
    requires client.Valid() && WellFormed(transitions)
    modifies client
    ensures client.Valid()
    ensures (client.State(), reply) == Llm.AskStep(old(client.State()), client.complete, TransitionPrompt(topic1, topic2, transitions.names))
    ensures r.Err? <==> IsEmpty(transitions)
    ensures r.Err? ==> r.error == IndexError
    ensures r.Ok? ==> r.value in transitions.entries
    ensures Accepted(reply, transitions).Some? ==> r == Ok(Accepted(reply, transitions).value)
  {
    r, reply := Resolve(client, TransitionPrompt(topic1, topic2, transitions.names), transitions);
  }
}
