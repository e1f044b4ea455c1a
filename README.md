# yt-video-editor, modelled in Dafny

This project models the editing core of `yt-video-editor`. The core takes the transcript of a video and asks a language model to divide it into topics. It cuts one segment per topic and asks the model for an effect for each segment. It then joins the segments, asking the model for a transition at each junction, and writes the final video. Every model request goes through a memoising client. The client keeps one process-wide prompt cache and one conversation history.

Modules, one per concern of `vid_edit.py` and `llm/llama.py`:

- `Text`: Python's `str.strip`, `str.split('\n')`, `', '.join` and decimal formatting of integers.
- `Topics`: `parse_topics`. It covers the anchored pattern `(\d+(\.\d+)?) - (\d+(\.\d+)?)`, the blank-line test and `float` on the two groups.
- `Catalogs`: `load_transitions` and `load_effects`. A catalog is a dict, with key order and last-write-wins.
- `Dispatch`: `apply_effect` and `apply_transition`. Each is gated on the catalog entry and on `hasattr`, whose answers are the parameter `implemented`. `apply_effect` asks the class `VideoEffects`, which holds the effect methods. `apply_transition` asks the module `transitions.transitions` (vid_edit.py:10), whose top-level names are its imports and the class `TransitionEffects`, not the `*_transition` methods inside that class. With the shipped modules no transition method name passes the gate, so `Assembly.FallbackRepeatsSegments` describes what a run with such a catalog produces.
- `Llm`: `LLM` with its `cache` and `messages`, as a class `LlmClient` over an abstract collaborator. The collaborator returns an answer, or `None` when the request fails. Every method is proved against the pure step function `AskStep`.
- `LlmAsWritten`: the same client as the code is written, where `messages` is a dict (see Findings).
- `Suggestions`: `get_effect_suggestion` and `get_transition_suggestion`. The trimmed reply is used when it names an entry; otherwise `random.choice` picks one, and that raises `IndexError` on an empty catalog.
- `Segments`: `process_video_segments`. It is a loop with invariants over the requests made, the choices taken and the files written.
- `Assembly`: `create_final_video`. It is a loop proved against the pure `Assemble`.
- `Pipeline`: `divide_transcription_into_topics` and the gating of `process_video`.

Exceptions that escape the modelled code are values of `Wrappers.Error`:

- `IndexError`
- `KeyError(key)`
- `AttributeError`

Behaviour of the code worth knowing (this model follows the code):

- Topic lines are not checked for `start < end`. A reversed range is kept (`Topics.ReversedRangeAccepted`).
- The match is anchored at the start of the line. A labelled line such as `Intro: 0.0 - 10.0` yields no topic (`Topics.LabelledListingYieldsNothing`). The bulleted format the topics prompt itself asks for yields none either (`Topics.BulletedLineYieldsNothing`).
- An empty effect catalog does not pass the clips through. The first segment's `random.choice([])` raises `IndexError` and ends the run (`Segments.NoEffects`, `Pipeline.ProcessVideo`).
- With the list-based client (see Findings), a collaborator that always fails does not lead to a finished video. The failed topics request returns `None`, and `parse_topics(None)` raises `AttributeError` (`Pipeline.ProcessVideo`). With the client as written, no request is ever sent. The topics call raises `AttributeError` at llm/llama.py:24, `divide_transcription_into_topics` catches it and returns `""`, and the run stops at "No valid topics found" (`Pipeline.AsWrittenFindsNoTopics`).
- A chosen transition whose name is not implemented falls back to both segment files. The earlier segment therefore plays twice: once at the end of the accumulated clip and once in the fallback (`Assembly.FallbackRepeatsSegments`).

## Model

| member | source | states |
|---|---|---|
| Text.TrimStart | vid_edit.py:120 | the result is a suffix of the input, everything removed is Python whitespace, and the result is empty or starts with a non-space |
| Text.TrimEnd | vid_edit.py:159 | the result is a prefix of the input, everything removed is Python whitespace, and the result is empty or ends with a non-space |
| Text.BlankIffAllSpace | vid_edit.py:120 | a line is skipped (`not topic.strip()`) exactly when every character of it is whitespace |
| Text.Split | vid_edit.py:119 | `split('\n')` gives at least one piece, and no piece contains a newline |
| Text.JoinSplit | vid_edit.py:119 | joining the pieces with newlines gives the text back |
| Text.SplitJoin | vid_edit.py:119 | splitting newline-free lines joined with newlines gives the same lines back |
| Text.NatToString | vid_edit.py:209 | the decimal form of `n` is non-empty, all digits, and has the value `n` |
| Text.NatToStringInjective | vid_edit.py:212 | different indices have different decimal forms |
| Topics.NumberLengthSound | vid_edit.py:121 | what one group `(\d+(\.\d+)?)` consumes at the start of a text is a number: digits, optionally a point and digits |
| Topics.NumberLengthCovers | vid_edit.py:121 | the group is greedy: it consumes at least any number the text starts with, and exactly that number when a space follows it |
| Topics.MatchPair | vid_edit.py:121 | `re.match` of the pattern: when it matches, both groups are non-empty and group 1 is where the line begins (the match is anchored); `MatchPairSound` and `MatchPairComplete` characterise it fully |
| Topics.MatchPairSound | vid_edit.py:121 | when the pattern matches, the line starts with group 1, then ` - `, then group 3, and both groups are numbers |
| Topics.MatchPairComplete | vid_edit.py:121 | every line that starts with `a - b` for numbers `a` and `b` matches, with group 1 equal to `a` and group 3 extending `b` |
| Topics.MatchedLineParses | vid_edit.py:120-125 | every matching line yields the topic of its two converted groups; `float` never fails on them, so the `ValueError` branch is unreachable |
| Topics.ParseDecimal | vid_edit.py:124 | `float` on a captured group: it succeeds only on a text that starts with a digit, and the value is never negative; `NumberFormParses` shows it succeeds on every group |
| Topics.NumberFormParses | vid_edit.py:124 | `float` succeeds on every text of the number form |
| Topics.ParseLine | vid_edit.py:120-127 | one pass of the loop: a line yields a topic only when it is not blank and the pattern matches, and both times are non-negative (the pattern admits no sign); `MatchedLineParses` gives the converse |
| Topics.LeadingTextYieldsNothing | vid_edit.py:121 | a line that does not start with a digit yields no topic, because `re.match` is anchored |
| Topics.Present | vid_edit.py:125 | the kept topics are the present results, in line order |
| Topics.ParseTopics | vid_edit.py:117-128 | the loop returns the topics of the newline-split text, in line order |
| Topics.TopicsOfAppend | vid_edit.py:119-125 | the topics of two listings one after the other are the topics of the first followed by those of the second |
| Topics.InertLine | vid_edit.py:120-122 | a line that yields nothing does not change what the lines around it yield |
| Topics.BulletedLineYieldsNothing | vid_edit.py:103-107 | the `- Label: start - end` format the topics prompt asks for, and a line with a leading space, yield no topic |
| Topics.PairLineParses | vid_edit.py:121-125 | a line that is exactly `a - b` yields the topic with start `a` and end `b` |
| Topics.ReversedRangeAccepted | vid_edit.py:124-125 | `20 - 10` yields start 20 and end 10: the order of the times is not checked |
| Topics.WholeNumberParses | vid_edit.py:124 | a two-digit number without a fraction converts to its integer value |
| Topics.LabelledListingYieldsNothing | vid_edit.py:119-128 | the listing `Intro: 0.0 - 10.0` / `Body: 10.0 - 40.0` yields no topic |
| Catalogs.Insert | vid_edit.py:134 | a dict assignment keeps each key once in the key order and sets the entry of that key; an existing key keeps its place in the key order, a new key goes to its end (the order the prompts list the names in, vid_edit.py:155/171) |
| Catalogs.FromEntries | vid_edit.py:134 | the comprehension succeeds exactly when every entry has a name; the keys are the names, and each name maps to its last entry |
| Catalogs.Load | vid_edit.py:130-146 | the loaded catalog is always a well-formed dict; a file that cannot be read, or one without the section or whose section is not an array, gives `{}`; a section whose entries all have names gives the dict `FromEntries` builds, each name mapped to its last entry |
| Catalogs.LoadTransitions | vid_edit.py:130-137 | `load_transitions` reads the `transitions` section: a well-formed dict; `{}` when the file cannot be read or has no such section; the dict `FromEntries` builds when every entry has a name |
| Catalogs.LoadEffects | vid_edit.py:139-146 | `load_effects` reads the `effects` section: a well-formed dict; `{}` when the file cannot be read or has no such section; the dict `FromEntries` builds when every entry has a name |
| Catalogs.LastWriteWins | vid_edit.py:134 | of two entries with the same name, the later one is kept |
| Catalogs.NamelessEntryEmptiesCatalog | vid_edit.py:134-137 | one entry without a name makes the whole catalog `{}` |
| Dispatch.ApplyEffect | vid_edit.py:193-201 | the clip comes back unchanged exactly when the effect is not usable; `KeyError('description')` exactly when it is usable and has no description; otherwise the effect is laid on the clip |
| Dispatch.EffectKeepsCut | vid_edit.py:193-201 | an applied effect never changes which cut of the input the clip shows |
| Dispatch.ApplyTransition | vid_edit.py:181-191 | both segment files come back exactly when the transition is not usable; `KeyError` for the first missing key exactly when it is usable and incomplete; otherwise the transition's output file |
| Llm.AskStep | llm/llama.py:16-42 | a hit returns the cached answer and changes nothing; the cache only grows and never changes an answer; a returned answer is the one now cached; the history only grows; at most one request is sent |
| Llm.MissThenSuccess | llm/llama.py:21-39 | a miss with a successful request returns the answer, caches it, appends the prompt and the answer to the history, and counts one request |
| Llm.MissThenFailure | llm/llama.py:40-42 | a miss with a failed request returns `None`, leaves the cache unchanged, and leaves the prompt in the history |
| Llm.AskStepConsistent | llm/llama.py:16-42 | a call keeps the client consistent: the history starts with the system message and grows by one per request and one per answer, and every cached answer is the one recorded for its prompt |
| Llm.AskTwice | llm/llama.py:18-19 | once a prompt has been answered, asking it again returns the same answer, sends no request and changes nothing |
| Llm.AskAll | llm/llama.py:14-42 | over a run, the cache grows only by prompts asked and keeps its answers, and consistency is kept; with a collaborator that never fails, the requests sent equal the prompts newly cached |
| Llm.ConversationEndsInAskAll | llm/llama.py:14-42 | a recorded run of calls ends in the state of asking its prompts one after another |
| Llm.ConversationSnoc | llm/llama.py:16-42 | a call made in the last state of a recorded run of calls extends that run by its prompt, its reply and its new state |
| Llm.AtMostOneRequestPerPrompt | llm/llama.py:18-38 | with a collaborator that never fails, a run sends at most one request per distinct prompt |
| Llm.LlmClient.constructor | llm/llama.py:9-14 | the import-time state: empty cache, the system message alone in the history |
| Llm.LlmClient.Ask | llm/llama.py:16-42 | the new cache, history and return value are those of `AskStep`, and the client stays consistent |
| LlmAsWritten.AskAsWritten | llm/llama.py:16-24 | on the code as written, a call returns only on a cache hit; on a miss it raises `AttributeError` and the cache is unchanged |
| LlmAsWritten.AskAllAsWritten | llm/llama.py:16-24 | one outcome per call |
| LlmAsWritten.EveryCallRaises | llm/llama.py:9-24 | from the import-time cache, every call of a run raises `AttributeError` |
| LlmAsWritten.FirstCallDiffers | llm/llama.py:9-24 | for a collaborator that answers, the first call raises on the code as written and returns the answer on the list-based client |
| Suggestions.TopicLabel | vid_edit.py:209 | `Topic {n}` contains no newline |
| Suggestions.TopicLabelInjective | vid_edit.py:209 | different numbers give different labels |
| Suggestions.EffectPromptsDistinct | vid_edit.py:165-173 | `EffectPrompt`, the f-string of `get_effect_suggestion`, is injective in the topic: the effect prompts of two different segments differ, so the cache never answers one segment with another's suggestion |
| Suggestions.TransitionPromptsDistinct | vid_edit.py:148-157 | `TransitionPrompt`, the f-string of `get_transition_suggestion`, is injective in the pair of topics: the transition prompts of two different junctions differ |
| Suggestions.Accepted | vid_edit.py:175-176 | the trimmed reply is accepted exactly when there is a reply and its trimmed form is a key of the catalog |
| Suggestions.Resolve | vid_edit.py:174-179 | one request is made; the result is a key of the catalog, and it is the accepted reply when there is one; `IndexError` exactly when the catalog is empty |
| Suggestions.GetEffectSuggestion | vid_edit.py:165-179 | `Resolve` on the effect prompt of the topic, with the catalog's key order in the prompt |
| Suggestions.GetTransitionSuggestion | vid_edit.py:148-163 | `Resolve` on the transition prompt of the two topics |
| Segments.PathJoin | vid_edit.py:212 | `os.path.join(dir, name)` ends with `name` |
| Segments.PathJoinInjective | vid_edit.py:212 | one directory joined to two different names gives two different paths |
| Segments.SegmentPaths | vid_edit.py:212-214 | `n` topics give `n` paths |
| Segments.SegmentPathAt | vid_edit.py:212-214 | path `i` in the returned list is `segment_{i}.mp4` in the output directory |
| Segments.SegmentPathInjective | vid_edit.py:212 | different segments are written to different files, so no segment overwrites another |
| Segments.FinalPathDistinct | vid_edit.py:227 | the final video never overwrites a segment file |
| Segments.EffectPromptAt | vid_edit.py:205-209 | request `i` of the loop asks about `Topic {i+1}` |
| Segments.EffectPromptsAllDistinct | vid_edit.py:205-209 | the requests of one run are pairwise different prompts |
| Segments.WrittenStep | vid_edit.py:205-214 | one iteration extends the requests, choices, clips and paths by the segment's own |
| Segments.DressSegment | vid_edit.py:206-214 | one iteration: one request; the next path and clip on success, the exception that ends the loop otherwise |
| Segments.ProcessVideoSegments | vid_edit.py:203-215 | request `i` is the effect prompt of `Topic {i+1}` in order through the client; choice `i` follows the reply; clip `i` is the topic's cut with the effect applied; the returned paths are `segment_0` .. `segment_{n-1}`; no topics return `[]` with no request, whatever the catalog; an empty catalog raises `IndexError` after one request and before any file; a usable effect without a description raises `KeyError` after the segments before it |
| Segments.WrittenNothing | vid_edit.py:204 | before the loop nothing was asked or written |
| Segments.NoEffects | vid_edit.py:209 | with an empty effect catalog the first iteration raises `IndexError` after its request |
| Segments.BadEntry | vid_edit.py:210 | a usable effect without a description ends the loop with `KeyError('description')` |
| Segments.AllWritten | vid_edit.py:215 | after every iteration the paths returned are all the segment paths |
| Assembly.Assemble | vid_edit.py:217-225 | no segments raise `IndexError`; a finished clip starts with the first segment file |
| Assembly.AssembleIgnoresLaterChoices | vid_edit.py:219-223 | choices past the last junction reached do not change the clip |
| Assembly.WithoutTransitions | vid_edit.py:224-225 | with an empty transition catalog the final video plays every segment once, in order |
| Assembly.FallbackRepeatsSegments | vid_edit.py:189-191 | when no chosen transition is usable, the clip has `2n - 1` entries and entry `j` is segment `j / 2` |
| Assembly.TransitionsReplaceJunctions | vid_edit.py:183-188 | when every chosen transition is usable and complete, the clip is the first segment followed by each junction's output file |
| Assembly.FailureIsIncompleteEntry | vid_edit.py:183-186 | a failed assembly means a non-empty catalog and a junction whose usable transition lacks a key |
| Assembly.FailureIsKeyError | vid_edit.py:184-186 | a failed assembly of a non-empty list fails with `KeyError` |
| Assembly.TransitionPromptAt | vid_edit.py:219-221 | junction `k` asks about `Topic {k+1}` and `Topic {k+2}` |
| Assembly.TransitionPromptsAllDistinct | vid_edit.py:219-221 | the transition requests of one run are pairwise different prompts |
| Assembly.JoinPlain | vid_edit.py:224-225 | without transitions a junction appends the next segment file and asks nothing |
| Assembly.JoinTransition | vid_edit.py:220-223 | with transitions a junction asks the next transition prompt and appends what `apply_transition` returns for the choice |
| Assembly.JoinWithTransition | vid_edit.py:221-223 | one junction with transitions: the request and the choice are recorded, and the clip grows or the assembly error is returned |
| Assembly.StoppedAtStart | vid_edit.py:218 | an empty segment list raises `IndexError` before any request |
| Assembly.JoinedFirst | vid_edit.py:218 | the clip starts as the first segment file |
| Assembly.CreateFinalVideo | vid_edit.py:217-229 | the run asks one transition prompt per junction reached, in order, and none with an empty catalog; its result is `Assemble` of the segments reached; a failure stops the run at the first failing junction, after whose request nothing more is asked (the segments before it assembled without error); on success every segment was reached and the output is `final_video_with_transitions.mp4` in the output directory |
| Pipeline.DividePromptInjective | vid_edit.py:99-109 | `DividePrompt`, the fixed instructions followed by the transcript, is injective: different transcripts give different topics prompts |
| Pipeline.DividePromptIsNoSuggestion | vid_edit.py:99-109 | the topics prompt is never an effect or transition prompt, so the cache never mixes them up |
| Pipeline.DivideTranscription | vid_edit.py:98-115 | with the list-based client, one call of `LLM`, whose reply (`None` on failure) is the result |
| Pipeline.DivideAsWritten | vid_edit.py:110-115 | on the code as written, a prompt that is not cached yields `""`, because the raised exception is caught |
| Pipeline.AsWrittenFindsNoTopics | vid_edit.py:35-41 | on the code as written, the topics text of every run yields no topic, so the run stops before any segment |
| Pipeline.SegmentsOutcome | vid_edit.py:52 | for a non-empty topic list, an empty effect catalog gives `IndexError`; effects that all have descriptions give the segment paths; when no media call raises, any error is `IndexError` or `KeyError` |
| Pipeline.AssemblyOutcome | vid_edit.py:53 | when no media call raises, assembling a non-empty list fails only with `KeyError`, and never when every transition entry is complete |
| Pipeline.Produce | vid_edit.py:43-53 | once topics were found, and when no media call raises: an empty effect catalog aborts with `IndexError`; an empty transition catalog does not stop the run, and the video then plays every segment once; complete catalogs finish with the segment paths and the final path |
| Pipeline.ProcessVideo | vid_edit.py:24-53 | no transcript stops the run before any request; otherwise exactly the topics request is made first; a failed reply aborts with `AttributeError`; a reply without topics stops with nothing more asked; past that the run ends as `Produce` states, with the loaded catalogs |

## Left out

- Audio extraction, speech recognition and translation (vid_edit.py:55-96) are foreign calls. The transcript and its translation are parameters of `Pipeline.ProcessVideo`.
- The output directory creation (`os.makedirs`) and the logging are not modelled.
- Video decoding, cutting, effect rendering and file writing belong to a media library. Footage is the cut it came from plus the effects laid on it. An assembled clip is the list of files it reads, in order. `subclip` bounds are not checked against the video's length.
- Media calls are assumed to succeed. These are `VideoFileClip` (vid_edit.py:51, 188, 191, 218, 225), `subclip` (207), the effect function (198), the transition function `transition_func(clip1_path, clip2_path)` (187), `concatenate_videoclips` (191, 223, 225) and `write_videofile` (213, 228). In the source, an exception from any of them propagates out of `process_video` (vid_edit.py:52-53) and aborts the run. The model has no such outcome, so the error sets that `Pipeline.SegmentsOutcome`, `Pipeline.AssemblyOutcome` and `Pipeline.Produce` state hold only when no media call raises. One case the source admits: `hasattr(transitions, name)` also accepts the imports of `transitions/transitions.py` (`fadein`, `scroll`, `np`, ...). A usable entry naming one of them calls that import with two path strings, which may raise. The model instead returns the entry's output file.
- The effect and transition implementations live in `effects/effects.py` and `transitions/transitions.py`. They are not part of this model. Which names they provide (`hasattr`) is the parameter `implemented`, so a name such as `__class__` that `hasattr` also accepts is covered only through that parameter.
- The Groq request is the abstract collaborator `Llm.Collaborator`. It answers the whole conversation, or gives `None` for any exception. A response whose content is `None` is not modelled.
- Llm.LlmClient.Ask: the five-second `time.sleep` before each request is not modelled.
- The decoded JSON configuration is the `Document` datatype. Only the fields the pipeline reads are kept (name, description, output file), and names are strings. A malformed JSON file is a file that cannot be read. An entry whose name is not a string (e.g. `3`) is not representable: in the source such a catalog loads, and then `', '.join` of the key list raises `TypeError` while the prompt is built (vid_edit.py:155 or 171), before the `try`, which aborts the run.
- `float` is modelled as the exact decimal value of the matched text. Binary floating-point rounding is not modelled.
- `\d` is modelled as the ASCII digits. Python also accepts other Unicode decimal digits.
- `random.choice` is a nondeterministic choice of some name of the catalog. Its distribution is not modelled.
- Pipeline.Produce: states how the run ends, not which requests it makes. `Segments.ProcessVideoSegments` and `Assembly.CreateFinalVideo` state those.

## Findings

| source | as written | input that shows it | evidently intended | confidence | as-written member | corrected member |
|---|---|---|---|---|---|---|
| llm/llama.py:9-24 | `messages` is created as a dict, and `messages.append` at line 24 runs before the `try`. Every call that misses the cache raises `AttributeError`, and nothing is ever cached. `divide_transcription_into_topics` turns this into `""`, so every run stops at "No valid topics found". | the first call of any run, e.g. the topics prompt for any non-empty transcript | `messages` is a list that starts with the system message; a miss appends the prompt, asks the collaborator, and appends and caches a successful answer | high, not executed | LlmAsWritten.FirstCallDiffers | Llm.LlmClient.Ask |
