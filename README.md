# query_processor in Dafny

A model of the three decision-making parts of the query_processor request pipeline, with proofs of what each promises:

- **Prompt selection** (`prompt_selector.py`, module `PromptSelector`). A query that is empty after trimming is rejected with a `ValueError`. Otherwise the query is lower-cased and scanned against three keyword lists in a fixed order: technical, then troubleshooting, then general. The first list with a substring hit gives the category; with no hit it is Unknown. The prompt is that category's template, then `"\n\nUser Query:\n"`, then the trimmed query and a line break. The scan is a `while` loop (`ScanRules`) proved against the specification function `FirstMatch`, which `Classify` applies to the lower-cased query.
- **Response formatting** (`ai_response.py`, module `ResponseParser`). An empty completion gives a fixed fallback message. Otherwise, for troubleshooting queries, the escalation advice is appended first. The result is then stripped and the fixed disclaimer appended. This is a pure function on strings.
- **Completion client** (`ai_client.py`, module `AIClient`). A blank prompt is refused without any call. Otherwise the chat service is asked up to `maxRetries` times, with a pause between attempts. A raised error, a missing message and empty content each count as a failed attempt. String content is returned as is; segment lists are joined in order. Once the budget is used up, the client raises with the last attempt's error. The service is an oracle `chat: nat -> Outcome`, where `chat(k)` is what the call at attempt `k + 1` does. The method returns the result together with the trace of calls and pauses it made, and both are proved exactly: which attempt wins, how many calls, how many pauses.

Two shared modules support them:
- `Text` holds the Python string operations the pipeline uses: `str.isspace`, `str.strip`, `str.lower`, and the substring test `needle in text`.
- `Wrappers` holds `Option` and `Result`.

Two edge cases of the client, as the code has them:
- With `max_retries <= 0` the code makes no call and raises "Unknown error occurred in Cohere AI client." (`AIClient.GetAIResponse`, `AIClient.AttemptsWithinBudget`).
- Content is only checked for emptiness before it is joined, so a non-empty list of empty segments is accepted and yields `""` (`AIClient.EmptySegmentsReturnEmpty`).

## Model

| member | source | states |
|---|---|---|
| Text.Strip | prompt_selector.py:103 | the result is a slice of the input with only whitespace cut on either side; it neither starts nor ends with whitespace; it is empty exactly when the input is blank |
| Text.StripIdempotent | ai_response.py:41 | stripping twice is stripping once |
| Text.StripAppend | ai_response.py:38-41 | after appending text ending in a non-space to a non-blank string, stripping removes only the leading whitespace |
| Text.StripBlankPrefix | ai_response.py:38-41 | a blank prefix disappears under stripping |
| Text.Lower | prompt_selector.py:91 | lower-casing keeps the length and maps each character; no upper-case letter survives, and letters stay letters |
| Text.LowerIdempotent | prompt_selector.py:91 | lower-casing twice is lower-casing once |
| Text.ContainsIffOccurs | prompt_selector.py:97 | the substring test holds exactly when the needle occurs at some index |
| Text.NotContainsAcrossLineBreak | ai_response.py:41 | a needle without line breaks, absent from both parts, is absent from their concatenation when the second part starts with a line break |
| PromptSelector.GeneratePrompt | prompt_selector.py:88-105 | fails with ValueError("User query is empty or None.") exactly for a blank query; otherwise returns the category of the first rule with a keyword hit in the lower-cased query and the prompt built from that category's template and the trimmed query |
| PromptSelector.FirstMatch | prompt_selector.py:92-99 | a category other than Unknown is that of a rule with a keyword in the text; with no rule hitting, the result is Unknown |
| PromptSelector.Classify | prompt_selector.py:91-99 | a known category has a keyword of its own list in the lower-cased query; a query with no keyword of any list in its lower-cased form is Unknown |
| PromptSelector.BuildPrompt | prompt_selector.py:102-103 | the prompt starts with the category's own template, holds the trimmed query verbatim right after the "User Query:" header, and ends with it and a line break |
| PromptSelector.ScanRules | prompt_selector.py:92-99 | the loop over the rules, stopping at the first list with a hit, gives exactly the category `FirstMatch` specifies |
| PromptSelector.TemplateFor | prompt_selector.py:102 | every category has a template, and the lookup returns that category's own template, so the fallback never applies |
| PromptSelector.TemplatesCoverEveryCategory | prompt_selector.py:28-44 | all four categories, Unknown included, are keys of the template table |
| PromptSelector.FirstMatchIsFirstHit | prompt_selector.py:96-99 | the scan returns the category of the first rule whose keyword list has a hit |
| PromptSelector.FirstMatchUnknown | prompt_selector.py:92-99 | with no rule for Unknown, the scan gives Unknown exactly when no rule has a hit |
| PromptSelector.ClassifyByPriority | prompt_selector.py:46-99 | each category holds, in both directions, exactly when its list hits the lower-cased query and no earlier list does; Unknown exactly when no list hits |
| PromptSelector.TechnicalWinsTies | prompt_selector.py:47-62 | a query containing both "how do i" and "error" is Technical |
| PromptSelector.ClassifyIgnoresCase | prompt_selector.py:91-97 | a query and its lower-cased form get the same category |
| PromptSelector.KeywordInsideWord | prompt_selector.py:97 | matching is plain substring search: "PREFIX" is Troubleshooting through "fix" |
| ResponseParser.ParseResponse | ai_response.py:22-43 | the empty completion gives the fallback message; every other completion gives an answer ending with the disclaimer |
| ResponseParser.FallbackExactlyForEmpty | ai_response.py:33-34 | the fallback message is the answer exactly when the completion is empty, whatever the category |
| ResponseParser.AnswerFramesStrippedResponse | ai_response.py:37-41 | a non-empty completion's answer starts with and contains the stripped completion and ends with the disclaimer |
| ResponseParser.TroubleshootingEscalates | ai_response.py:37-41 | for troubleshooting, the answer is the left-trimmed completion, the escalation note and the disclaimer (just the advice and the disclaimer when the completion is blank); it contains the advice and ends with the disclaimer |
| ResponseParser.StripEscalationNote | ai_response.py:38 | stripping the escalation note leaves exactly the advice |
| ResponseParser.OtherCategoriesOnlyTrim | ai_response.py:33-41 | for other categories, the answer is the stripped completion followed by the disclaimer; a whitespace-only completion gives only the disclaimer |
| ResponseParser.NoEscalationUnlessEchoed | ai_response.py:37-41 | outside troubleshooting, the advice appears in the answer only if the completion itself contains it |
| ResponseParser.DisclaimerLacksEscalation | ai_response.py:18-20 | the disclaimer does not contain the escalation advice |
| AIClient.NewClient | ai_client.py:24-48 | the argument key is used unless empty, else the environment's; with neither, construction fails; the settings are kept as given, defaulting to the source's model name, three retries and a one-second delay |
| AIClient.HasContent | ai_client.py:90 | content passes the check exactly when it is present and neither the empty string nor the empty list |
| AIClient.IsUsable | ai_client.py:84-91 | a raised error is never accepted; a reply is accepted exactly when its content is present and neither the empty string nor the empty list |
| AIClient.Join | ai_client.py:97-98 | a single segment is returned as it is, and the join starts with the first segment's text |
| AIClient.JoinPlacesSegments | ai_client.py:97-98 | each segment's text occurs in the join right after the texts of the segments before it |
| AIClient.Normalise | ai_client.py:96-101 | string content is returned unchanged; list content gives each segment's text in its place, in order |
| AIClient.AttemptCount | ai_client.py:71-110 | every call but the last failed; the last is usable unless it used up the budget; at most `max_retries` calls, and none exactly when the budget is not positive |
| AIClient.FirstUsable | ai_client.py:71-101 | finds the first attempt within the budget whose call gives a reply with content; none exactly when every attempt fails |
| AIClient.GetAIResponse | ai_client.py:66-113 | a blank prompt fails with EmptyPrompt after no call; otherwise the trace is exactly the attempts made, the result succeeds exactly when some attempt in the budget is usable, the first usable reply's normalised content is returned, and otherwise it fails with RetriesExhausted carrying the budget and the last attempt's error, or UnknownError when the budget is not positive |
| AIClient.SucceedsAfterFailures | ai_client.py:71-106 | k failed attempts followed by a usable one within the budget: the client stops there after k + 1 calls |
| AIClient.GivesUpAfterBudget | ai_client.py:103-110 | when every attempt fails, the whole positive budget is used; with no budget, no call is made |
| AIClient.AttemptsWithinBudget | ai_client.py:71 | never more calls than max_retries; at least one when the budget is positive; none when it is not |
| AIClient.FirstAttemptSucceeds | ai_client.py:84-101 | a usable first reply is returned after exactly one call and no pause |
| AIClient.TraceShape | ai_client.py:71-106 | n attempts are 2n - 1 events alternating call and pause, each call sending the model and the prompt as one user message |
| AIClient.TraceCounts | ai_client.py:103-106 | n attempts make exactly n calls and n - 1 pauses, and no pause follows the last call |
| AIClient.EmptyReplyFailsLikeRaise | ai_client.py:90-110 | replacing a reply without content by a raise of "Empty response from Cohere." at the same attempt changes neither the attempts made nor the client's result and trace |
| AIClient.JoinAppend | ai_client.py:97-98 | joining concatenated segment lists concatenates their joins, so segment order is kept |
| AIClient.EmptySegmentsReturnEmpty | ai_client.py:90-98 | a list of one empty segment passes the content check and yields the empty text, while an empty string does not pass |
| AIClient.RecoversOnSecondAttempt | ai_client.py:71-106 | one raised error and then a good reply, with three attempts allowed: the second attempt wins after one pause |
| AIClient.Decimal | ai_client.py:109 | the attempt count is written as a non-empty string of decimal digits |
| AIClient.DecimalRoundTrip | ai_client.py:109 | reading those digits back gives the number |
| AIClient.ErrorMessage | ai_client.py:109-113 | every error has a non-empty message; the give-up message starts with "Cohere Chat API failed after " and ends with "Last error: " and the last error's text |
| AIClient.ExhaustedMessageNamesAttemptsAndError | ai_client.py:109-110 | the give-up message carries the attempt count right after its fixed opening and ends with "Last error: " and the last error's text |

## Left out

- main.py, logger.py and train_query_classifier.py are not part of this model: they are command-line I/O, file logging with timestamps, and model training with a foreign numeric library.
- The model-based classifier that tests/test_prompt_selector.py expects is not in the source; only the keyword rules are modelled.
- Text.Lower: lower-cases only ASCII letters. Python's `str.lower` also maps non-ASCII letters, and U+0130 and U+212A even become ASCII letters; keywords are ASCII, so only such characters could change a match.
- Text.Strip: whitespace is Python's `str.isspace` set, given as a fixed list of code points; no Unicode database is consulted.
- PromptSelector.GeneratePrompt: a `None` query is not representable; the model takes a string, and its empty-string case stands for the `not user_query` test.
- The enum values of `QueryCategory` ("technical", ...) are not modelled: nothing in the core reads them.
- AIClient.NewClient: `load_dotenv` and `os.getenv` become the `envApiKey` parameter; the `cohere.ClientV2` object is not built, since the service is the `chat` oracle.
- AIClient.GetAIResponse: the chat call does not depend on model and prompt in the oracle; the trace records what each call sends instead. The pause is recorded with its duration but not performed.
- AIClient.GetAIResponse: the "from last_err" exception chaining is not modelled; the error carries the last error's text only.
- AIClient.Normalise: segment objects without a `.text` field, or with a non-string one, are not modelled; segments are their texts.
- AIClient.GetAIResponse: the text of a raised exception (`str(e)`) is given by the oracle as the `Raised` message.
