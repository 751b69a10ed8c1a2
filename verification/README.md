# UMLBot core, modelled in Dafny

UMLBot turns a free-text description into a PlantUML diagram. A language
model drafts the PlantUML code. The web app cleans the reply of Markdown
code fences. It then encodes the code for a PlantUML server URL
(UTF-8, raw deflate, base64, then the PlantUML URL alphabet), fetches the
PNG and shows it. A failed step shows a placeholder image and adds a
note to the status line. A chat turn revises the code: the user's
suggestion and a follow-up message holding the current code are added to
the history, which is sent to the model as messages, and the reply is
appended. The drafting handler validates prompt templates, renders the
prompt and calls the model once. A bounded retry engine reruns a failing
operation and reports each failure to a correction callback. A stub API
endpoint gives one constant label per input text.

The project has one module per concern:

- `Outcomes` holds `Option`, Python exceptions (`Exception(kind, message)`)
  and `Raises<T>`, a call that returns a value or raises.
- `Text` models Python's whitespace set and `str.strip()`, substring
  containment (`in`) and subsequences.
- `PlantUmlEncoding` models `_plantuml_encode`. Deflate is a function
  parameter. Base64 follows section 4 of RFC 4648 and UTF-8 follows
  RFC 3629. Each encoding step has a decoder that inverts it, used as its
  reference partner.
- `FenceStrip` models the clean-up of line 96 as a left-to-right scan. At
  each offset it tries the pattern, either deleting the longest match or
  copying one character.
- `Template` models `str.format` with keyword arguments. It holds a
  parse-then-fill reference reading of it and the unparser that inverts
  the parse.
- `DraftHandler` models `UMLDraftHandler`'s template validation,
  `construct_prompt` and `process`. The handler's source is not part of
  this model. Its behaviour follows its tests, and three details the tests
  leave open are the model's own choices (see "## Left out").
- `Retry` models `GenericErrorHandler.run`. Its source is not part of this
  model either, so its behaviour is the one the integration tests fix.
- `Generation` models `generate_diagram`, `on_generate` and `on_rerender`.
  The configuration, the handler's collaborators, the model, deflate, the
  HTTP GET and the PNG decoder are parameters.
- `ChatRevision` models `on_chat_submit`.
- `Categorize` models `process_categorize` and its `ExampleRequest`
  payload.
- `Scenarios` replays the repository's tests against the model.

External calls are functions from a state to a result and the next
state: the language model, the chat model and a test's operation. This
makes "exactly one call" and "at most `max_retries` calls" statements
about that state. A Python exception is a `Raised` value, and an HTTP
error of the endpoint is an `HttpError` value.

Where the code and a reading of its intent part, the model follows the
code:

- The fence clean-up is not idempotent: `FenceStrip.StripFencesNotIdempotent`.
- `construct_prompt` and `process` do not validate the template. The
  unit tests run them with a prompt object whose template has no
  placeholders.
- The validator rejects with `ValueError`, which is the exception the
  tests expect.

## Model

| member | source | states |
|---|---|---|
| Text.Strip | app/gradio_app.py:96 | `str.strip()`: the result has no whitespace at either end and is no longer than the input |
| Text.StripDecomposition | app/gradio_app.py:96 | the input is whitespace, then the stripped text, then whitespace: strip removes only whitespace, and only at the ends |
| Text.StripTrimmed | app/gradio_app.py:96 | a text with no whitespace at its ends is left as it is |
| Text.StripIdempotent | app/gradio_app.py:96 | stripping twice is stripping once |
| Text.StripFixedIff | app/gradio_app.py:175 | a text is its own strip exactly when neither end is whitespace |
| Text.StripIsSubsequence | app/gradio_app.py:175 | the stripped text keeps the input's characters in order |
| PlantUmlEncoding.Translate | app/gradio_app.py:48-52 | the translation keeps the length and maps each character on its own through the table |
| PlantUmlEncoding.Untranslate | app/gradio_app.py:48-52 | the reverse table, applied character by character, keeps the length |
| PlantUmlEncoding.TranslateTable | app/gradio_app.py:48-52 | the i-th character of `A-Za-z0-9+/` goes to the i-th of `0-9A-Za-z-_` and back; `=` passes unchanged both ways |
| PlantUmlEncoding.UntranslateTranslate | app/gradio_app.py:48-52 | on base64 text (padding included), the reverse table recovers the text |
| PlantUmlEncoding.TranslateInjective | app/gradio_app.py:48-52 | two base64 texts with the same translation are equal |
| PlantUmlEncoding.Base64Encode | app/gradio_app.py:45 | n bytes encode to 4·⌈n/3⌉ characters |
| PlantUmlEncoding.Base64Alphabet | app/gradio_app.py:45 | every character of the encoding is a base64 digit or `=` |
| PlantUmlEncoding.Base64Padding | app/gradio_app.py:45 | exactly the last (3 − n mod 3) mod 3 characters are `=` |
| PlantUmlEncoding.Base64RoundTrip | app/gradio_app.py:45 | decoding the encoding gives back the bytes |
| PlantUmlEncoding.Utf8Encode | app/gradio_app.py:43 | each character takes 1 to 4 bytes; ASCII text is its own byte string |
| PlantUmlEncoding.Utf8Char | app/gradio_app.py:43 | a character takes one byte exactly when it is ASCII, and never more than four |
| PlantUmlEncoding.DecodeUtf8Char | app/gradio_app.py:43 | the RFC 3629 reading of one character consumes between one byte and the bytes available |
| PlantUmlEncoding.Utf8CharDecodes | app/gradio_app.py:43 | the UTF-8 decoder reads back each character's bytes as that character, whatever follows |
| PlantUmlEncoding.TwoByteCharDecodes | app/gradio_app.py:43 | a character from U+0080 to U+07FF is read back from its two bytes |
| PlantUmlEncoding.ThreeByteCharDecodes | app/gradio_app.py:43 | a character from U+0800 to U+FFFF is read back from its three bytes |
| PlantUmlEncoding.FourByteCharDecodes | app/gradio_app.py:43 | a character from U+10000 on is read back from its four bytes |
| PlantUmlEncoding.Utf8RoundTrip | app/gradio_app.py:43 | the encoder's bytes are the text's UTF-8 form: decoding them gives the text back |
| PlantUmlEncoding.Encode | app/gradio_app.py:37-52 | for n deflated bytes the URL text has 4·⌈n/3⌉ characters, all PlantUML digits or `=`, with `=` only as the final padding |
| PlantUmlEncoding.EncodeRoundTrip | app/gradio_app.py:37-52 | undoing the alphabet and the base64 recovers exactly the deflated UTF-8 bytes of the text |
| FenceStrip.SpaceRun | app/gradio_app.py:96 | the greedy `\s*` takes a whitespace run that ends at the text's end or before a non-whitespace character |
| FenceStrip.MatchLength | app/gradio_app.py:96 | the match at an offset stays inside the text; MatchLengthIsLongest shows it is the regular expression's own choice there |
| FenceStrip.Substitute | app/gradio_app.py:96 | the substitution's output is never longer than the scanned text; SubstituteStep, SubstituteIsSubsequence and SubstituteIdentityIff give its meaning |
| FenceStrip.MatchLengthIsLongest | app/gradio_app.py:96 | where the pattern matches, the scan deletes a match of it (line-initial fence, optional `plantuml`, whitespace; or a fence before a line end), and no match there is longer |
| FenceStrip.SpaceRunCovers | app/gradio_app.py:96 | greedy `\s*` takes a whole whitespace stretch, from any offset inside it |
| FenceStrip.SubstituteStep | app/gradio_app.py:96 | one step of the substitution: an unmatched character is copied, a match is skipped |
| FenceStrip.SubstituteIsSubsequence | app/gradio_app.py:96 | the substitution only deletes: its output is a subsequence of the input |
| FenceStrip.DroppedMatchIsSubsequence | app/gradio_app.py:96 | deleting a match keeps the output a subsequence of the scanned text |
| FenceStrip.CopiedCharIsSubsequence | app/gradio_app.py:96 | copying an unmatched character keeps the output a subsequence of the scanned text |
| FenceStrip.SubstituteWithoutMatch | app/gradio_app.py:96 | where the pattern matches nowhere, the text is copied unchanged |
| FenceStrip.SubstituteShortens | app/gradio_app.py:96 | a match at or after the start makes the output strictly shorter |
| FenceStrip.SubstituteIdentityIff | app/gradio_app.py:96 | the substitution leaves a text unchanged exactly when the pattern matches nowhere in it |
| FenceStrip.NoFenceNoMatch | app/gradio_app.py:96 | a text with no three-backtick run has no match |
| FenceStrip.StripFences | app/gradio_app.py:96 | the cleaned code never starts or ends with whitespace |
| FenceStrip.StripFencesIsSubsequence | app/gradio_app.py:96 | the cleaned code keeps the reply's characters in order: nothing is added or moved |
| FenceStrip.StripKeepsNoFence | app/gradio_app.py:96 | trimming cannot create a fence |
| FenceStrip.StripFencesWithoutFence | app/gradio_app.py:96 | a reply with no three-backtick run is only trimmed |
| FenceStrip.TaggedLineMatches | app/gradio_app.py:96 | in `x` newline ```` ```plantuml``` ```` `y` the fence with its tag after the newline is one 11-character match, and the closing fence after it, neither line-initial nor before a line end, matches nowhere |
| FenceStrip.TaggedLineFirstPass | app/gradio_app.py:96 | that text is substituted to `x` newline ```` ``` ```` `y` |
| FenceStrip.TaggedLineTail | app/gradio_app.py:96 | after the match, the scan keeps the trailing ```` ``` ```` `y` |
| FenceStrip.TaggedLineSecondPass | app/gradio_app.py:96 | substituting `x` newline ```` ``` ```` `y` gives `x` newline `y` |
| FenceStrip.StripFencesNotIdempotent | app/gradio_app.py:96 | the clean-up applied twice differs from once: the first pass leaves a fence at a new line start |
| FenceStrip.OtherTagMatches | app/gradio_app.py:96 | before a tag other than `plantuml` only the three leading backticks match, and nothing inside the tag matches |
| FenceStrip.OtherTagSurvives | app/gradio_app.py:96 | ```` ```python ```` (or any other trimmed, fence-free tag text) cleans to `python`: only the fence goes |
| FenceStrip.SubstituteCopies | app/gradio_app.py:96 | over a stretch where the pattern matches nowhere, the substitution copies the stretch |
| FenceStrip.NoFenceJoin | app/gradio_app.py:96 | two fence-free lines joined by a newline hold no fence |
| FenceStrip.FencedBodyMatches | app/gradio_app.py:96 | inside a fenced body nothing matches, and the closing fence on its own line is a 3-character match |
| FenceStrip.StripTrailingNewline | app/gradio_app.py:96 | the final trim removes the newline the closing fence leaves behind |
| FenceStrip.FencedBlockStrips | app/gradio_app.py:96 | a fence-free, trimmed body between an opening the pattern takes whole and a closing fence on its own line cleans to exactly the body |
| FenceStrip.PlantUmlBlockStrips | app/gradio_app.py:96 | a reply fenced ```` ```plantuml ```` … ```` ``` ```` cleans to the code inside |
| FenceStrip.BareBlockStrips | app/gradio_app.py:96 | a reply fenced ```` ``` ```` … ```` ``` ```` cleans to the code inside |
| FenceStrip.OtherTagBlockKeepsTag | app/gradio_app.py:96 | a reply fenced with another tag, e.g. ```` ```python ````, loses its fences but keeps the tag as its first line |
| Template.NameLength | app/gradio_app.py:90-92 | a field name runs up to the first brace: it holds none, and a brace or the end follows |
| Template.Lookup | app/gradio_app.py:90-92 | a field is found only when it names a keyword that is given; a missing keyword raises `KeyError` with the quoted name, a positional one raises `IndexError` |
| Template.Format | app/gradio_app.py:90-92 | `str.format` with keyword arguments raises only `ValueError`, `KeyError` or `IndexError` |
| Template.Parse | tests/test_uml_draft_handler.py:49-54 | a template that does not parse fails with `ValueError` |
| Template.FieldNames | tests/test_uml_draft_handler.py:42-54 | the names listed are exactly the fields of the parsed template |
| Template.FormatIsFill | app/gradio_app.py:90-92 | formatting a template that parses is filling its pieces in order |
| Template.MalformedNeverFormats | app/gradio_app.py:90-92 | a template that does not parse never formats, whatever the arguments |
| Template.ParseUnparse | tests/test_uml_draft_handler.py:42-54 | writing pieces back as template text and parsing it returns the same pieces |
| Template.ParseToken | tests/test_uml_draft_handler.py:42-54 | parsing one piece's text, then more text, yields that piece first |
| Template.ParseLiteralToken | tests/test_uml_draft_handler.py:42-54 | a literal character (a doubled brace included) parses to itself |
| Template.NameLengthOfName | tests/test_uml_draft_handler.py:42-54 | the name of `{name}` is read back in full |
| Template.FieldOccurs | tests/test_uml_draft_handler.py:42-54 | every parsed field `n` appears as `{n}` in the template text |
| Template.BraceFreeFormatsToItself | app/gradio_app.py:90-92 | a template without braces formats to itself for any arguments |
| Template.FillSucceeds | app/gradio_app.py:90-92 | filling succeeds when every field names a given keyword |
| Template.MissingKeywordRaises | app/gradio_app.py:90-92 | the first field whose keyword is missing raises `KeyError` with that name |
| Template.FormatLiteralPrefix | app/gradio_app.py:90-92 | a brace-free prefix is copied into the output |
| Template.FormatFieldPrefix | app/gradio_app.py:90-92 | a leading `{name}` is replaced by its value, or raises that lookup's error |
| Template.Lits | tests/test_uml_draft_handler.py:42-54 | a literal text gives one literal piece per character |
| Template.ParseLiteralPrefix | tests/test_uml_draft_handler.py:42-54 | a brace-free prefix parses to its characters before the rest's pieces, or the rest's error |
| Template.ParseFieldPrefix | tests/test_uml_draft_handler.py:42-54 | a leading `{name}` parses to that field before the rest's pieces |
| Template.LiteralParse | tests/test_uml_draft_handler.py:42-54 | a brace-free text parses to its characters |
| Template.SingleFieldParse | tests/test_uml_draft_handler.py:42-47 | a template with one field between brace-free texts parses to those texts' characters around that field |
| Template.TwoFieldParse | tests/test_uml_draft_handler.py:49-54 | the same with two fields |
| DraftHandler.ValidatePromptTemplate | tests/test_uml_draft_handler.py:42-54 | the validator's rejections are `ValueError`s |
| DraftHandler.ValidateIff | tests/test_uml_draft_handler.py:42-54 | a template passes exactly when it parses, has `{diagram_type}` and `{description}` fields, and every field is an identifier |
| DraftHandler.RejectsMissingRequired | tests/test_uml_draft_handler.py:42-47 | a parsed template lacking either required field is rejected for the missing placeholders |
| DraftHandler.RejectsDigitPlaceholder | tests/test_uml_draft_handler.py:49-54 | a field whose name starts with a digit makes the template fail |
| DraftHandler.IdentifierIsKeyword | tests/test_uml_draft_handler.py:49-54 | an identifier field is a keyword reference, never a positional one |
| DraftHandler.SingleFieldRejected | tests/test_uml_draft_handler.py:42-47 | a template with a single field is always rejected for missing placeholders |
| DraftHandler.TwoFieldValidation | tests/test_uml_draft_handler.py:49-54 | with two fields the verdict is: missing placeholders unless they are the two required names, else invalid unless both are identifiers, else accepted |
| DraftHandler.ValidatedTemplateFormats | tests/test_uml_draft_handler.py:42-54 | a validated template using only the three prompt arguments formats for every request |
| DraftHandler.ConstructPrompt | tests/test_uml_draft_handler.py:18-24 | the prompt fails exactly when rendering fails, with the same error; otherwise it starts with the rendered text |
| DraftHandler.Process | tests/test_uml_draft_handler.py:26-40 | without a model: `ValueError` and no call; with one: exactly one call with the constructed prompt, its exception propagated unchanged, its reply passed through the content check |
| Retry.RunFrom | tests/test_integration_chat_uml_error.py:46-54 | the attempts from a given number: consecutive correction numbers, and all remaining attempts recorded when exhausted |
| Retry.Run | tests/test_integration_chat_uml_error.py:79-87 | callbacks run for attempts 1, 2, … in order, at most `max_retries` of them, and exhaustion means exactly `max_retries` |
| Retry.RunFollowsCalls | tests/test_integration_chat_uml_error.py:33-54 | each callback gets the failing result of its call; a success is the next call's result; at most `max_retries` calls are made |
| Retry.SucceedsIff | tests/test_integration_chat_uml_error.py:46-54 | the run succeeds exactly when one of the first `max_retries` results is no failure, and returns the first such result |
| Generation.FetchImage | app/gradio_app.py:102-122 | an image comes back exactly when the GET succeeds, the content type is exactly `image/png` and decoding succeeds, with no note; otherwise the note is the one for the first step that failed: rendering failed with the GET's error, the unexpected content type, or the decoder's error |
| Generation.RenderPreview | app/gradio_app.py:99-122 | a URL that cannot be formatted passes its error through; otherwise the status is kept as a prefix, the image is the PNG exactly when the GET, the content type and the decoder all succeed, and then nothing is appended, else exactly one fetch note |
| Generation.Draft | app/gradio_app.py:81-93 | the handler's code comes with the success message; when it raised, the fallback template formatted with the type and description comes with "LLM error: …"; only an unformattable fallback raises; the model state is the handler's |
| Generation.GenerateDiagram | app/gradio_app.py:54-122 | a `KeyError` on the API key gives empty code, no image and the configured message, with no model call; other key errors propagate; the code returned is always trimmed |
| Generation.DraftedPath | app/gradio_app.py:81-100 | with drafted code, the cleaned code is shown with the success message plus its fetch note, after one model call |
| Generation.FallbackPath | app/gradio_app.py:89-100 | when the handler raises, the fallback template formatted with the type and description is cleaned and shown, with a status naming the error |
| Generation.NoModelFallsBack | app/gradio_app.py:80-93 | a handler without a model raises `ValueError` before any call, and the fallback is shown with a status naming that error |
| Generation.CodeIndependentOfRendering | app/gradio_app.py:96-122 | the server and decoder do not affect the code or the model calls |
| Generation.OnGenerate | app/gradio_app.py:214-232 | `on_generate` keeps the code, status, model state and any error, and shows the fetched image or else the 600×300 placeholder |
| Generation.OnRerender | app/gradio_app.py:234-272 | `on_rerender` renders the text as given and raises only when the URL cannot be formatted; the status is "Re-rendered…" alone with the PNG, or followed by one fetch note with the 400×200 placeholder |
| ChatRevision.ToMessages | app/gradio_app.py:184-189 | one message per turn, same content, human exactly for role `"user"` |
| ChatRevision.ToMessagesAppend | app/gradio_app.py:184-189 | converting a joined history converts each part |
| ChatRevision.FollowUp | app/gradio_app.py:172-180 | the follow-up shows the stripped code fenced by ```` ```plantuml ```` and a closing fence, and ends with the suggestion and the instruction |
| ChatRevision.Request | app/gradio_app.py:167-181 | the history sent is the earlier turns (none when absent) followed by exactly the user's suggestion and the follow-up as a system turn |
| ChatRevision.OnChatSubmit | app/gradio_app.py:160-211 | a failing key read makes no call; otherwise one model call with the request's messages, whose exception propagates; success clears the input box |
| ChatRevision.SentMessages | app/gradio_app.py:167-189 | the model gets the earlier turns' messages, then the human suggestion, then the follow-up on the model's side: two more than the history |
| ChatRevision.HistoryAppendOnly | app/gradio_app.py:167-211 | success keeps the earlier turns and appends exactly the suggestion, the follow-up and the unmodified reply |
| ChatRevision.AbsentHistoryIsEmpty | app/gradio_app.py:167-168 | an absent history acts as an empty one |
| ChatRevision.NextConversationExtends | app/gradio_app.py:184-211 | the returned history converts to the sent conversation plus the reply as a model message |
| Categorize.Labels | app/v01/example.py:16 | one `"unimplemented"` label per text |
| Categorize.ProcessCategorize | app/v01/example.py:12-16 | an error exactly for an empty list, status 400 with the fixed detail; otherwise only the `labels` key, one `"unimplemented"` per text |
| Categorize.AnswerDependsOnCountOnly | app/v01/example.py:12-16 | neither `unique_ids` nor the texts' contents change the answer, only their number |
| Scenarios.DummyPromptShows | tests/test_uml_draft_handler.py:18-24 | the constructed prompt contains `Diagram: `, `Desc: ` and `Theme: ` with each argument, whatever context follows |
| Scenarios.ProcessReturnsReply | tests/test_uml_draft_handler.py:26-34 | with the identity check `process` returns the model's answer after one call, and it contains `@startuml` and `class Foo` |
| Scenarios.ProcessRaisesWithoutLlm | tests/test_uml_draft_handler.py:36-40 | `process` without a model raises `ValueError` |
| Scenarios.RejectsThemeOnlyTemplate | tests/test_uml_draft_handler.py:42-47 | "Generate a {theme} diagram" is rejected with `ValueError` |
| Scenarios.RejectsDigitLedTemplate | tests/test_uml_draft_handler.py:49-54 | "Generate a {123bad} diagram for: {description}" is rejected with `ValueError`; `123bad` is not an identifier |
| Scenarios.RetryRecoversAfterOneFailure | tests/test_integration_chat_uml_error.py:18-54 | a failure followed by the answer, with two attempts, returns the answer with one callback, for attempt 1 with "LLM error" |
| Scenarios.RetryRespectsLimit | tests/test_integration_chat_uml_error.py:56-87 | a model that always fails, with three attempts, runs the callback for 1, 2, 3 after three calls, then the run is exhausted |
| Scenarios.RetryStopsAtLimit | tests/test_integration_chat_uml_error.py:46-54 | an answer due on the third call, with two attempts, is never fetched: the run is exhausted |

## Left out

- Deflate (RFC 1951) is a function parameter. Any compressor gives the
  same encoding properties.
- The HTTP GET, its timeout and `raise_for_status` are one `fetch`
  outcome. PIL decoding is an `openImage` outcome. The placeholder's
  drawing and font are reduced to its size and caption.
- The Gradio layout and click wiring (app/gradio_app.py:125-157,
  278-304) are not modelled. This includes the wiring not writing the
  returned history back into the chat state.
- The configuration object, `UMLDraftHandler`'s constructor and
  `_init_openai`, `ChatResponseHandler` and prompty loading are unseen
  code. They are parameters: key outcome, messages, templates, render
  function, context text, content check, models. The draft handler's
  model is optional, as `handler.llm_interface` may be unset, and without
  one the fallback is shown. The constructor or `_init_openai` raising
  outside any `try` is not modelled: their code is not part of this model.
- Logging has no behaviour to model.
- FastAPI routing, async and the `HTTPException` transport are left out.
  The 400 case is an `HttpError` value.
- The texts of the handler's and the engine's own exceptions are not
  fixed by their tests. The model uses descriptive texts of the right
  exception kind.
- The `RuntimeError` the engine raises on exhaustion is the `Exhausted`
  result.
- Template.Format: only `{name}`, `{{` and `}}` are modelled. A field name
  runs to the next brace. Conversions (`!r`), format specs (`:`) and
  attribute or index access (`.`, `[`) are read as part of the name. A `{`
  inside a field, such as a nested field in a format spec, raises
  `ValueError` ("unexpected '{' in field name"), where Python formats it.
  A `}` inside `[…]` ends the field, where Python reads on to the `]`.
- Template.Lookup: the same limit applies. A name holding `:`, `!`, `.`
  or `[` is looked up whole, where Python would split it. A positional
  field is empty or ASCII digits only. Python also counts other Unicode
  decimal digits (such as `٣`) as positional, so it raises `IndexError`
  where the model raises `KeyError`.
- DraftHandler.ValidatePromptTemplate: identifiers are ASCII letters,
  digits and `_` not starting with a digit. Python's Unicode identifiers
  are not modelled. The order of the checks (parsing first, then the
  required names, then the identifier rule) is the model's choice, since
  the handler's source is not part of this model.
- PlantUmlEncoding.Utf8Encode: a Python `str` can hold a lone surrogate,
  on which `encode("utf-8")` raises `UnicodeEncodeError`. A Dafny
  `string` holds Unicode scalar values only, so that error path is not
  modelled.
- DraftHandler.PromptArguments: an absent theme is rendered as the empty
  string. This is the model's choice; the tests always pass a theme.
- DraftHandler.ConstructPrompt: the context text follows the rendered
  prompt for every prompt object. The tests fix this only through
  containment, for their stand-in prompt.
- Generation.FetchImage: the `Content-Type` header is one optional value.
  Header-name case-insensitivity and the header's parameters are
  `requests`' concern.
