# face_analyzer, modelled in Dafny

face_analyzer has a browser page and two Gradio inference services. The page sends a face picture as a data URL to an endpoint, then polls for the result as server-sent-event (SSE) text. The look-alike service (`similarity_prediction`) returns a gallery of the five celebrities the face most resembles. The age service (`age_prediction`) returns one sentence with the estimated age.

This project models the logic in between:

- the page's SSE parser `parseSSE`;
- the decision the page takes on the last event of a poll;
- the page's guard against sending without a picture;
- the request handling of both services: input dispatch, data-URL splitting, top-5 ranking, gallery construction, age formatting and their error boundaries.

Modules:

- `Wrappers`: the `Option` and `Result` types. Python exceptions are `Err` results that carry the exception's text.
- `Strings`: `startsWith` / `startswith`.
- `JsText`: the JavaScript string built-ins the parser uses:
  - `trim`, with the ECMAScript whitespace and line-terminator set;
  - `split(/\n/)` and `join("\n")`, proved inverse on pieces without line feeds;
  - `split(/\n\n+/)`, proved to rejoin to its input with separators that are runs of two or more line feeds.
- `Json`: JSON values, JavaScript truthiness, `v?.key`, `v?.[0]` and `String(v)`. The engine's `JSON.parse`, `JSON.stringify` and number-to-string conversion are oracles, bundled as the `Runtime` datatype.
- `Sse`: `parseSSE`. The imperative method `ParseSse` has the source's two nested loops, the inner one as `ScanLines`. It is proved equal to the specification function `ParsedEvents`, and the properties of the parse are lemmas about `ParsedEvents`.
- `Poll`: the decision `pollForResult` takes on the last event, as an `Action`: show a text, retry, or fail. Also what the page then displays, and the click guard.
- `Intake`: what both services do before inference: the `isinstance` chain, the `split(",", 1)` unpacking of a data URL, and the base64 and image decoding, which are oracles.
- `Similarity`: the look-alike `predict`. The gallery is built by a loop (`BuildGallery`), proved against the function `Gallery`. The ranking is proved from what a descending `argsort` promises.
- `Age`: the age `predict`, pure branching over the prediction value.
- `Services`: how the two services differ on the same failing request.

Inputs and oracles:

- Every opaque library call is a function-typed field of a datatype (`Runtime`, `Libraries`, `Similarity.Env`, `Age.Env`, `Classifier`, `Regressor`).
- That covers `JSON.parse`, `JSON.stringify`, `base64.b64decode`, `Image.open`, `os.path.exists`, `learn.predict`, `argsort`, `float()`, `str()` and `format(x, ".1f")`.
- The loaded model is an `Option` parameter, so the `learn is None` branch is modelled.
- The images directory is a parameter.

What the code does, and the model follows:

- The placeholder for a missing reference picture is gray. A comment next to it says black.
- A `PIL.Image` input is passed to the model unconverted. Only decoded data URLs are converted to RGB.
- The number of gallery entries comes from the probability vector: when no entry raises, there are min(5, number of probabilities) of them (`Similarity.PredictGallerySize`).
- When one of the chosen indices is not below the vocabulary's length, `vocab[idx]` raises and the request gets the empty gallery (`Similarity.ItemFor`, `Similarity.FailuresGiveEmpty`).
- `String(v)` throws on an object whose own "toString" key holds data, alone or inside an array. The poll then shows the polling-failure text (`Poll.ToStringKeyFailsPoll`).

## Model

| member | source | states |
|---|---|---|
| JsText.Trim | website/script.js:49 | `trim()` yields the slice left once whitespace-only ends are removed; the result neither starts nor ends with whitespace |
| JsText.TrimEmptyIffAllSpace | website/script.js:49-50 | a block trims to the empty string, and so is dropped by `filter(Boolean)`, exactly when it is whitespace only |
| JsText.TrimIdempotent | website/script.js:53 | re-trimming a trimmed block's lines changes nothing |
| JsText.JoinLines | website/script.js:64 | `join("\n")`: the pieces with a line feed between each two; characterised by `JoinSplitLines` and `SplitJoinLines` |
| JsText.SplitLines | website/script.js:53 | `split(/\n/)` yields at least one piece, even for the empty string |
| JsText.SplitLinesNoLineFeed | website/script.js:53 | no piece of `split(/\n/)` holds a line feed |
| JsText.JoinSplitLines | website/script.js:53 | joining the pieces of `split(/\n/)` with line feeds gives back the text |
| JsText.SplitJoinLines | website/script.js:64 | splitting the `join("\n")` of pieces without line feeds gives back exactly those pieces |
| JsText.SplitBlankRuns | website/script.js:48 | `split(/\n\n+/)` yields at least one piece |
| JsText.Separators | website/script.js:48 | there is one separator between each two consecutive pieces |
| JsText.SplitBlankRunsRejoin | website/script.js:48 | the pieces, interleaved with the separators, give back the text: the split loses nothing else |
| JsText.SeparatorsAreRuns | website/script.js:48 | every separator is a run of two or more line feeds |
| JsText.SplitBlankRunsPieces | website/script.js:48 | no piece holds a blank line, and the runs are maximal: no piece but the last ends, and none but the first starts, with a line feed, and no piece between two runs is empty |
| JsText.MiddlePiecesNonEmpty | website/script.js:48 | no piece between two runs is empty: two runs never sit side by side, so a run of four line feeds is one cut, not two |
| JsText.FirstPiecePrefix | website/script.js:48 | the first piece is a prefix of the text |
| Json.Prop | website/script.js:94 | `v?.key` is defined exactly on objects holding the key |
| Json.Index0 | website/script.js:98 | `v?.[0]` is an array's first element, a string's first character, an object's "0" property, and undefined on null, booleans, numbers and undefined |
| Json.ToJsString | website/script.js:89 | `String(v)` returns exactly when no object that is `v` itself, or an element at any depth of the array `v`, has its own "toString" key (objects held in another object's fields do not matter); a string prints as itself, any other object as "[object Object]" |
| Json.JoinElements | website/script.js:102 | `Array.prototype.toString` returns exactly when every element converts |
| Json.ToJsStringBasics | website/script.js:89 | `String` leaves a string unchanged and prints a one-element array as its element |
| Json.JoinTwo | website/script.js:89 | two elements print joined with ",", a null one as nothing |
| Json.Truthy | website/script.js:94 | JavaScript truthiness: undefined, null, false, 0, and "" are falsy, every array and object truthy; used by `FirstTruthy` and `Decide` |
| Json.ToStringKeyThrows | website/script.js:89 | an object with a "toString" key throws, alone or anywhere inside an array |
| Sse.TrimAll | website/script.js:53 | each line trimmed, in order |
| Sse.KeepNonEmpty | website/script.js:50 | `filter(Boolean)` keeps exactly the non-empty strings and never lengthens the list |
| Sse.Blocks | website/script.js:47-50 | there are no more blocks than pieces |
| Sse.BlockEnds | website/script.js:49-50 | every block is non-empty and starts and ends with a non-space |
| Sse.KeepNonEmptyAppend | website/script.js:50 | `filter(Boolean)` of a concatenation is the concatenation of the filtered parts, so it keeps order and multiplicity |
| Sse.TrimAllAppend | website/script.js:49 | trimming each piece commutes with concatenation |
| Sse.KeptTrimmedInOrder | website/script.js:49-50 | trimming then filtering gives, in order, one trimmed block per piece that is not whitespace only |
| Sse.KeptTrimmedOne | website/script.js:49-50 | one piece gives its trimmed form as a block, or nothing when it is whitespace only |
| Sse.BlocksInOrder | website/script.js:47-50 | the blocks are the pieces of `split(/\n\n+/)` in text order, trimmed, with the whitespace-only ones dropped |
| Sse.KeptTrimmed | website/script.js:49-50 | trimming then filtering keeps exactly the trimmed forms of the pieces that are not whitespace only |
| Sse.BlocksAreTrimmedPieces | website/script.js:47-50 | a block is the trimmed form of a blank-line-separated piece that is not whitespace only, and every such piece gives a block |
| Sse.BlockLines | website/script.js:53 | a block's lines: `split(/\n/)` with each line trimmed; see `BlockLinesNoLineFeed` |
| Sse.LastEventType | website/script.js:54-58 | the trimmed value of the last `event:` line, or null; characterised by `LastEventTypeNoneIff` and `LastEventTypeIsLast` |
| Sse.DataPayloads | website/script.js:59-60 | the trimmed values of the `data:` lines, in line order; characterised by `DataPayloadsEmptyIff`, `DataPayloadsAppend` and `FilterMapFrom` |
| Sse.LinesEvent | website/script.js:63-70 | the event one block's lines make: none without data, none when the joined data does not parse; characterised by `LinesEventIff` |
| Sse.BlockEvent | website/script.js:53-70 | `LinesEvent` of the block's trimmed lines |
| Sse.ParsedEvents | website/script.js:46-74 | the events of the blocks in block order, the specification `ParseSse` is proved equal to; see `EventsOfAppend`, `EventsOfLength` and `ParsedEventsBound` |
| Sse.ScanLines | website/script.js:54-62 | the inner loop leaves the value of the last `event:` line and the `data:` values in line order |
| Sse.ParseSse | website/script.js:46-74 | the nested loops return exactly `ParsedEvents(text)`: one event per block with data that parses, in block order; no input makes it fail |
| Sse.DataPayloadsEmptyIff | website/script.js:56-63 | a block yields no data exactly when none of its trimmed lines starts with `data:` |
| Sse.DataPayloadsAppend | website/script.js:59-60 | the data values of consecutive runs of lines concatenate, so their order is the lines' order |
| Sse.FilterMapFrom | website/script.js:60 | every collected value is the value of some line of the block |
| Sse.JoinedDataSplitsBack | website/script.js:64 | the joined data splits back on line feeds into exactly the block's data values: the join loses nothing |
| Sse.LastEventTypeNoneIff | website/script.js:54 | the event type stays null exactly when the block has no `event:` line |
| Sse.LastEventTypeIsLast | website/script.js:57-58 | the event type is the trimmed value of the last `event:` line, later ones overriding earlier ones |
| Sse.LinesEventIff | website/script.js:63-70 | a block yields an event exactly when it has a `data:` line and its joined data parses; the event carries that JSON and the last event type, and a block that does not parse is skipped |
| Sse.EventsOfAppend | website/script.js:52 | the events of consecutive runs of blocks concatenate: events come out in block order |
| Sse.EventsOfLength | website/script.js:67 | at most one event per block, and one per block exactly when every block yields one |
| Sse.ParsedEventsBound | website/script.js:73 | there are no more events than non-empty blocks, and no more blocks than pieces |
| Poll.ArrayFirst | website/script.js:97 | `v && Array.isArray(v) && v[0]` is defined only on non-empty arrays and is their first element |
| Poll.OutputCandidates | website/script.js:96-99 | the three places looked at, in order: `output[0]` of an array output, `output?.data?.[0]`, `data[0]` of an array `data` |
| Poll.CompleteOutput | website/script.js:96-100 | the first truthy candidate, or null; see `CompleteShowsOutput` and `CompleteWithoutOutputShowsJson` |
| Poll.FirstTruthy | website/script.js:96-100 | the `\|\|` chain yields a truthy value exactly when one candidate is truthy, and then the first truthy one |
| Poll.Decide | website/script.js:83-86 | no events is the "no data" failure, and only that; otherwise the decision is taken on the last event's data |
| Poll.ShowString | website/script.js:89 | showing `String(v)` succeeds exactly when `v` is printable, with its text; otherwise the poll fails on that value |
| Poll.DecideOn | website/script.js:88-119 | an array shows `String(data[0])` ("undefined" when empty); COMPLETE shows `String` of the first truthy output, else `JSON.stringify(data)`; a string status PROCESSING or QUEUED retries and only then; any other truthy status fails and only then; no status shows `JSON.stringify(data)`; a throwing `String` fails; never the "no events" failure |
| Poll.PollResponse | website/script.js:81-86 | the decision on a whole response text: `Decide` on the parsed events; see `PollNoEventsIff` and `ButtonReenabledUnlessRetrying` |
| Poll.Render | website/script.js:101-119 | only a retry polls again and keeps the button disabled; the failure text is the polling-failure message |
| Poll.DecideUsesLastOnly | website/script.js:85-86 | events before the last one never change the decision |
| Poll.PollNoEventsIff | website/script.js:81-83 | a poll fails for want of events exactly when no block of the response yields an event |
| Poll.RetryOnlyWhileRunning | website/script.js:105-107 | a retry happens only for status PROCESSING or QUEUED and shows "Predicting... (Status: …)" |
| Poll.NoStatusIsShown | website/script.js:88-114 | data without a truthy status is shown, a non-array as JSON, and fails only when it is an array whose first element cannot be printed |
| Poll.CompleteShowsOutput | website/script.js:95-103 | a completed job with a truthy `output[0]` shows `String(output[0])`, or fails when that throws |
| Poll.ToStringKeyFailsPoll | website/script.js:88-119 | an array or COMPLETE output whose shown element has a "toString" key fails, and the page shows the polling-failure text with the button enabled |
| Poll.CompleteWithoutOutputShowsJson | website/script.js:96-102 | a completed job with no truthy output candidate, including an output of 0 or "", shows the whole data as JSON |
| Poll.ButtonReenabledUnlessRetrying | website/script.js:90-119 | after every poll the button is enabled exactly when no further poll is scheduled |
| Poll.OnPredictClick | website/script.js:125-133 | a request is sent exactly when there is a non-empty data URL, with body `{ data: [url] }`; otherwise the "choose an image" alert |
| Intake.FirstComma | huggingface_spaces/similarity_prediction/app.py:31 | the position of the first comma, or the length when there is none |
| Intake.SplitHeader | huggingface_spaces/similarity_prediction/app.py:31 | the unpacking succeeds exactly when there is a comma; the header has no comma and header, comma, payload give back the URL; otherwise the unpacking error |
| Intake.SplitHeaderPieces | huggingface_spaces/similarity_prediction/app.py:31 | the payload is exactly the text after the first comma, later commas included |
| Intake.DecodeDataUrl | huggingface_spaces/similarity_prediction/app.py:29-33 | split at the first comma, b64-decode the payload and open it as RGB, each exception passed on; see `DataUrlPayload` and `NoCommaRaises` |
| Intake.TakeInput | huggingface_spaces/similarity_prediction/app.py:45-53 | `None` and only `None` returns None; an unsupported value or a non-`data:image` string returns `[]`; a picture is used as is; only a data URL can raise |
| Intake.DataUrlPayload | huggingface_spaces/similarity_prediction/app.py:29-33 | a data URL is decoded from its payload after the first comma, and each decoding exception is passed on |
| Intake.NoCommaRaises | huggingface_spaces/similarity_prediction/app.py:31 | a data URL without a comma raises the unpacking error before anything is decoded |
| Similarity.PyIndex | huggingface_spaces/similarity_prediction/app.py:70-71 | Python indexing: defined exactly from `-len` to `len - 1`, negative indices counting from the end |
| Similarity.PathJoin | huggingface_spaces/similarity_prediction/app.py:74 | `os.path.join`: an absolute name replaces the directory, otherwise at most one separator is inserted |
| Similarity.ReferencePath | huggingface_spaces/similarity_prediction/app.py:74 | `os.path.join(dir, name + ".jpg")`; see `ReferencePathShape` |
| Similarity.Caption | huggingface_spaces/similarity_prediction/app.py:76 | `"{name} ({score * 100:.1f}%)"`, with the formatting an oracle; see `ItemShape` |
| Similarity.ReferencePathShape | huggingface_spaces/similarity_prediction/app.py:74 | the reference path is `<dir>/<name>.jpg` |
| Similarity.ItemFor | huggingface_spaces/similarity_prediction/app.py:70-85 | building an entry succeeds exactly when the index is valid for vocabulary and probabilities and the reference picture, when it exists, opens |
| Similarity.ItemShape | huggingface_spaces/similarity_prediction/app.py:76-85 | an existing picture is shown under `"{name} ({pct}%)"`; a missing one becomes the gray 224×224 placeholder with " (Image Missing)" appended, and only then |
| Similarity.TopIndices | huggingface_spaces/similarity_prediction/app.py:65 | `[:5]` keeps the first min(5, n) indices |
| Similarity.TopRanking | huggingface_spaces/similarity_prediction/app.py:64-65 | given a descending argsort, the chosen indices are min(5, \|probs\|) distinct valid indices, their scores never increase, and every index left out scores no higher than any chosen one |
| Similarity.Gallery | huggingface_spaces/similarity_prediction/app.py:67-85 | the entries for the chosen indices in order, or the first exception; characterised by `GalleryElementwise` and `GalleryErrSticks` |
| Similarity.GalleryErrSticks | huggingface_spaces/similarity_prediction/app.py:69-93 | once one entry raises, the whole gallery raises that exception |
| Similarity.GalleryElementwise | huggingface_spaces/similarity_prediction/app.py:69-85 | the gallery raises exactly when some entry does; otherwise it holds one entry per index in index order, so nothing is dropped or reordered |
| Similarity.BuildGallery | huggingface_spaces/similarity_prediction/app.py:67-88 | the loop returns exactly `Gallery` of the chosen indices |
| Similarity.PredictSpec | huggingface_spaces/similarity_prediction/app.py:36-93 | the model check, the dispatch, inference, ranking and gallery, every exception giving `[]`; see `PredictGallerySize`, `NoModelEmpty`, `DispatchEarlyReturns` and `FailuresGiveEmpty` |
| Similarity.Predict | huggingface_spaces/similarity_prediction/app.py:36-93 | `predict` returns exactly `PredictSpec`: the model check, the dispatch, inference, ranking and gallery, with every exception turned into `[]` |
| Similarity.PredictGallerySize | huggingface_spaces/similarity_prediction/app.py:59-88 | with a descending argsort, a covering vocabulary and reference pictures that open, a picture yields min(5, \|probs\|) entries, entry k for the k-th best class |
| Similarity.NoModelEmpty | huggingface_spaces/similarity_prediction/app.py:42-43 | without a model every request gets `[]`, before the input is looked at |
| Similarity.DispatchEarlyReturns | huggingface_spaces/similarity_prediction/app.py:46-53 | None exactly for `None`; `[]` for unsupported values and for strings that are not data URLs |
| Similarity.FailuresGiveEmpty | huggingface_spaces/similarity_prediction/app.py:90-93 | a decoding, inference or gallery exception yields `[]` |
| Similarity.NoCommaEmpty | huggingface_spaces/similarity_prediction/app.py:90-93 | a data URL without a comma yields `[]` |
| Age.PyStrOf | huggingface_spaces/age_prediction/app.py:54 | `str` of a string is the string itself |
| Age.Unwrap | huggingface_spaces/age_prediction/app.py:47-50 | a sized non-string value gives its first element, and raises when empty; any other value is used as is |
| Age.Coerce | huggingface_spaces/age_prediction/app.py:47-51 | `float` of the unwrapped prediction, None when either step raises; see `StringNotUnwrapped` and `SizedUsesFirst` |
| Age.FormatPrediction | huggingface_spaces/age_prediction/app.py:46-54 | a coercible prediction gives "Predicted age: {fmt} years"; otherwise `str(pred)`, never an exception |
| Age.StringNotUnwrapped | huggingface_spaces/age_prediction/app.py:47-50 | a string prediction is coerced whole, not by its first character |
| Age.NonNumericStringVerbatim | huggingface_spaces/age_prediction/app.py:47-54 | a non-numeric string such as "unknown" is returned exactly |
| Age.EmptyPredictionFallsBack | huggingface_spaces/age_prediction/app.py:48-54 | an empty sized prediction falls back to `str(pred)` |
| Age.SizedUsesFirst | huggingface_spaces/age_prediction/app.py:47-51 | a sized prediction is coerced through its first element only |
| Age.SingletonLikeValue | huggingface_spaces/age_prediction/app.py:47-52 | a number wrapped in a one-element sequence is phrased as the bare number |
| Age.InferenceGivesText | huggingface_spaces/age_prediction/app.py:44-57 | once inference succeeds the answer is the formatted prediction |
| Age.Predict | huggingface_spaces/age_prediction/app.py:26-62 | no model gives `[]`; with a model, None exactly for `None` input |
| Age.DispatchEarlyReturns | huggingface_spaces/age_prediction/app.py:34-41 | `None` gives None; unsupported values and non-`data:image` strings give `[]` |
| Age.AcceptedInputGivesMessage | huggingface_spaces/age_prediction/app.py:29-62 | the answer is a text exactly when the input was accepted or its decoding raised |
| Age.ErrorsBecomeMessages | huggingface_spaces/age_prediction/app.py:59-62 | a decoding or inference exception gives "Error processing image: {e}" |
| Age.NoCommaMessage | huggingface_spaces/age_prediction/app.py:21 | a data URL without a comma gives the error text with the unpacking message |
| Services.DecodeFailureAsymmetry | huggingface_spaces/age_prediction/app.py:59-62 | on the same failing request the look-alike service returns `[]`, the age service an error text |
| Services.SameEarlyReturns | huggingface_spaces/similarity_prediction/app.py:46-53 | both services return None for the same requests, and `[]` for the same turned-away inputs |

## Left out

- Browser I/O: `fetch`, `FileReader`, `alert`, `console`, `setTimeout` and DOM updates. The model returns the decision and the resulting `Screen`/`Click` values instead.
- The request side of the click handler after the guard: the POST, the HTTP error text, and picking `event_id` or `id`. Only the empty-image guard is modelled.
- The example-image loader and `displayImage`: they are DOM glue.
- JavaScript strings are UTF-16. The model works on code points, so a character outside the Basic Multilingual Plane counts as one character, not two.
- The `eventType` of an event is carried but never drives the poll decision, as in the source.
- `Json.ToJsString`: numbers are printed by the oracle `numberToString`. JavaScript's number formatting is not modelled.
- `JSON.parse` and `JSON.stringify` are oracles. Nothing is proved about their agreement.
- `Json.Json`: an object is a map, so the order of its keys is not kept. `JSON.stringify` prints keys in the order of the parsed text, and the `stringify` oracle cannot depend on it: `{"a":1,"b":2}` and `{"b":2,"a":1}` are one value here.
- `Json.Json`: numbers are reals. `JSON.parse` turns a literal beyond the double range, such as `1e999`, into `Infinity`, which the model cannot hold; the `parse` oracle must map such text to some real or to None.
- Floating point: probabilities and ages are `real`. `score * 100` is exact, and `format(x, ".1f")` and `float()` are oracles, so no rounding is verified.
- Tie order among equal scores: `argsort(descending=True)` is not stable. `Similarity.TopRanking` and `Similarity.PredictGallerySize` assume only a descending permutation, and `argsort` is otherwise an oracle.
- `PILImage.create` and `learn.predict` form one oracle per service. Only the probability vector, or for the age service the prediction, is kept.
- `Age.PyValue` keeps only what the formatting inspects. A value with a length whose `[0]` raises, such as a zero-dimensional tensor, is an empty `PySized`.
- Gradio UI construction, `iface.queue()`, `launch`, model loading, zip extraction and the choice of the images directory: the model and the directory are parameters.
- Logging (`log`, `traceback.print_exc`): it has no effect on results.
- Concurrency from the Gradio queue: the core has no shared mutable state.
