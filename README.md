# Gemini Web UI: request orchestration, modelled in Dafny

This project models the request orchestration of the Gemini image studio,
on both the client and the server side.

On the client side there are two front ends:

- The browser controller of `static/js/app.js`:
  - `generateImages` and the progress simulator it starts;
  - the health indicator;
  - the style, aspect, quantity and reference-image controls;
  - the credential form over `localStorage`;
  - the chat panel with its inline-emphasis rewrite;
  - the ordered "download all".
- The React front end in `frontend/src`:
  - the `handleGenerate` handler of `App.jsx`;
  - the form and `handleSubmit` of `ControlPanel.jsx`;
  - `handleSave` of `SettingsModal.jsx`.

On the server side, it models the Flask application of `app.py`:

- the per-request cookie jar and `validate_cookies`;
- the input checks of `/api/generate`, `/api/chat/send` and `/api/update_cookies`;
- the prompt text assembled in `generate_images`;
- the bounded, de-duplicating collection loop;
- the rule that drops the client after an authentication failure;
- `allowed_file` and the size gate of `/api/upscale`.

Everything that leaves the process is an input to the model: network replies, the upstream Gemini library, timers, `Date.now()` and `Math.random()`.

- Each JavaScript `async` handler is split at its `await` into two methods: one that runs up to the request, and one that handles the reply.
- A class whose fields mirror the component's or page's state carries the methods. Each method is proved to leave exactly the state that a pure function of the old state describes. The properties are proved about those functions.
- `localStorage` is a `map<string, string>`. A random draw is an integer `draw` with `Math.random() == draw / 2^53`. An upstream image request is an `Attempt`: the batch it returned, or the text of the exception it raised.

Modules (one file each):

| module | models |
|---|---|
| `Wrappers` | `Option` |
| `Text` | JS `trim`/Python `strip`, ASCII lower-casing, substring search, decimal rendering |
| `LocalStorage` | the two credential keys |
| `Progress` | `animateProgress`'s interval closure |
| `Generation` | the page's generation controller (`Studio`) |
| `Emphasis` | the regex chain of `appendMessage` |
| `Chat` | the page's chat panel (`Session`) |
| `Credentials` | `saveSettings` / `loadSavedSettings` (`SettingsForm`) |
| `BackendRules` | cookie selection, `validate_cookies`, `allowed_file`, upscale gate, auth-failure rule |
| `PromptAssembly` | the prompt text of `generate_images` |
| `Collection` | the collection loop of `generate_images` and `urllib.parse.quote` |
| `RequestValidation` | the handlers' input checks |
| `Server` | the Flask server state (`GeminiServer`) |
| `ControlPanel`, `AppView`, `SettingsModal` | the React components |
| `Agreement` | each client's requests put through the server's checks |

## Model

| member | source | states |
|---|---|---|
| Text.Trim | static/js/app.js:420 | the result has no white space at either end, and is empty exactly when the input is all white space |
| Text.TrimInfix | app.py:710 | the trimmed text is the part of the input between a leading and a trailing run of white space, in order |
| Text.TrimIdempotent | app.py:710 | stripping an already-trimmed string changes nothing |
| Text.Lower | app.py:363 | the lower-cased message has the same length, and each character is lower-cased independently |
| Text.LowerIdempotent | app.py:363 | lower-casing twice is lower-casing once |
| Text.Contains | app.py:364 | the substring test holds exactly when some position starts an occurrence |
| Text.NatToString | static/js/app.js:1029 | the rendering of `Date.now()` is non-empty, all digits, and starts with `0` only for zero |
| Text.DecimalRoundTrip | static/js/app.js:1029 | reading the rendered digits back gives the number |
| Text.JsLength | static/js/app.js:428 | JavaScript's `length` counts UTF-16 code units: between the number of characters and twice it, and equal to it exactly when no character lies outside the Basic Multilingual Plane |
| Progress.Jump | static/js/app.js:554-555 | a jump is at least 1 and at most the distance left to 95: exactly 1 below 10 remaining, at most a tenth of the distance otherwise |
| Progress.QuotientBound | static/js/app.js:555 | `floor(random * remaining * 0.1)` never exceeds `remaining / 10` |
| Progress.Advance | static/js/app.js:546-563 | a live tick adds exactly the jump drawn for the distance left to 95, so the percent rises strictly and never passes 95; the message index moves to the next phrase (cyclically) exactly when the new percent is a multiple of 15 |
| Progress.Stops | static/js/app.js:547 | for a valid ticker, the interval clears itself exactly when generation is over or the percent has reached 95 |
| Progress.Run | static/js/app.js:546-563 | any sequence of ticks keeps the interval's state valid, with a non-decreasing percent |
| Progress.RunProgress | static/js/app.js:546-563 | each live tick adds at least 1, so at most `95 - percent` ticks are live; after a run the percent is 95 or every tick was live |
| Progress.ReachesCeiling | static/js/app.js:541-556 | from the start state, 95 ticks always reach exactly 95 |
| Generation.InitialInv | static/js/app.js:10-17 | the initial page state satisfies the controller invariant |
| Generation.PromptError | static/js/app.js:422-431 | a trimmed prompt is refused exactly when its UTF-16 length is below 3: an empty one with "Please enter a prompt", a non-empty one as too short |
| Generation.BuildPayload | static/js/app.js:453-468 | the request carries the trimmed prompt, aspect, quantity, style, HD flag and both stored credentials; a reference image is included exactly when one is truthy |
| Generation.Submit | static/js/app.js:418-449 | a request is issued exactly when the trimmed prompt has a UTF-16 length of 3 or more and no generation runs; a prompt error only adds its notice; a busy controller changes nothing; an issued request is the payload of the trimmed prompt and the new state is `Begin` of the old |
| Generation.Begin | static/js/app.js:436-448 | busy, awaiting the reply, the bar shown at 0 % with the first phrase and one more interval started from the start state; images, notices, connection flag and the chosen style, aspect, quantity and reference are kept |
| Generation.ErrorMessage | static/js/app.js:479-503 | the error text is never empty: `data.error`, else "Generation failed", for a JSON failure; the server-error text of the status for a non-JSON reply; the exception's message, else "Failed to generate images. Please try again.", for a thrown request |
| Generation.ServerErrorText | static/js/app.js:487 | the text starts with "Server Error (", followed by exactly the decimal digits of the status and the closing ")" |
| Generation.ServerErrorTextInjective | static/js/app.js:487 | different statuses give different server-error texts |
| Generation.IsAuthMessage | static/js/app.js:503 | an error text counts as an auth error when it contains "expired", "initialize" or "cookie" (definition) |
| Generation.Settle | static/js/app.js:513-521 | `finally` leaves the busy state, hides the bar exactly when no images are held (otherwise leaves it as it was), and keeps every other field: images, connection flag, notices, style, aspect, quantity, reference, shown percent and text, and intervals |
| Generation.Receive | static/js/app.js:479-512 | a success forces 100 % and "Finalizing..." and holds the images for the delay; a failure adds one error, disconnects only for an auth message, hides the bar and leaves the busy state with the images untouched |
| Generation.Finish | static/js/app.js:493-496 | after the delay, the images are exactly the reply's, and the controller is idle; the bar is hidden exactly when the reply held no images; connection, notices, style, aspect, quantity, reference, shown percent and text, and intervals are kept |
| Generation.Resolve | static/js/app.js:479-522 | every reply ends with the controller idle and the invariant kept |
| Generation.TickState | static/js/app.js:546-563 | a tick clears its interval once generation ended or 95 was reached; otherwise it advances that interval only and shows its new percent |
| Generation.ToggleStyle | static/js/app.js:302-308 | choosing the selected style clears it, any other style selects it; nothing else changes |
| Generation.AttachReference | static/js/app.js:388-404 | a file over 5 MB only adds the size error; any other file becomes the reference image |
| Generation.CheckHealth | static/js/app.js:214-224 | the indicator is connected exactly when the health reply says the cookies are valid |
| Generation.ServerErrorIsNotAuth | static/js/app.js:485-509 | a non-JSON reply never reads as an auth failure, whatever its status |
| Generation.ExpiredCookieDisconnects | static/js/app.js:503-509 | a failure whose error mentions an expired cookie sets the indicator to disconnected |
| Generation.SuccessStoresImages | static/js/app.js:490-496 | a success stores the reply's images unchanged and in order, and ends idle |
| Generation.TickDuringFinalizing | static/js/app.js:547-563 | an interval still live during the finalizing delay may lower the shown 100 % again |
| Generation.Studio.constructor | static/js/app.js:10-17 | the page starts from the initial state |
| Generation.Studio.ShowError | static/js/app.js:754 | one more error notice, nothing else |
| Generation.Studio.UpdateProgress | static/js/app.js:568-572 | the shown percent and text change, nothing else |
| Generation.Studio.UpdateStatusIndicator | static/js/app.js:821-830 | only the connection flag changes (the later, one-argument declaration) |
| Generation.Studio.CheckSystemHealth | static/js/app.js:214-224 | the new state is `CheckHealth` of the old |
| Generation.Studio.AnimateProgress | static/js/app.js:529-545 | the bar restarts at 0 % with the first message, and one new interval is started |
| Generation.Studio.GenerateImages | static/js/app.js:418-477 | state and request are those of `Submit` |
| Generation.Studio.LeaveBusyState | static/js/app.js:513-521 | the new state is `Settle` of the old |
| Generation.Studio.ReceiveReply | static/js/app.js:479-512 | the new state is `Receive` of the old |
| Generation.Studio.FinishDelay | static/js/app.js:493-496 | the new state is `Finish` of the old |
| Generation.Studio.Tick | static/js/app.js:546-563 | the new state is `TickState` of the old |
| Generation.Studio.SelectStyle | static/js/app.js:302-308 | the new state is `ToggleStyle` of the old |
| Generation.Studio.SelectAspectRatio | static/js/app.js:324-325 | only the aspect changes |
| Generation.Studio.SelectQuantity | static/js/app.js:338-339 | only the quantity changes |
| Generation.Studio.ProcessImageFile | static/js/app.js:388-404 | the new state is `AttachReference` of the old |
| Generation.Studio.RemoveReferenceImage | static/js/app.js:406-412 | only the reference image is cleared |
| Generation.Studio.DownloadAllImages | static/js/app.js:737-748 | one download per held image, in order, with its position as index |
| Emphasis.ReplacePairs | static/js/app.js:1101-1102 | the global lazy replace of one delimiter pair, left to right (definition) |
| Emphasis.Format | static/js/app.js:1100-1103 | bold, then italic, then line breaks, in the source's order (definition) |
| Emphasis.FindClose | static/js/app.js:1101-1102 | the lazy `(.*?)` match finds the nearest closing delimiter on the same line, and no nearer one exists |
| Emphasis.ReplaceNewlines | static/js/app.js:1103 | no line feed survives; text without one is unchanged |
| Emphasis.ReplacePairsIdentity | static/js/app.js:1101-1102 | text with no delimiter is left as it is |
| Emphasis.LacksDelimiter | static/js/app.js:1101-1102 | a delimiter whose first character is absent occurs nowhere |
| Emphasis.PlainTextUnchanged | static/js/app.js:1100-1103 | text without `*` or line feeds is shown unchanged |
| Emphasis.NoNewlineSurvives | static/js/app.js:1100-1103 | the formatted text never contains a line feed |
| Emphasis.BoldPair | static/js/app.js:1101 | `**a**` becomes `<strong>a</strong>` |
| Emphasis.ItalicPair | static/js/app.js:1102 | `*a*` becomes `<em>a</em>` |
| Emphasis.ClosingAtEnd | static/js/app.js:1101-1102 | the closing delimiter directly after a delimiter-free line is found |
| Chat.LoadingId | static/js/app.js:1029 | the placeholder id is "loading-" followed by the digits of the clock value |
| Chat.Bubble | static/js/app.js:1087-1108 | a bubble holds the role and the formatted text, and an image exactly when a truthy one was given |
| Chat.Send | static/js/app.js:1007-1062 | no trimmed text and no image means no change and no request; otherwise the user bubble then the placeholder are appended, the input and preview are cleared, and one request carries the text, image and stored credentials |
| Chat.RemoveLoading | static/js/app.js:1073-1074 | removing a present placeholder drops exactly one entry; an absent one leaves the history as it was |
| Chat.RemoveLoadingCount | static/js/app.js:1073-1074 | as a multiset, the history loses exactly one copy of that placeholder and nothing else |
| Chat.Messages | static/js/app.js:1073-1083 | the visible messages are the history without placeholders, in order: an entry is visible exactly when it is in the history and is a message |
| Chat.ReplyText | static/js/app.js:1076-1083 | the reply's text on success; otherwise "⚠️ Error: " + `data.error` ("undefined" when missing), or the connection error |
| Chat.Receive | static/js/app.js:1070-1084 | the visible messages gain exactly the AI bubble with the reply's text; as a multiset the history loses one copy of the placeholder (two when a success carries no text: `appendMessage` then throws, and the `catch` removes by the same id again before showing the connection error) and gains the bubble; a placeholder present at most once is gone afterwards |
| Chat.RemoveLoadingKeepsMessages | static/js/app.js:1073-1074 | removing the placeholder never removes a message |
| Chat.MessagesAppend | static/js/app.js:1021-1042 | the visible messages of a concatenation are those of each part |
| Chat.RemoveLoadingAfter | static/js/app.js:1073-1074 | a placeholder past a placeholder-free prefix is removed from the suffix only |
| Chat.SendThenReceive | static/js/app.js:1018-1084 | a full exchange adds exactly the user bubble then the AI bubble, and no placeholder is left |
| Chat.Session.constructor | static/js/app.js:902 | an empty panel |
| Chat.Session.ShowPreview | static/js/app.js:987-989 | only the preview is set |
| Chat.Session.HidePreview | static/js/app.js:995-999 | only the preview is cleared |
| Chat.Session.AppendMessage | static/js/app.js:1087-1110 | one bubble is appended to the history |
| Chat.Session.RemoveElement | static/js/app.js:1073-1074 | the history loses the placeholder with that id |
| Chat.Session.SendChatMessage | static/js/app.js:1007-1062 | state and request are those of `Send` |
| Chat.Session.ReceiveChatReply | static/js/app.js:1070-1084 | the new state is `Receive` of the old |
| Credentials.Save | static/js/app.js:836-856 | either trimmed field empty means one error and no request; otherwise the trimmed pair is sent; storage is untouched either way |
| Credentials.FailureText | static/js/app.js:871-878 | "Failed to save: " followed by `data.error`, the default text, or the exception's message |
| Credentials.ReceiveSave | static/js/app.js:858-879 | success writes both keys with the sent values and schedules the reload; failure adds one error and re-enables the button with storage untouched |
| LocalStorage.GetItem | static/js/app.js:884-885 | `localStorage.getItem` gives `null` exactly for a key never stored, and otherwise the stored value |
| Credentials.Load | static/js/app.js:883-889 | each input takes its stored value only when that value is truthy |
| Credentials.StoreWrittenOnlyOnSuccess | static/js/app.js:836-879 | no path except a success writes storage |
| Credentials.SaveThenReload | static/js/app.js:858-889 | after a successful save, the reloaded page shows the trimmed values sent |
| Credentials.SettingsForm.constructor | static/js/app.js:80-81 | the page's two cookie inputs start empty over the given storage, before `loadSavedSettings` runs |
| Credentials.SettingsForm.SaveSettings | static/js/app.js:836-856 | state and request are those of `Save` |
| Credentials.SettingsForm.ReceiveSaveReply | static/js/app.js:858-879 | the new state is `ReceiveSave` of the old |
| Credentials.SettingsForm.LoadSavedSettings | static/js/app.js:883-889 | the new state is `Load` of the old |
| BackendRules.UserCookies | app.py:733-740 | a per-request jar exists exactly when the body's `cookies` has a truthy `psid`, and it carries both values as sent |
| BackendRules.SelectJar | app.py:145-149 | the per-request jar is used when its PSID is truthy, the global jar otherwise |
| BackendRules.ValidateCookies | app.py:100-111 | valid exactly when the checked jar has a truthy PSID and, without an override, the client is initialised; a missing PSID is reported first |
| BackendRules.Initialized | app.py:54-98 | the client is ready only with both cookies truthy, and then exactly when the handshake succeeded |
| BackendRules.AllowedFile | app.py:489-491 | a name without `.` is refused; an accepted name has at least four characters and does not end in `.` (the full characterisation is `AllowedFileIff`) |
| BackendRules.LastDot | app.py:491 | the index found holds the last `.` of the name, and none exists exactly when there is no `.` |
| BackendRules.AllowedFileSplits | app.py:489-491 | an accepted name is `stem.ext` with a dot-free allowed extension |
| BackendRules.AllowedFileOfSplit | app.py:489-491 | every `stem.ext` with a dot-free allowed extension is accepted |
| BackendRules.AllowedFileIff | app.py:489-491 | `allowed_file` holds exactly for names `stem.ext` with a dot-free `ext` that lower-cases to png, jpg, jpeg or webp |
| BackendRules.LastDotOfSuffix | app.py:491 | in `stem.ext` with a dot-free `ext`, the last dot is the one before `ext` |
| BackendRules.UpscaleGate | app.py:805-813 | refused exactly when the larger side is 4096 or more; otherwise exactly twice the width and height, both under 8192 |
| BackendRules.IsAuthFailure | app.py:363-364 | a message containing "expired", "initialize client" or "401" as written is an auth failure, since lower-casing keeps those words |
| BackendRules.AuthFailureIgnoresCase | app.py:363-364 | the auth-failure rule gives the same answer for a message and its lower-cased form |
| BackendRules.Status401IsAuthFailure | app.py:363-364 | any message containing "401" is an auth failure |
| PromptAssembly.QualityBoosters | app.py:168-180 | the fixed boosters, led by the style when one is set |
| PromptAssembly.AspectSuffix | app.py:196-200 | landscape adds ", wide view, 16:9 aspect ratio", portrait ", tall view, 9:16 aspect ratio", any other value nothing |
| PromptAssembly.Decoration | app.py:188-194 | a style adds ", <style> style", HD mode then adds ", " and the boosters (led by the style when one is set); neither adds nothing |
| PromptAssembly.TextPrompt | app.py:185-203 | the text is, slice by slice, the raw prompt, the style/HD decoration, the aspect instruction and the negative suffix, and has the length of its parts |
| PromptAssembly.TextPromptLayout | app.py:185-203 | the text is exactly that concatenation |
| PromptAssembly.StyledPrompt | app.py:188-203 | a style without HD mode gives prompt, ", <style> style", aspect instruction, negative suffix |
| PromptAssembly.HdPrompt | app.py:191-203 | HD mode without a style gives prompt, ", " and the plain boosters, aspect instruction, negative suffix |
| PromptAssembly.UndecoratedPrompt | app.py:185-203 | neither gives prompt, aspect instruction, negative suffix |
| PromptAssembly.AspectInstruction | app.py:196-200 | a landscape text carries the wide-view instruction and a portrait text the tall-view one, right before the negative suffix |
| PromptAssembly.VariationPrompt | app.py:234-236 | exactly "Make a variation of this image: " and the prompt, followed by " in <style> style" when the style is truthy |
| PromptAssembly.GenerationPrompt | app.py:184-239 | the variation text exactly when a truthy reference image was decoded, the text prompt otherwise |
| PromptAssembly.StyledHdPrompt | app.py:168-194 | with a style and HD mode the style appears twice, once leading the boosters |
| PromptAssembly.PlainSquarePrompt | app.py:185-203 | a plain square request only adds the negative suffix |
| PromptAssembly.TextPromptInjective | app.py:185-203 | under the same options, different prompts give different texts |
| PromptAssembly.VariationPromptInjective | app.py:234-236 | under the same style, different prompts give different variation texts |
| PromptAssembly.VariationIgnoresAspectAndHd | app.py:234-236 | with a decoded reference image, aspect and HD mode do not affect the text |
| Collection.HexDigit | app.py:305 | each hex digit is an upper-case hex character |
| Collection.Utf8 | app.py:305 | a code point encodes to 1 to 4 bytes, one exactly for ASCII |
| Collection.PercentEncode | app.py:305 | each byte becomes `%` and two upper-case hex digits |
| Collection.QuoteChar | app.py:305 | safe characters are kept; others become a `%` escape; the output is safe characters and `%` only |
| Collection.Quote | app.py:305 | the quoted URL holds only safe characters and `%`, and is at least as long as the input |
| Collection.QuoteKeepsSafeText | app.py:305 | text of safe characters only is unchanged by quoting |
| Collection.ProxyUrlSingleParameter | app.py:305 | after the proxy prefix there is no `&`, `#`, `?` or `=`, so the original URL stays one query value |
| Collection.ImageUrl | app.py:296-306 | the processed image when `enforce_aspect_ratio` returned a truthy value, otherwise the proxy prefix followed by the quoted original URL |
| Collection.Admit | app.py:308-317 | one candidate either extends the list by one entry or, when its original URL is already held, leaves it; either way the URL is held afterwards |
| Collection.Entry | app.py:309-317 | an entry keeps the original URL, takes the given index, and uses the same display URL for `url` and `thumbnail` |
| Collection.AdmitAll | app.py:286-317 | processing a batch keeps the list well formed (at most `quantity` entries, indices 1..n in order, distinct originals) and only appends |
| Collection.CollectFrom | app.py:247-321 | the loop's result is well formed and extends what was collected; it stops before `quantity*3` attempts only with `quantity` images (its exception path is stated by `CollectFromAborts`) |
| Collection.Collect | app.py:243-321 | at most `quantity*3` attempts; well formed; fewer attempts than the maximum only when `quantity` images were found (its exception path is stated by `CollectAborts`) |
| Collection.CollectFromAborts | app.py:247-281 | from any attempt on, when the following attempts raise nothing and leave the list short, an exception in attempt `k` ends the loop with its text after `k + 1` attempts |
| Collection.CollectAborts | app.py:247-281 | the whole loop aborts with an exception's text after `k + 1` attempts when attempt `k` raises it and the earlier ones raised nothing and left the list short |
| Collection.CollectImages | app.py:243-321 | the imperative loop returns exactly `Collect` |
| Collection.AdmitBatch | app.py:285-317 | the inner loop over one response's images returns exactly `AdmitAll` of the batch |
| Collection.AdmitAllWhenFull | app.py:287-288 | a full list ignores any further batch |
| Collection.AdmitAllConcat | app.py:247-317 | processing two batches in turn equals processing them as one |
| Collection.CollectFromAsFold | app.py:247-321 | without exceptions, the loop's images are the candidates of the batches processed in order |
| Collection.CollectAsFold | app.py:243-321 | without exceptions, the images are the first distinct candidates of all `quantity*3` batches |
| Collection.AdmitAllSound | app.py:309-317 | every new entry comes from some candidate and carries its 1-based position |
| Collection.AdmitAllComplete | app.py:309-317 | a list that stays short has taken every candidate's original URL |
| RequestValidation.StrippedText | app.py:710 | a missing field reads as empty, a string field as its strip |
| RequestValidation.ParseInt | app.py:719 | all-digit text between white space reads as its decimal value, and so does a sign followed by digits (negated for `-`); every other text, blank included, fails |
| RequestValidation.ReadQuantity | app.py:719 | a missing quantity is 4; a number is taken as it is; a string is the number `int()` reads from it, or, when `int()` refuses it, non-numeric with that very string |
| RequestValidation.ValidateGenerate | app.py:703-766 | each check in order with its status: no body 400; a non-string prompt 500; an empty stripped prompt 400 "Prompt is required"; 1-2 characters 400; an unconvertible quantity 500, a non-numeric string 400 with the `int()` message; a bad aspect 400; a quantity outside 1..4 400; then accepted exactly when the selected cookies validate, else 401; 401 means a cookie refusal and 500 a crash; an accepted call carries the stripped prompt, the aspect (default "square"), the quantity read, the reference image, style and HD flag as sent, and the per-request jar |
| RequestValidation.LongPromptPasses | app.py:710-715 | a prompt that strips to 3 or more characters is never refused as missing or too short |
| RequestValidation.OwnCookiesAccepted | app.py:707-766 | with valid fields and a truthy PSID of its own, a request is accepted whatever the server's cookies and client, with the stripped prompt, the fields as sent and its own jar |
| RequestValidation.QuantityNotClamped | app.py:729-730 | any quantity read as a number outside 1..4 is refused, never clamped |
| RequestValidation.ParseIntRendered | app.py:719 | `int(" 42 ")` reads back any rendered natural number |
| RequestValidation.ParseIntSigned | app.py:719 | `int("-42")` reads back any rendered number negated, and `int("+42")` the number itself |
| RequestValidation.ShortPromptFirst | app.py:714-715 | a short prompt is refused before quantity and aspect are looked at |
| RequestValidation.DefaultCookiesNeedReadyClient | app.py:742-750 | without a per-request PSID, a valid request passes exactly when the server's PSID is set and its client is ready |
| RequestValidation.CookieUpdateAccepted | app.py:995-996 | `/api/update_cookies` goes on only when both values are truthy (definition) |
| RequestValidation.ValidateChat | app.py:1030-1044 | refused with 400 exactly when the stripped message is empty and no truthy image is sent; an accepted call carries the stripped message text, keeps the image and the per-request jar |
| Server.Upstream | app.py:145-239 | the upstream request uses the selected jar and the assembled text; the reference file is attached exactly when one was decoded |
| Server.Generate | app.py:243-379 | the cookies are unchanged; the client is dropped exactly for an auth-failure exception, whose text becomes the failure; when the collection loop completes, the call succeeds exactly when it found images, and a success carries exactly those images, their count and the attempts; an empty collection gives the fixed message |
| Server.HandleGenerate | app.py:689-773 | a refusal leaves the state as it was and answers with the verdict's status and its refusal's message; an accepted call answers 200 with exactly the state and result of `Generate` for that call |
| Server.SendMessage | app.py:395-479 | the selected jar needs both values truthy, else the "Missing PSID or PSIDTS" error; with both, the answer is the upstream's text, or its exception's message as the error |
| Server.HandleChat | app.py:1026-1062 | an accepted request answers with `SendMessage` for its user jar and the upstream reply, with 200 when that is an answer and 500 when it is an error; an empty one 400 "Message or image is required"; a crash 500 |
| Server.ExceptionFailsCall | app.py:359-379 | an exception in attempt `k`, after attempts that raised nothing and left the list short, makes the call fail with "Failed to generate images: " and the exception's text |
| Server.UpdateCookies | app.py:987-1018 | without both values truthy, nothing changes and the refusal says so; otherwise the jar takes both values, and the client is rebuilt and ready exactly when the handshake succeeds |
| Server.Health | app.py:645-655 | healthy exactly when the server's PSID is set and its client is ready |
| Server.AuthFailureInvalidatesSession | app.py:363-366 | after an auth failure the health check is unhealthy, and a request without its own cookies gets 401 |
| Server.UserCookiesBypassInvalidClient | app.py:100-111 | a request with its own truthy PSID is still served after the client was dropped |
| Server.OtherFailureKeepsClient | app.py:363-366 | other exceptions leave the server state as it was |
| Server.UpdateRevivesHealth | app.py:987-1018 | updating both cookies with a working handshake makes the server healthy again |
| Server.GeminiServer.constructor | app.py:36-52 | the jar from the environment, then `_initialize_client` |
| Server.GeminiServer.InitializeClient | app.py:54-98 | only the client flag changes, to `Initialized` of the jar |
| Server.GeminiServer.HealthCheck | app.py:645-655 | the answer is `Health` of the state: valid exactly with a PSID and a ready client |
| Server.GeminiServer.GenerateImages | app.py:139-379 | state and result are those of `Generate`; the upstream request is `Upstream` |
| Server.GeminiServer.GenerateEndpoint | app.py:689-773 | state, status and body are those of `HandleGenerate` |
| Server.GeminiServer.ChatEndpoint | app.py:1026-1062 | status and body are those of `HandleChat`; 200 only for an accepted request that the upstream answered |
| Server.GeminiServer.UpdateCookiesEndpoint | app.py:987-1018 | state and reply are those of `UpdateCookies` |
| ControlPanel.HandleSubmit | frontend/src/components/ControlPanel.jsx:17-25 | nothing exactly when the prompt is blank; otherwise exactly the form's untrimmed prompt, its aspect's id (an allowed one), its quantity (1 to 4) and its reference image |
| ControlPanel.NoMinimumLength | frontend/src/components/ControlPanel.jsx:17-24 | a two-character prompt is submitted, untrimmed |
| ControlPanel.ButtonDisabled | frontend/src/components/ControlPanel.jsx:176 | the button is disabled exactly when the prompt is blank or a generation runs |
| ControlPanel.EnabledButtonSubmits | frontend/src/components/ControlPanel.jsx:176 | an enabled button always submits; a refused submit always has a disabled button |
| ControlPanel.InitialRequest | frontend/src/components/ControlPanel.jsx:5-8 | the mounted panel submits a landscape request for one image with no reference |
| ControlPanel.Panel.constructor | frontend/src/components/ControlPanel.jsx:5-8 | empty prompt, landscape, quantity 1, no reference image |
| ControlPanel.Panel.SetPrompt | frontend/src/components/ControlPanel.jsx:56 | only the prompt changes |
| ControlPanel.Panel.SelectAspect | frontend/src/components/ControlPanel.jsx:82 | only the aspect changes |
| ControlPanel.Panel.SetQuantity | frontend/src/components/ControlPanel.jsx:105-110 | only the quantity changes, and stays in 1..4 |
| ControlPanel.Panel.ReferenceLoaded | frontend/src/components/ControlPanel.jsx:27-34 | only the reference image changes |
| ControlPanel.Panel.RemoveReferenceImage | frontend/src/components/ControlPanel.jsx:143 | the reference image is back to null and nothing else changes |
| ControlPanel.Panel.Submit | frontend/src/components/ControlPanel.jsx:17-25 | the call made is `HandleSubmit` of the state; no call exactly when the trimmed prompt is empty |
| AppView.Start | frontend/src/App.jsx:16-18 | busy, with the images cleared, before the request |
| AppView.CaughtMessage | frontend/src/App.jsx:29-37 | the caught message is `data.error` (empty when missing) or the exception's message |
| AppView.Finish | frontend/src/App.jsx:27-40 | never busy afterwards; a success stores exactly the reply's images; a failure adds one alert with the message and keeps the images |
| AppView.GalleryShown | frontend/src/App.jsx:55-57 | the gallery renders only with at least one image (definition) |
| AppView.OverlayShown | frontend/src/App.jsx:61 | the overlay renders only while a generation runs (definition) |
| AppView.StartShowsOverlayOnly | frontend/src/App.jsx:55-61 | while the request is out the overlay is shown and the gallery is not |
| AppView.HandleGenerateOutcome | frontend/src/App.jsx:16-61 | after a whole call the overlay is gone; a success shows exactly the reply's images; a failure shows no gallery and exactly one alert carrying the error |
| AppView.NoBusyGuard | frontend/src/App.jsx:16-18 | the handler starts the same way whether or not a generation runs |
| AppView.App.constructor | frontend/src/App.jsx:12-14 | idle, no images, settings closed |
| AppView.App.HandleGenerateStart | frontend/src/App.jsx:16-25 | the new state is `Start` of the old, and the request body is the submitted object |
| AppView.App.HandleGenerateFinish | frontend/src/App.jsx:27-39 | the new state is `Finish` of the old |
| AppView.App.SetSettingsOpen | frontend/src/App.jsx:44 | only the settings flag changes |
| SettingsModal.Save | frontend/src/components/SettingsModal.jsx:11-25 | an empty field (no trimming) only sets the error status; otherwise the status is cleared, saving starts and both fields are sent as typed |
| SettingsModal.FailureMessage | frontend/src/components/SettingsModal.jsx:37-41 | `data.error` or "Failed to save", or "Connection failed: " and the message; never empty |
| SettingsModal.ReceiveSave | frontend/src/components/SettingsModal.jsx:27-44 | saving ends; a success sets the success status and schedules one close; a failure sets the error status; the fields are untouched |
| SettingsModal.CloseTimer | frontend/src/components/SettingsModal.jsx:31-36 | the dialog closes, and both fields and the status are cleared |
| SettingsModal.RefusalKeepsSavingFlag | frontend/src/components/SettingsModal.jsx:12-15 | a refused save keeps the saving flag and sends nothing |
| SettingsModal.WhitespaceIsSent | frontend/src/components/SettingsModal.jsx:12 | blank but non-empty fields are sent as they are |
| SettingsModal.SaveAlwaysSettles | frontend/src/components/SettingsModal.jsx:17-44 | every reply ends saving with a non-empty status, a success status exactly for a success |
| SettingsModal.SuccessThenClose | frontend/src/components/SettingsModal.jsx:29-36 | a success followed by its timeout leaves a closed, empty dialog |
| SettingsModal.Dialog.constructor | frontend/src/components/SettingsModal.jsx:6-9 | empty fields, no status, not saving |
| SettingsModal.Dialog.SetOpen | frontend/src/components/SettingsModal.jsx:48 | only the open flag changes |
| SettingsModal.Dialog.SetPsid | frontend/src/components/SettingsModal.jsx:112 | only the PSID field changes |
| SettingsModal.Dialog.SetPsidts | frontend/src/components/SettingsModal.jsx:135 | only the PSIDTS field changes |
| SettingsModal.Dialog.HandleSave | frontend/src/components/SettingsModal.jsx:11-25 | state and request are those of `Save` |
| SettingsModal.Dialog.ReceiveSaveReply | frontend/src/components/SettingsModal.jsx:27-44 | the new state is `ReceiveSave` of the old |
| SettingsModal.Dialog.CloseTimerFires | frontend/src/components/SettingsModal.jsx:31-36 | the new state is `CloseTimer` of the old |
| Agreement.PagePromptPassesServer | static/js/app.js:420-431 | a generation request the page sends is never refused as missing its prompt, and is refused as too short only when the prompt holds a character outside the Basic Multilingual Plane |
| Agreement.AstralPromptRefused | app.py:714 | the two-emoji prompt "😀😀" passes the page's check (UTF-16 length 4) but the server refuses it as too short (2 code points) |
| Agreement.PageRequestWithStoredCookiesAccepted | static/js/app.js:453-468 | with an allowed aspect, a quantity from 1 to 4 and a stored PSID, the page's request is accepted, with its prompt and the stored cookies, exactly when the trimmed prompt has 3 or more code points, and is otherwise refused with 400 as too short |
| Agreement.PanelShortPromptRefused | frontend/src/components/ControlPanel.jsx:17-24 | the panel sends "ab", which the server refuses as too short |
| Agreement.PanelRequestsUseServerCookies | frontend/src/components/ControlPanel.jsx:19-24 | the panel sends no cookies, so its valid requests pass exactly when the server's own PSID is set and its client is ready |
| Agreement.PageChatNeverRefused | static/js/app.js:1009-1018 | a chat message the page sends is always accepted, with the same text and image |
| Agreement.PageSavePassesUpdate | static/js/app.js:837-843 | a pair the page sends always passes the "both cookies" check |
| Agreement.ModalSavePassesUpdate | frontend/src/components/SettingsModal.jsx:12-24 | a pair the dialog sends always passes it too |
| Agreement.BlankCookiesOnlyThroughDialog | frontend/src/components/SettingsModal.jsx:12 | blank cookies are refused by the page, sent by the dialog, and stored by the server |

## Left out

- Network, JSON and Flask routing: replies are input datatypes. Response bodies are modelled only in the fields the clients read. The `details`, `action`, `metadata`, `time` and `timestamp` fields are not modelled.
- The `gemini_webapi` client and `asyncio`:
  - The upstream handshake, each image request and each chat request are oracle inputs.
  - The event-loop fallbacks are not modelled.
  - The "Cookie initialization failed" branch of `send_message` is not modelled: constructing the client there is taken not to raise.
- Timers: the 30-second health poll, the 500 ms progress tick, the finalizing delay, the reload and close timeouts, and the one-second pause between attempts are explicit method calls or are not modelled. `Date.now()` is a parameter.
- Progress.Jump: `Math.random() * remaining * 0.1` is computed in exact rationals as `draw * remaining / (10 * 2^53)`. The floating-point rounding of the product is not modelled.
- `enforce_aspect_ratio` (cropping, sharpening, disk writes and the HTTP 403 retry chain): not modelled. Its result is an input of each candidate (`processed`); a truthy result is used as the image URL, anything else falls back to the proxy URL.
- `proxy_image`, the upload resize, and upscale resampling and encoding: not modelled. Only the size gate of `/api/upscale` and `allowed_file` are.
- The `.env` and `os.environ` writes of `update_cookies`: not modelled.
- The base64 decoding and temporary-file handling of reference and chat images: whether decoding succeeded is an input, and chat images are passed through.
- `enhancer.py`, `enhancePrompt`, `upscaleImage` and the `/api/enhance` client flow: not modelled.
- DOM presentation: toasts, the lightbox, tab switching, CSS injection, `displayResults`, `downloadImage`'s blob handling, and the markup of `Gallery.jsx`, `Header.jsx`, `Hero.jsx` and `LoadingOverlay.jsx`. `DownloadAllImages` keeps only the order of its calls.
- Text.Trim: white space is the ASCII set (space, tab, LF, CR, VT, FF), and the one definition serves both JavaScript's `trim` and Python's `strip`. The two differ outside that set: `strip` also removes the separators `\x1c`-`\x1f` and U+0085 (next line), which `trim` keeps; `trim` removes U+FEFF (byte-order mark), which `strip` keeps; both remove the other Unicode spaces. None of these is modelled, so a prompt the page accepts could in principle strip shorter on the server.
- Text.JsLength: a JavaScript string is modelled as a sequence of Unicode scalar values, so a string holding an unpaired surrogate is not representable.
- Text.Lower: lower-cases ASCII letters only. This decides the auth-failure rule and `allowed_file` exactly as Python's `str.lower`, since no other character lower-cases into a letter that completes one of the words or extensions tested.
- RequestValidation.ParseInt: underscores between digits and non-ASCII digits, which Python's `int()` accepts, are not modelled. A float quantity is not modelled either: `int()` truncates it.
- RequestValidation.ValidateGenerate: the `ValueError` text for a bad quantity is modelled with plain single quotes around the value, without Python's `repr` escaping. A non-string aspect value is not modelled. A JSON body that is not an object (a list, a number or a string) is not modelled: `data.get` raises and the generic handler answers 500. A truthy `cookies` value that is not an object is not modelled either: its `.get` raises, also a 500.
- RequestValidation.ValidateChat: a non-object JSON body, which makes the handler fail with a 500, is not modelled. A crash's message text is not modelled (`ChatCrashed`).
- Server.UpdateCookies: a body that is not an object, or a non-string cookie value, is not modelled.
- Concurrency: Flask requests and JavaScript callbacks are taken to run one at a time, in the order the methods are called.
- `handleSave` of the React dialog writes no browser storage. The dialog model holds no storage at all, so this holds by construction.
