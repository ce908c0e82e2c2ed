# WP Text to Speech / WP Speech — a verified model of the plugins' logic

The repository ships two WordPress text-to-speech plugins under two brand prefixes: "WP Text
to Speech" (`wp-tts`) and "WP Speech" (`wpspeech`). Each file has a twin of the same length:
`assets/js/wp-tts-frontend.js` / `assets/js/wpspeech-frontend.js`,
`assets/js/wp-tts-admin.js` / `assets/js/wpspeech-admin.js` and
`includes/class-wp-tts-admin.php` / `includes/class-wpspeech-admin.php`.
- The script twins differ in CSS class names, element ids, custom-property names and a few
  default label and message strings.
- The admin class twins also differ in class names, text domains, menu and page titles,
  option-key constants and docblocks.

The functions this model covers are the same line for line in both twins. These are
`sanitize_settings` (class-wp-tts-admin.php:107-140), the player's handlers and the
settings screen's tab, voice and preview code. Their differences are only the selectors and
strings the model does not represent, so one model serves both. The table below cites the
`wp-tts` file of each pair, and every citation holds at the same line of the `wpspeech` twin.

The model covers four pieces of logic:

- **The front-end player** (`frontend.js`). A visitor reads an article aloud through the
  browser's speech synthesis engine, one sentence at a time.
  - `Speech` models the engine: a queue of utterances with identities, a `paused` flag, and
    `end`/`error` events delivered later, in order. `Speech.SpeechEngine` is that engine as
    an object.
  - `Playback` models the script's state (`currentIndex`, `isPlaying`, `isPaused`, the current
    utterance, the page's stop button, active class, sticky player and progress display).
    Each handler is a function from the world before it to the world after it.
  - With the handlers as written, `Playback` proves that every reachable world keeps a
    weaker invariant (`Sound`). With the `onend`/`onerror` handlers corrected to ignore events
    of replaced utterances, it proves the full invariant (`Valid`). "Findings" shows the
    two inputs that break the stronger one.
  - `Frontend.Player` is the script's module state as a class whose methods update their
    fields in place. Each method is proved to change the state exactly as the `Playback`
    function of the same name says.
- **The REST API's text shaping and handlers** (`includes/class-wp-tts-rest-api.php`), in
  `RestApi`:
  - the cleanup tail of `html_to_plain_text`, `split_into_sentences`, `estimate_duration`
    and `format_settings`;
  - the 404/403 decisions, the pagination cap and the route validators;
  - `get_speech_data`, `get_tts_settings` and the listing loop of `get_tts_enabled_posts`.
- **The settings sanitiser** (`sanitize_settings` of the admin class), in `Settings`. It
  uses the PHP value semantics of `Php`: `isset`, `empty`, truthiness, the casts, strict
  `in_array` and `round`.
- **The settings screen's script** (`admin.js`), in `AdminUi`:
  - keyboard navigation between tabs and `activateTab` on arrays of tabs and panels;
  - `populateVoices` on the voice select;
  - the preview button's `isPreviewPlaying` flag.

`Text` holds the string machinery both splitters share:
- the whitespace classes of ECMAScript `\s`, PCRE `\s` and PHP `trim`;
- collapsing runs, trimming, the look-behind split on "punctuation then white space", and
  joining.

WordPress and PHP functions whose definitions are not part of the model are parameters:
- `sanitize_key`, `sanitize_text_field`, `sanitize_hex_color`, string-to-number conversion
  and `is_numeric` (`Php.Host`);
- the content filters and HTML-to-text steps, `str_word_count`, `rest_url` and `WP_Query`
  (`RestApi.Site`).

## Model

| member | source | states |
|---|---|---|
| Playback.Normalized | assets/js/wp-tts-frontend.js:88-90 | the collapsed, trimmed text neither starts nor ends with white space |
| Playback.SplitShape | assets/js/wp-tts-frontend.js:87-93 | every sentence is non-empty and trimmed, and every sentence but the last ends in `.`, `!` or `?` |
| Playback.SplitRoundTrip | assets/js/wp-tts-frontend.js:88-92 | joining the sentences with single spaces gives back the input with white-space runs collapsed and the ends trimmed |
| Playback.SplitEmpty | assets/js/wp-tts-frontend.js:87-93 | the split is empty exactly when the text is blank |
| Playback.SplitWhole | assets/js/wp-tts-frontend.js:87-93 | text without a punctuation-then-space boundary is one sentence, or none when blank |
| Playback.ChooseVoiceFirst | assets/js/wp-tts-frontend.js:129-135 | a voice is set exactly when the configured name is non-empty and some engine voice has it; it is the first voice with that name |
| Playback.Init | assets/js/wp-tts-frontend.js:38-85 | after `init` the player is idle at the first sentence with no utterance |
| Playback.UpdateStickyVisibility | assets/js/wp-tts-frontend.js:301-311 | the sticky player, when it exists, is visible exactly when playing or paused and the main player is out of view |
| Playback.UpdateUISyncs | assets/js/wp-tts-frontend.js:173-197 | after `updateUI` the stop button is disabled and the player inactive exactly when idle, the sticky player follows, and nothing else changes |
| Playback.PctRounds | assets/js/wp-tts-frontend.js:203 | the percentage is `100·i/n`, computed exactly, rounded to the nearest integer with halves up (the rounding rule of `Math.round`) |
| Playback.PctBounds | assets/js/wp-tts-frontend.js:199-220 | the percentage lies in [0, 100], is 0 exactly when `200·i < n`, and is 100 at the end |
| Playback.DivUnique | assets/js/wp-tts-frontend.js:203 | integer division is the unique quotient bracketing the dividend, which the rounding proofs use |
| Playback.UpdateProgress | assets/js/wp-tts-frontend.js:199-220 | no sentences: nothing changes; otherwise the counter reads `currentIndex / length` and the bar shows `Pct` of them, which `PctRounds` ties to `Math.round(100·i/n)`; nothing but the progress display changes |
| Playback.ProgressInRange | assets/js/wp-tts-frontend.js:199-220 | with the index in range, the displayed percentage lies in [0, 100] |
| Playback.ResetPlayer | assets/js/wp-tts-frontend.js:222-243 | `resetPlayer` leaves the player idle at the first sentence, the page in line and the progress cleared |
| Playback.SpeakFromValid | assets/js/wp-tts-frontend.js:113-158 | `speakFrom` leaves a valid world from any state whose utterance identities are in order |
| Playback.TogglePlayPauseValid | assets/js/wp-tts-frontend.js:95-111 | `togglePlayPause` keeps the invariant |
| Playback.StopSpeechValid | assets/js/wp-tts-frontend.js:160-163 | `stopSpeech` keeps the invariant |
| Playback.OnSpeedChangeValid | assets/js/wp-tts-frontend.js:165-171 | `onSpeedChange` keeps the invariant |
| Playback.FinishValid | assets/js/wp-tts-frontend.js:137 | the engine finishing the spoken utterance keeps the invariant |
| Playback.FailValid | assets/js/wp-tts-frontend.js:147 | the engine failing the spoken utterance keeps the invariant |
| Playback.DeliverKeepsValid | assets/js/wp-tts-frontend.js:137-152 | taking an event off the engine's list keeps the invariant |
| Playback.OnEndValid | assets/js/wp-tts-frontend.js:137-145 | `onend` of the current utterance keeps the invariant |
| Playback.DeliverEventValid | assets/js/wp-tts-frontend.js:137-152 | with the corrected handlers, handing the oldest event to its utterance's handler keeps the invariant |
| Playback.StepValid | assets/js/wp-tts-frontend.js:95-171 | with the corrected handlers, every visitor action and every engine action keeps the invariant |
| Playback.RunValid | assets/js/wp-tts-frontend.js:95-171 | with the corrected handlers, any sequence of actions from a valid world ends in a valid world |
| Playback.Reachable | assets/js/wp-tts-frontend.js:38-171 | with the corrected handlers, from the loaded page: the player is never playing and paused at once; its index stays within the sentences; the stop button, active class and sticky player follow the state; the engine holds at most the current utterance, and nothing while the player is idle |
| Playback.SpeakFromSound | assets/js/wp-tts-frontend.js:113-158 | `speakFrom` leaves a sound world from any state whose utterance identities are in order and whose engine holds at most the current utterance |
| Playback.DeliverAsWrittenSound | assets/js/wp-tts-frontend.js:137-152 | handing the oldest event to `onend` or `onerror` as written keeps `Sound`, whichever utterance the event names |
| Playback.StepSound | assets/js/wp-tts-frontend.js:95-171 | with the handlers as written, every visitor action and every engine action keeps `Sound` |
| Playback.RunSound | assets/js/wp-tts-frontend.js:95-171 | with the handlers as written, any sequence of actions from a sound world ends in a sound world |
| Playback.ReachableAsWritten | assets/js/wp-tts-frontend.js:38-171 | with the handlers as written, from the loaded page: the player is never playing and paused at once; its index stays within the sentences; the page follows the state; the engine holds at most one utterance, the current one |
| Playback.TogglePlayPauseCases | assets/js/wp-tts-frontend.js:95-111 | paused goes to playing with the engine resumed; playing goes to paused with the engine paused; idle speaks from the first sentence |
| Playback.ToggleTwice | assets/js/wp-tts-frontend.js:95-111 | pausing and resuming undo each other |
| Playback.SpeakFromSpec | assets/js/wp-tts-frontend.js:113-158 | past the end: reset, engine untouched. Otherwise: playing at `index`; the engine was cancelled before the speak, so it holds only the new utterance with that sentence's text; the cancelled ones get their error events |
| Playback.StopSpeechIdempotent | assets/js/wp-tts-frontend.js:160-163 | `stopSpeech` ends idle at the first sentence with a silent engine, and a second stop changes nothing |
| Playback.OnSpeedChangeSpec | assets/js/wp-tts-frontend.js:165-171 | idle: only the value changes. Playing or paused: the current sentence restarts at the new rate and the player ends up playing |
| Playback.OnErrorSpec | assets/js/wp-tts-frontend.js:147-152 | with the corrected handler: an error of the current utterance resets to idle at the first sentence and warns unless the error is `canceled`; an error of a replaced utterance changes nothing |
| Playback.CompleteStep | assets/js/wp-tts-frontend.js:137-145 | a completed sentence moves the player to the next one and speaks it, or resets after the last one |
| Playback.PlaysToEnd | assets/js/wp-tts-frontend.js:137-145 | left to play from sentence `i`, after the remaining sentences have ended the player is idle at the first sentence with a silent engine |
| Playback.PressPlayStarts | assets/js/wp-tts-frontend.js:95-111 | from idle, pressing play starts reading the first sentence |
| Playback.PlayWholeText | assets/js/wp-tts-frontend.js:95-145 | pressing play and letting `n` sentences end leaves the player idle at the first sentence |
| Playback.StaleErrorAsWritten | assets/js/wp-tts-frontend.js:147-152 | with the handlers as written, the error event of the utterance `onSpeedChange` cancelled resets a player whose new utterance is still speaking |
| Playback.StaleErrorIgnored | assets/js/wp-tts-frontend.js:147-152 | with the corrected handlers, the same stale event leaves the player playing |
| Playback.StaleEndAsWritten | assets/js/wp-tts-frontend.js:137-145 | with the handlers as written, the `end` event of a sentence that finished before a speed change moves the player on to the next sentence and cancels the restarted one |
| Playback.StaleEndIgnored | assets/js/wp-tts-frontend.js:137-145 | with the corrected handlers, the same late `end` event leaves the player and the engine as they were, still speaking the restarted sentence |
| Frontend.Player.constructor | assets/js/wp-tts-frontend.js:38-85 | the new player's state is `Playback.Init` of the settings and the split text |
| Frontend.Player.UpdateStickyVisibility | assets/js/wp-tts-frontend.js:301-311 | updates the fields as `Playback.UpdateStickyVisibility` |
| Frontend.Player.UpdateUI | assets/js/wp-tts-frontend.js:173-197 | updates the fields as `Playback.UpdateUI` |
| Frontend.Player.UpdateProgress | assets/js/wp-tts-frontend.js:199-220 | updates the fields as `Playback.UpdateProgress` |
| Frontend.Player.ResetPlayer | assets/js/wp-tts-frontend.js:222-243 | updates the fields as `Playback.ResetPlayer` |
| Frontend.Player.Begin | assets/js/wp-tts-frontend.js:113-135 | moves to sentence `index`, playing, and returns the utterance `Playback.NewUtterance` describes |
| Frontend.Player.SpeakFrom | assets/js/wp-tts-frontend.js:113-158 | player and engine change as `Playback.SpeakFrom` |
| Frontend.Player.TogglePlayPause | assets/js/wp-tts-frontend.js:95-111 | player and engine change as `Playback.TogglePlayPause`; the invariant is kept |
| Frontend.Player.StopSpeech | assets/js/wp-tts-frontend.js:160-163 | player and engine change as `Playback.StopSpeech`; the invariant is kept |
| Frontend.Player.OnSpeedChange | assets/js/wp-tts-frontend.js:165-171 | player and engine change as `Playback.OnSpeedChange`; the invariant is kept |
| Frontend.Player.OnIntersection | assets/js/wp-tts-frontend.js:252-256 | the observer's report changes the state as `Playback.OnIntersection`; the invariant is kept |
| Frontend.Player.OnEnd | assets/js/wp-tts-frontend.js:137-145 | with the corrected handler, player and engine change as `Playback.OnEnd` |
| Frontend.Player.OnError | assets/js/wp-tts-frontend.js:147-152 | the player changes as `Playback.OnError` |
| Frontend.Player.Dispatch | assets/js/wp-tts-frontend.js:137-152 | with the corrected handlers, delivering the engine's oldest event changes the world as `Playback.DeliverEvent`; the invariant is kept |
| Frontend.Load | assets/js/wp-tts-frontend.js:38-85 | `init` splits the article's text and builds a fresh player in the `Init` state |
| Speech.CancelEvents | assets/js/wp-tts-frontend.js:154 | cancelling raises one error event per queued utterance, in queue order: `interrupted` for the one being spoken, `canceled` for the rest |
| Speech.CancelEmpties | assets/js/wp-tts-frontend.js:154 | `cancel()` empties the queue, keeps the paused flag and appends one event per removed utterance |
| Speech.CancelThenSpeak | assets/js/wp-tts-frontend.js:154-155 | cancel followed by speak leaves exactly the new utterance queued, whatever was there |
| Speech.SpeechEngine.constructor | assets/js/wp-tts-frontend.js:16 | a fresh engine is silent, unpaused and without events |
| Speech.SpeechEngine.Speak | assets/js/wp-tts-frontend.js:155 | the utterance joins the end of the queue |
| Speech.SpeechEngine.Cancel | assets/js/wp-tts-frontend.js:154 | the queue empties and each removed utterance gets its error event |
| Speech.SpeechEngine.Pause | assets/js/wp-tts-frontend.js:104 | the engine is paused |
| Speech.SpeechEngine.Resume | assets/js/wp-tts-frontend.js:97 | the engine is resumed |
| Speech.SpeechEngine.Finish | assets/js/wp-tts-frontend.js:137 | the spoken utterance leaves the queue and its `end` event is raised |
| Speech.SpeechEngine.Fail | assets/js/wp-tts-frontend.js:147 | the spoken utterance leaves the queue and its `error` event is raised |
| Speech.SpeechEngine.Deliver | assets/js/wp-tts-frontend.js:137-152 | returns and removes the oldest raised event |
| Speech.FindVoice | assets/js/wp-tts-frontend.js:131 | `voices.find` by name: the first voice with that name, or none when no voice has it |
| RestApi.CleanupShape | includes/class-wp-tts-rest-api.php:320-323 | after the cleanup tail there are no two adjacent dots, no two adjacent white-space characters, and no white space at either end |
| RestApi.CleanupIdempotent | includes/class-wp-tts-rest-api.php:320-323 | cleaning cleaned text changes nothing |
| RestApi.SplitSentencesShape | includes/class-wp-tts-rest-api.php:334-344 | every sentence is non-empty and trimmed, and every sentence but the last ends in `.`, `!` or `?` |
| RestApi.NoNulWithin | includes/class-wp-tts-rest-api.php:336 | on text without NUL bytes, every character `trim` strips is one `\s` matches |
| RestApi.SplitCleanRoundTrip | includes/class-wp-tts-rest-api.php:320-344 | on cleaned text without NUL bytes, joining the sentences with single spaces gives back the text |
| RestApi.Wpm | includes/class-wp-tts-rest-api.php:359-363 | words per minute are positive: 150 times a positive rate, 150 otherwise |
| RestApi.EstimateDuration | includes/class-wp-tts-rest-api.php:357-366 | the estimate is a non-negative number of seconds |
| RestApi.EstimateNearest | includes/class-wp-tts-rest-api.php:365 | the estimate is `words / wpm · 60` rounded to the nearest integer, halves up |
| RestApi.NonPositiveRate | includes/class-wp-tts-rest-api.php:361-363 | a rate of zero or below estimates as rate 1 |
| RestApi.EstimateExamples | includes/class-wp-tts-rest-api.php:357-366 | 0 words give 0; 5 words give 2 at rate 1 and 1 at rate 2; 150 words at rate 1 give 60 |
| RestApi.EstimateMonotone | includes/class-wp-tts-rest-api.php:357-366 | more words never give a shorter estimate |
| RestApi.EnabledTypes | includes/class-wp-tts-rest-api.php:164 | without a stored list the enabled post types are `['post']` |
| RestApi.ServesStoredSettings | includes/class-wp-tts-rest-api.php:376-383 | the API serves exactly what `sanitize_settings` stored: rate, pitch, volume, voice and post types, with the rate within [0.5, 2] |
| RestApi.SettingsEndpointStored | includes/class-wp-tts-rest-api.php:213-220 | once the form has been saved, `/settings` returns the stored rate, pitch, volume, voice and post types, each number within the range the form clamps it to |
| RestApi.NoOptionDefaults | includes/class-wp-tts-rest-api.php:376-383 | with no option stored, `format_settings` gives rate, pitch and volume 1.0 and voice `''`; posts are enabled and pages are not (line 164) |
| RestApi.AbsInt | includes/class-wp-tts-rest-api.php:75 | `absint` keeps a non-negative integer as it is |
| RestApi.CapPerPage | includes/class-wp-tts-rest-api.php:236 | `min(per_page, 50)` is at most 50 and at most the request's value, and is one of the two |
| RestApi.ValidPerPageKept | includes/class-wp-tts-rest-api.php:117-119 | a `per_page` the validator accepts survives `absint` and the cap unchanged, within (0, 50] |
| RestApi.ValidIdKept | includes/class-wp-tts-rest-api.php:72-74 | an `id` or `page` the validators accept survives `absint` unchanged and is positive |
| RestApi.Decimal | includes/class-wp-tts-rest-api.php:279 | a post id prints as a non-empty string of digits |
| RestApi.Digit | includes/class-wp-tts-rest-api.php:279 | each decimal digit prints as the character of that value |
| RestApi.DecimalRoundTrip | includes/class-wp-tts-rest-api.php:279 | reading a printed id back gives the id |
| RestApi.SpeechPathRoutes | includes/class-wp-tts-rest-api.php:62 | the endpoint path printed for a post matches the speech route with that post's id |
| RestApi.GetSpeechData | includes/class-wp-tts-rest-api.php:151-201 | 404 exactly when the post is missing or not published; 403 exactly when it is published and its type is not enabled; on success the sentence count is the number of sentences, the word count is `str_word_count` of the plain text, the settings are the formatted option and the duration is the estimate for that word count at the stored rate |
| RestApi.SpeechDataSentences | includes/class-wp-tts-rest-api.php:178-192 | the sentences served are non-empty, trimmed, end in punctuation but the last, and join back to the plain text, for content whose text holds no NUL byte |
| RestApi.GetTtsSettings | includes/class-wp-tts-rest-api.php:213-220 | the settings endpoint returns the formatted settings and the enabled post types; with no option stored that is 1.0/1.0/1.0/`''` and `['post']` |
| RestApi.PostsQuery | includes/class-wp-tts-rest-api.php:248-259 | the query asks for published posts of the type, capped page size and the page; a search only when it is non-empty and not `"0"` |
| RestApi.Summarize | includes/class-wp-tts-rest-api.php:262-281 | each listed post keeps its id; its word count is `str_word_count` of its plain text; its duration is the non-negative estimate for that count at the stored rate; its endpoint is `rest_url` of its own speech path |
| RestApi.ListingAgreesWithSpeech | includes/class-wp-tts-rest-api.php:262-281 | a listed post's endpoint routes to that post, and its word count and duration are the ones its `/speech/{id}` response reports |
| RestApi.SummarizePosts | includes/class-wp-tts-rest-api.php:262-281 | the loop appends one summary per post: as many entries as posts, entry `k` summarising post `k` |
| RestApi.GetEnabledPosts | includes/class-wp-tts-rest-api.php:232-292 | 403 exactly when the type is not enabled; otherwise one summary per queried post, in query order, with the capped page size, the page and the query's totals |
| Settings.MapSanitizeKey | includes/class-wp-tts-admin.php:112 | `array_map('sanitize_key')` keeps length, keys and order and sanitises each value |
| Settings.PostTypes | includes/class-wp-tts-admin.php:110-113 | a non-empty array input is stored entry by entry with its keys, each value passed through `sanitize_key`; any other input stores an empty list |
| Settings.Number | includes/class-wp-tts-admin.php:117-124 | a numeric setting lies within its bounds; it is 1.0 when missing, the input when that is within bounds, the upper bound above it and the lower bound below it |
| Settings.Color | includes/class-wp-tts-admin.php:126-127 | the colour is the hex-sanitised input when that is accepted, `#d60017` otherwise |
| Settings.SanitizeSettings | includes/class-wp-tts-admin.php:107-140 | rate in [0.5, 2], pitch in [0, 2], volume in [0, 1], each the clamped input; post types, colour and voice as `PostTypes`, `Color` and `sanitize_text_field` (or `''`) give them; position `before` or `after`, `after` exactly when asked for; colour truthy; each flag is the non-emptiness of its input |
| Settings.StoredEntries | includes/class-wp-tts-admin.php:108-139 | the stored option has exactly the eleven keys, each holding its field |
| Settings.MapSanitizeKeyIdempotent | includes/class-wp-tts-admin.php:112 | mapping an idempotent `sanitize_key` twice equals mapping it once |
| Settings.PostTypesReread | includes/class-wp-tts-admin.php:110-113 | reading the post types back from an array that stores a sanitised list gives that list again, when `sanitize_key` is idempotent |
| Settings.PostTypesIdempotent | includes/class-wp-tts-admin.php:110-113 | re-sanitising stored post types keeps them |
| Settings.TextIdempotent | includes/class-wp-tts-admin.php:115-127 | re-sanitising keeps the voice name and the colour |
| Settings.ClampsIdempotent | includes/class-wp-tts-admin.php:117-131 | re-sanitising keeps rate, pitch, volume and position, whatever the foreign sanitisers do |
| Settings.FlagsIdempotent | includes/class-wp-tts-admin.php:133-136 | re-sanitising keeps the four flags |
| Settings.SanitizeIdempotent | includes/class-wp-tts-admin.php:107-140 | saving the stored option through the form again stores the same option |
| Php.Trunc | includes/class-wp-tts-rest-api.php:236 | `(int)` on a float truncates toward zero, as the handler's casts (lines 236-237) and the route validators (lines 73, 118, 127) apply it |
| Php.RoundHalfUp | includes/class-wp-tts-rest-api.php:365 | `round` of a non-negative number is the nearest integer, halves up |
| AdminUi.NextTab | assets/js/wp-tts-admin.js:28-51 | arrows right/down go to the next tab, wrapping from the last to 0; left/up go to the previous, wrapping from 0 to the last; Home is 0, End is the last; any other key selects no tab |
| AdminUi.ArrowsInverse | assets/js/wp-tts-admin.js:33-38 | a step right and a step left undo each other |
| AdminUi.Forward | assets/js/wp-tts-admin.js:33-35 | `k` steps right stay within the tabs |
| AdminUi.ForwardWraps | assets/js/wp-tts-admin.js:35 | `k` steps right from `i` reach `(i + k) mod n` |
| AdminUi.ModSmall | assets/js/wp-tts-admin.js:35-38 | a remainder of a value below `2n` is the value, or the value less `n` |
| AdminUi.ModStep | assets/js/wp-tts-admin.js:35 | one wrapping step right adds one modulo `n` |
| AdminUi.ForwardFullCircle | assets/js/wp-tts-admin.js:33-35 | `n` steps right come back to the same tab |
| AdminUi.ActivatedExactlyOne | assets/js/wp-tts-admin.js:7-21 | after `activateTab(t)` exactly tab `t` is active and selected with no tabindex, every other tab is unselected with tabindex -1, and exactly the panels named by `t` are active |
| AdminUi.ActivatedForgetsHistory | assets/js/wp-tts-admin.js:7-21 | the tabs after `activateTab(t)` do not depend on which tab was active before |
| AdminUi.TabList.constructor | assets/js/wp-tts-admin.js:7-21 | the tab list holds the page's tabs and panels |
| AdminUi.TabList.ActivateTab | assets/js/wp-tts-admin.js:7-21 | rewrites the tabs and panels in place to `Activated` and `Shown` of their old contents |
| AdminUi.TabList.KeyDown | assets/js/wp-tts-admin.js:28-51 | another key leaves tabs and panels as they were; a navigation key activates the tab `NextTab` chooses |
| AdminUi.OptionFor | assets/js/wp-tts-admin.js:96-104 | an option's value is the voice's name and it is selected exactly when that name is the saved voice |
| AdminUi.VoiceOptions | assets/js/wp-tts-admin.js:96-104 | one option per voice, in voice order |
| AdminUi.PopulatedShape | assets/js/wp-tts-admin.js:83-105 | with voices, the select keeps its first option and then lists one option per voice, in order |
| AdminUi.PopulatedIdempotent | assets/js/wp-tts-admin.js:83-105 | populating a select that has its placeholder twice equals populating it once |
| AdminUi.EmptySelectNotIdempotent | assets/js/wp-tts-admin.js:92-104 | on a select without a placeholder option, populating twice differs from populating once: the first voice's option is kept and the voices appended again |
| AdminUi.VoiceSelect.constructor | assets/js/wp-tts-admin.js:80 | the select holds the page's options |
| AdminUi.VoiceSelect.PopulateVoices | assets/js/wp-tts-admin.js:83-105 | the options become `Populated` of the old ones: unchanged with no voices, otherwise the first option kept and one option per voice |
| AdminUi.PreviewFlagRules | assets/js/wp-tts-admin.js:132-192 | the flag becomes set only by `onstart`; stop, `onend` and `onerror` clear it; an empty click changes nothing; a click with text leaves it clear |
| AdminUi.PreviewRunSet | assets/js/wp-tts-admin.js:132-192 | after any sequence of events the flag is set exactly when it started set and nothing since changed it, or some `onstart` was followed only by empty clicks |
| AdminUi.Preview.constructor | assets/js/wp-tts-admin.js:130 | the preview starts not playing |
| AdminUi.Preview.Click | assets/js/wp-tts-admin.js:132-171 | empty text: nothing happens; while previewing: the engine is cancelled and the flag cleared; otherwise the engine is cancelled and the new utterance spoken |
| AdminUi.Preview.Stop | assets/js/wp-tts-admin.js:173-176 | the engine is cancelled and the flag cleared |
| AdminUi.Preview.HandleStart | assets/js/wp-tts-admin.js:159-161 | `onstart` sets the flag |
| AdminUi.Preview.HandleEnd | assets/js/wp-tts-admin.js:162-164 | `onend` clears the flag |
| AdminUi.Preview.HandleError | assets/js/wp-tts-admin.js:165-167 | `onerror` clears the flag |

The handlers themselves are functions without contracts of their own; the rows above state
their properties. Each handler, the lines it models and the lemmas about it:
- `Playback.SplitIntoSentences` (assets/js/wp-tts-frontend.js:87-93): `SplitShape`, `SplitRoundTrip`, `SplitEmpty`, `SplitWhole`.
- `Playback.ChooseVoice` (129-135): `ChooseVoiceFirst`.
- `Playback.TogglePlayPause` (95-111): `TogglePlayPauseCases`, `ToggleTwice`, `TogglePlayPauseValid`.
- `Playback.SpeakFrom` (113-158): `SpeakFromSpec`, `SpeakFromValid`, `SpeakFromSound`.
- `Playback.StopSpeech` (160-163): `StopSpeechIdempotent`, `StopSpeechValid`.
- `Playback.OnSpeedChange` (165-171): `OnSpeedChangeSpec`, `OnSpeedChangeValid`.
- `Playback.UpdateUI` (173-197): `UpdateUISyncs`.
- `Playback.OnIntersection` (252-256): `UpdateStickyVisibility`, `Frontend.Player.OnIntersection`.
- `Playback.OnEnd` and `Playback.OnEndAsWritten` (137-145): `CompleteStep`, `OnEndValid`, `PlaysToEnd`, `StaleEndAsWritten`, `StaleEndIgnored`.
- `Playback.OnError` and `Playback.OnErrorAsWritten` (147-152): `OnErrorSpec`, `StaleErrorAsWritten`, `StaleErrorIgnored`.
- `RestApi.CleanupTail` (includes/class-wp-tts-rest-api.php:320-323): `CleanupShape`, `CleanupIdempotent`.
- `RestApi.SplitSentences` (334-344): `SplitSentencesShape`, `SplitCleanRoundTrip`.
- `RestApi.FormatSettings` (376-383): `ServesStoredSettings`, `NoOptionDefaults`.

## Left out

- Keep-alive: `setupMobileKeepAlive` (assets/js/wp-tts-frontend.js:344-356) is a timer that works around browser background behaviour; timers are not modelled.
- DOM construction and text: the sticky player's DOM, icons, labels, aria text and `focus()` are left out; the page is reduced to the stop button's disabled state, the active class, the sticky player's visibility and the progress display.
- Floating point: rates, pitches and volumes are exact reals; `parseFloat` on odd strings and a speed value not among the select's options are not modelled.
- Settings in the browser: `wp_localize_script` turns every top-level setting into a string, so a stored `0` arrives as the truthy string `"0"` and `settings.x || 1` keeps it. The player therefore speaks a stored 0 as 0, not as 1; the model follows the code (`Playback.OrOne` of `Some(0.0)` is 0).
- Frontend.Player.constructor: takes the sentences already split; `Frontend.Load` does the split of `init`. The `init` guards for a missing player element or missing speech support are page glue.
- Frontend.Player.OnError: the engine's `error` event for an utterance that is no longer current is ignored, as the corrected handler under "Findings" does; the handlers as written are `Playback.OnEndAsWritten` and `Playback.OnErrorAsWritten`.
- Playback.DeliverEventValid: proved with the corrected `onend` and `onerror`, which ignore events of replaced utterances; with the handlers as written only `Sound` is kept (`Playback.DeliverAsWrittenSound`).
- Playback.StepValid: proved with the corrected handlers; with the handlers as written only `Sound` is kept (`Playback.StepSound`).
- Playback.RunValid: proved with the corrected handlers; with the handlers as written only `Sound` is kept (`Playback.RunSound`).
- Playback.Reachable: proved with the corrected handlers. The script as written keeps only `Sound` (`Playback.ReachableAsWritten`), which leaves out "an idle player has a silent engine": a late event can reset or move the player while the engine still speaks.
- Playback.OnErrorSpec: states the corrected handler; the handler as written, `Playback.OnErrorAsWritten`, resets on every error, including errors of replaced utterances.
- Frontend.Player.OnEnd: implements the corrected handler; the handler as written, `Playback.OnEndAsWritten`, advances on every `end` event, including a late one from a replaced utterance.
- Frontend.Player.Dispatch: delivers events to the corrected handlers; delivery to the handlers as written is `Playback.DeliverEventAsWritten`.
- Playback.PctRounds: `Pct` computes `100·i/n` exactly, while the script rounds the double-precision `(currentIndex / sentences.length) * 100` (assets/js/wp-tts-frontend.js:203). When `200·i/n` is within rounding error of a half the two can differ by one: at `i = 23, n = 40` the double is just below 57.5, so the bar shows 57 where `Pct` gives 58. Playback.UpdateProgress and Frontend.Player.UpdateProgress inherit this difference; the counter text and the bounds in `Playback.PctBounds` are unaffected.
- Playback.UpdateProgress: the bar shows `Pct`, so it inherits the difference from the double-precision `Math.round` described for Playback.PctRounds; so does Frontend.Player.UpdateProgress.
- Playback.Init: the speed control's initial value is the parameter `speed`; the script sets it to `settings.speechRate || 1` (assets/js/wp-tts-frontend.js:73-74), and the browser then snaps that to one of the select's options, which is not modelled.
- Engine `pause()` and `cancel()`: cancelling leaves the engine's paused flag as it was, so a speed change while paused restarts the sentence with the player playing and the engine still paused. The model states this and does not claim more.
- html_to_plain_text: the regular-expression substitutions over HTML, `wp_strip_all_tags`, `html_entity_decode` and `apply_filters('the_content')` are one foreign function `Site.markupToText`; only the dot, white-space and trim tail is modelled.
- `str_word_count`, `rest_url`, `WP_Query`, `get_post`: parameters of `RestApi.Site` and of the handlers.
- Response fields `title`, `excerpt`, `featured_image`, `author`, `date`: foreign WordPress calls, not modelled.
- RestApi.EstimateDuration: its own contract states only the sign; the nearest-integer value is `RestApi.EstimateNearest`.
- RestApi.SplitCleanRoundTrip: holds for text without NUL bytes, because PHP's `trim` strips NUL and PCRE's `\s` does not match it.
- Request handling: WordPress runs the route validators and `absint` sanitisers before the handlers; the model states what they accept and keep, not WordPress's dispatch.
- Settings.SanitizeSettings: the code stores eleven keys (`enabled_post_types`, `voice_name`, `speech_rate`, `pitch`, `volume`, `button_color`, `button_position` and the four flags); the model stores these eleven. The order of keys in the PHP array is not modelled.
- Settings.TextIdempotent: assumes the foreign sanitisers are idempotent and accept the brand colour.
- AdminUi.VoiceSelect.PopulateVoices: the early return when the select element or `speechSynthesis` is missing is page glue and not modelled; the select is a sequence of option values, not a DOM node.
- AdminUi.Preview.HandleStart: `onstart` is a method the engine's caller invokes; the engine model has no start event.
- The REST toggle `updateApiEndpoints` (assets/js/wp-tts-admin.js:116-129) and the slider labels only change CSS classes and text.
- Rendering: the admin pages, the block editor script, the front-end enqueue and player injection, block registration, plugin bootstrap and uninstall are templates and WordPress hooks.
- White space: the three white-space classes are predicates on characters; JavaScript strings are sequences of UTF-16 code units and PHP strings of bytes, and encodings are not modelled.

## Findings

| source | as written | input that shows it | evidently intended | confidence | as-written member | corrected member |
|---|---|---|---|---|---|---|
| assets/js/wp-tts-frontend.js:147-152 | `onSpeedChange` (165-171) cancels the speaking utterance and speaks a new one; the cancelled utterance's `onerror` then runs with `interrupted`, and that handler resets the player unconditionally | two sentences, press play, change the speed to 1.5, then the engine delivers the first utterance's `interrupted` error | an error of an utterance that has been replaced is ignored, so the player keeps playing the restarted sentence | not executed | Playback.StaleErrorAsWritten | Playback.StaleErrorIgnored |
| assets/js/wp-tts-frontend.js:137-145 | `onSpeedChange` (165-171) restarts the current sentence as a new utterance; an `end` event of the previous utterance that the engine raised before the change but has not yet delivered then runs `onend`, which advances the index and speaks the next sentence unconditionally, cancelling the restarted one | two sentences, press play, the engine finishes the first sentence, and the speed changes to 1.5 before the `end` event is handled | an `end` event of an utterance that has been replaced is ignored, so the restarted sentence plays on | not executed | Playback.StaleEndAsWritten | Playback.StaleEndIgnored |
