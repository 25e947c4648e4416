# Crop recommendation: rainfall estimation, translator and prediction endpoint

This Dafny project models the computational core of a small crop-recommendation web
application. The application has three parts:

- a browser front end (`js/crop.js`) that estimates the local rainfall from weather data and
  shows a recommended crop;
- a page translator (`js/translator.js`) that sends the page's visible texts to a backend for
  Swahili/English translation;
- a Flask endpoint (`app.py`) that validates a soil-and-climate request and decodes the
  classifier's label into a crop name.

Modules:

- `Wrappers` (wrappers.dfy): the `Option` and `Result` types.
- `JsString` (jsstring.dfy): the pieces of JavaScript string behaviour the core relies on.
  It covers the `\s` whitespace set, `trim`, ASCII `toLowerCase`, and the decimal numeral of a
  counter in a template literal. It also has an `IndexOf` helper, which the source does not call;
  the model's own key reader `Translator.ParseKey` uses it.
- `Rainfall` (rainfall.dfy): the two estimators. `calculateRainfall` works from the 5-day
  forecast; `estimateRainfallFromWeather` is the current-conditions fallback. `Math.random()`
  becomes a parameter `r` with `0 <= r < 1`, `new Date().getMonth()` becomes a parameter
  `month` in 0..11, and amounts are exact reals.
- `RainfallFacts` (rainfall_facts.dfy): properties relating several calls of the estimators.
- `WeatherDisplay` (weather_display.dfy): the condition-code background category and the
  rainfall subtitle chosen by `updateWeatherDisplay`.
- `CropImage` (crop_image.dfy): the image file name derived from a crop name.
- `Translator` (translator.dfy): `PageTranslator`. The DOM is a sequence of nodes in document
  order, and each `querySelectorAll` result is a list of positions. The backend round trip is a
  function from the request to a reply, and the session state is `currentLang` plus the page.
- `Predict` (predict.dfy): `crop_dict`, its inversion `label_to_crop`, and the `/predict`
  handler. The MinMax scaler and the naive Bayes classifier are one function parameter that
  returns a label or the message of the exception raised.

Behaviour of the code worth knowing when reading the model:

- The current-conditions climate fallback applies no jitter (js/crop.js:536-543); only the
  forecast estimator's climate fallback multiplies by `0.8 + Math.random() * 0.4`
  (js/crop.js:483-484).
- In `estimateRainfallFromWeather`, any `rain` object selects source "current", even one with
  neither amount; the daily figure is then 0 (js/crop.js:515-519).
- An empty forecast list makes `forecastData.list[0]` throw (js/crop.js:448). The model returns
  `Failure(EmptyForecast)` for it.
- `translatePage` shows its loading overlay (js/translator.js:12) before it collects the texts
  (js/translator.js:16). The overlay is appended to the end of the body and holds a
  `<p>Translating page...</p>` (js/translator.js:166, 169). The paragraph loop therefore
  collects it as the last paragraph and sends it, and every key after it is numbered one
  higher than on the page alone. The overlay is removed only at the end (js/translator.js:47).
  The model collects over the page with the overlay (`Translator.ShownPage`) and drops the
  overlay afterwards.

## Model

| member | source | states |
|---|---|---|
| JsString.TrimStart | js/crop.js:239 | skipping the rest of a whitespace run: the result is a suffix of the text whose removed prefix is all whitespace, and it starts with a non-space character unless empty |
| JsString.TrimUnpadded | js/translator.js:57 | `trim()` leaves text that starts and ends with a non-space character unchanged |
| JsString.SpacesEnd | js/translator.js:57 | the run of whitespace from a position ends at the end of the text or before a non-space character |
| JsString.SpacesStart | js/translator.js:57 | the run of whitespace ending at a position starts at the given bound or after a non-space character |
| JsString.Trim | js/translator.js:57 | `trim()` is empty exactly when the text consists of whitespace only; otherwise both ends are non-space, and it is never longer than the text |
| JsString.TrimRemovesOuterSpace | js/translator.js:57 | `trim()` is a contiguous part of the text with only whitespace before and after it |
| JsString.ToLower | js/crop.js:239 | lower-casing keeps the length, maps each character on its own, leaves no ASCII capital, and changes nothing in text without capitals |
| JsString.DecimalString | js/translator.js:66 | the counter's numeral is non-empty, all digits, and has a leading zero only for 0 |
| JsString.DecimalRoundTrip | js/translator.js:66 | reading a printed counter back gives the counter |
| Rainfall.RainSum | js/crop.js:435-440 | the forecast total is 0 when no interval reports truthy three-hour rain, and non-negative when the amounts are |
| Rainfall.SumForecastRain | js/crop.js:430-440 | the `forEach` loop ends with the running total equal to the sum of the truthy `rain['3h']` values, and the flag set exactly when one was found |
| Rainfall.ZoneOf | js/crop.js:475-481 | temperate exactly when the latitude is beyond ±40, subtropical when beyond ±23 up to ±40, tropical otherwise (40 is subtropical, 23 tropical) |
| Rainfall.MonthlyClimate | js/crop.js:476-480 | every monthly climate average lies in 20..200 mm |
| Rainfall.DailyClimate | js/crop.js:537-541 | every daily climate average lies in 0.7..6.7 mm |
| Rainfall.ConditionAmount | js/crop.js:452-466 | the per-bucket estimate lies in [7.5,15), [2.5,5), [5,10) or [4,8) mm; codes 400-499 keep the running total |
| Rainfall.JitteredClimate | js/crop.js:475-484 | the jittered daily figure lies in [0.8, 1.2) times a thirtieth of the monthly average, and is positive |
| Rainfall.CalculateRainfall | js/crop.js:429-505 | fails exactly on an empty list and always reports rainfall. The source is forecast iff some interval has truthy 3h rain; then daily is the sum and monthly 6 × daily. Otherwise monthly is 30 × daily: estimate iff the first code is in [200,700), with the bucket amount, else climate with the jittered table value |
| Rainfall.CurrentConditionAmount | js/crop.js:522-529 | an amount exists exactly for codes in [200,400) or [500,700), lying in [10,25), [2,7), [5,20) or [3,13) mm by bucket |
| Rainfall.EstimateRainfallFromWeather | js/crop.js:508-556 | always reports rainfall with monthly = 30 × daily. A rain object gives source current with 8 × 3h, else 24 × 1h, else 0. Without one, the source is current iff the code is in a bucket, and otherwise climate with exactly the daily table value |
| RainfallFacts.SameCountedRainSameSum | js/crop.js:435-440 | two lists that agree interval by interval on the counted three-hour rain have the same total and the same rain flag |
| RainfallFacts.OnlyThreeHourRainCounts | js/crop.js:435-448 | one-hour amounts, zero or missing three-hour amounts and the codes after the first never change the forecast estimate |
| RainfallFacts.UniformRainSum | js/crop.js:435-440 | n intervals each reporting the truthy amount c total n × c |
| RainfallFacts.UniformForecast | js/crop.js:435-443 | n > 0 intervals each reporting c != 0 give the forecast source, daily n × c and monthly 6 × n × c |
| RainfallFacts.FortyHalfMillimetreIntervals | js/crop.js:435-443 | forty intervals of 0.5 mm give 20 mm daily and 120 mm monthly from the forecast |
| RainfallFacts.NonNegativeEstimates | js/crop.js:429-556 | non-negative reported amounts give non-negative daily and monthly figures from both estimators |
| RainfallFacts.RainObjectDecides | js/crop.js:515-519 | with a rain object present, the code, latitude, month and random draw never matter |
| RainfallFacts.FourHundredsDiverge | js/crop.js:452-467 | without rain data, codes 400-499 give a 0 mm "estimate" from the forecast estimator but the climate value from the current-conditions estimator |
| RainfallFacts.ClimateTablesAgree | js/crop.js:475-481 | outside the temperate zone the daily table is the monthly table over 30 to within 0.05 mm; the temperate January entries differ by 1/6 mm |
| RainfallFacts.TropicalJulyExample | js/crop.js:536-543 | latitude 10, July, clear sky: the current-conditions estimate is exactly 6.7 mm daily and 201 mm monthly from climate, and the forecast estimate is within 20% of 200/30 mm |
| WeatherDisplay.Classify | js/crop.js:614-649 | every integer code gets exactly one background category, the one whose range covers it, with clouds for everything left over |
| WeatherDisplay.BucketsArePrecipitationCategories | js/crop.js:522-530 | the current-conditions buckets are exactly the four precipitation categories; the forecast estimator's [200,700) test also admits cloud codes 400-499 |
| WeatherDisplay.SubtitleForTag | js/crop.js:592-600 | a subtitle is chosen exactly for the four known source tags, and none is the no-rainfall text |
| WeatherDisplay.RainfallSubtitle | js/crop.js:584-606 | with rainfall the subtitle is the one for the result's source tag, otherwise "No rainfall expected" |
| WeatherDisplay.SubtitleIdentifiesSource | js/crop.js:592-600 | equal subtitles come from equal sources |
| CropImage.CollapseSpaces | js/crop.js:239 | the result has no whitespace, is never longer, introduces no capitals, and leaves whitespace-free input unchanged |
| CropImage.ImageName | js/crop.js:239 | the image name has no whitespace and no capitals and is never longer than the crop name |
| CropImage.ImageNameIdempotent | js/crop.js:239 | normalising an image name again changes nothing |
| CropImage.CollapseByPosition | js/crop.js:239 | the run-by-run replacement agrees with the position-by-position reading from any run boundary on |
| CropImage.ImageNameByPosition | js/crop.js:239 | the image name is the lower-cased name with the first space of each run made `_` and the other spaces dropped, all other characters kept in order |
| Translator.Prefix | js/translator.js:64-115 | every group prefix is non-empty and has no `_`, so the separator is the first `_` of a key |
| Translator.CollectsExactly | js/translator.js:56-97 | an element is skipped exactly when its trimmed text is empty, it has the no-translate class, it is inside a no-translate container or it is the toggle; nav links skip the container test |
| Translator.Key | js/translator.js:66 | a key is the group prefix, the first `_`, then the counter's digits, and uses only lower-case letters, digits and `_`, so it never ends or escapes the quoted selector string |
| Translator.KeyRoundTrip | js/translator.js:66 | a `prefix_n` key names its group and its counter value |
| Translator.EntriesForAt | js/translator.js:64-68 | the j-th entry sent has the key of its group numbered j and the trimmed text of its node |
| Translator.CollectOne | js/translator.js:65-68 | a node that passes its group's test gets the next counter value as key, written onto the node and recorded with its trimmed text; otherwise the entries, the page and the counter are unchanged |
| Translator.CollectVisits | js/translator.js:52-117 | running the loops over the visits in order, with one counter shared by all of them, sends the collected visits' trimmed texts numbered 0, 1, 2, ... and writes their keys onto the page as `KeysWritten` describes |
| Translator.CollectTranslatableElements | js/translator.js:51-118 | sends the entries numbered in collection order with trimmed texts. Each node keeps everything but its key; an uncollected node keeps its key; a collected node carries the key of the last entry made for it (`KeysWritten`) |
| Translator.PickedExactly | js/translator.js:64-115 | a visit is collected iff it is in one of the six query results and passes its group's test |
| Translator.ExpectedKeysNumbered | js/translator.js:53-115 | the j-th entry sent has key number j and its group's prefix, so all keys are distinct and their numbers increase |
| Translator.PickedKeepsOrder | js/translator.js:64-115 | filtering keeps a group-ordered visit sequence group-ordered |
| Translator.CollectionOrder | js/translator.js:63-115 | entries come in the group order headings, paragraphs, buttons, nav links, labels, leads |
| Translator.QueryByKey | js/translator.js:122 | the lookup finds the first node in document order carrying the key, or reports that none does |
| Translator.ApplyTranslations | js/translator.js:120-127 | each node that is the first holder of a returned key shows the last text returned for it; every other node, and every other attribute, is unchanged |
| Translator.CollectedNodeHoldsKey | js/translator.js:120-126 | on a page without keys, a node collected last under an entry is the only holder of that entry's key |
| Translator.TranslationsLandOnCollectedNodes | js/translator.js:120-126 | on a page without keys, collecting and then applying puts the translation returned for each entry on the node carrying its key |
| Translator.LookupDistinct | js/translator.js:121 | with distinct returned keys, each key's text is the one returned with it |
| Translator.FullReplyTranslatesEveryEntry | js/translator.js:16-37 | a reply answering every entry sent, in order and under the same keys, gives each entry its own translation |
| Translator.OtherLanguage | js/translator.js:132-142 | the toggle offers English exactly from Swahili and Swahili from any other language, never the current language |
| Translator.UpdateLanguageToggle | js/translator.js:129-144 | a missing toggle is left alone. Otherwise `data-lang` is the other language and the caption names the language a click will request ("🌍 English" when it offers English, "🌍 Translate to Swahili" otherwise), `btn-success` is set iff the language is Swahili, `btn-warning` iff not, `btn-outline-secondary` is removed and other classes are kept |
| Translator.NewSession | js/translator.js:3-6 | a new translator starts in English |
| Translator.TranslatePage | js/translator.js:8-49 | asking for the current language changes nothing. Otherwise the request is what collection yields on the page with the loading overlay, and the keys are written there (`keyed`: only keys change, as `KeysWritten` describes), even when the reply then fails. A failure leaves exactly `keyed` without the overlay, the language and the toggle. A successful reply sets the language to the target, updates the toggle, and changes the page only in the texts of the first holders of returned keys. On a page without keys, each collected page node shows its returned translation |
| Translator.ShownQueriesValid | js/translator.js:146-170 | with the overlay appended, every query result still names a node of the page, and the paragraph loop visits the overlay's paragraph |
| Translator.LoaderParagraphSent | js/translator.js:73-79 | the overlay's paragraph is sent as entry `j` of the request, under the paragraph key numbered `j`, with the text "Translating page..." |
| Translator.RequestKeysDistinct | js/translator.js:63-115 | the keys sent while the overlay is shown, the overlay's own among them, are pairwise distinct |
| Translator.LandsBeforeOverlay | js/translator.js:36-47 | on a page without keys, each page node before the overlay that holds the last write of a collected entry shows the reply's text for that entry's key, or keeps its text when none is returned |
| Translator.ToggleClicked | js/translator.js:184-193 | from a state where the toggle offers the other language, a click flips between English and Swahili exactly on a successful reply to the request made with the overlay shown, and keeps toggle and language in agreement |
| Predict.ToMap | app.py:12-18 | the dict's keys are the names written in the literal |
| Predict.Invert | app.py:21 | the inverted dict's keys are the labels of the pairs |
| Predict.ToMapLookup | app.py:12-18 | with distinct names, each name maps to the label written beside it |
| Predict.InvertLookup | app.py:21 | with distinct labels, each label maps back to the name written beside it |
| Predict.CropLabelsArePositions | app.py:12-18 | the literal has 22 crops and the crop at position i has label i + 1 |
| Predict.CropNamesDistinct | app.py:12-18 | the 22 crop names are distinct |
| Predict.LabelToCropInvertsCropDict | app.py:12-21 | `label_to_crop[crop_dict[c]] == c` for every crop, `crop_dict[label_to_crop[l]] == l` for every label, and the labels are exactly 1..22 |
| Predict.CropName | app.py:47-48 | a label in 1..22 decodes to the crop `crop_dict` gives that label; any other label decodes to "Unknown", which names no crop |
| Predict.Features | app.py:38-42 | the classifier receives the seven fields in the order N, P, K, temperature, humidity, ph, rainfall |
| Predict.Predict | app.py:34-53 | 400 with the missing-fields message iff a field is missing; 200 with the decoded crop iff all fields are present and classification succeeds; otherwise 500 with the exception's message |
| Predict.MissingFieldNeverClassifies | app.py:38-40 | a request missing a field gets the same answer whatever the classifier does |
| Predict.ExtraKeysIgnored | app.py:38-42 | keys other than the seven features never change the response |

## Left out

- The DOM wiring of crop.js: event listeners, popups, `setTimeout` animations, the loading
  spinner, icons, and the CSS gradients with their day/night choice. Only the category each
  code selects is modelled.
- `Math.round` formatting of the displayed millimetres, temperature and wind speed, and
  floating-point rounding in general: amounts are exact reals.
- `fetch`, geolocation and the HTTP status handling of the weather calls, and the translation
  backend's HTTP round trip. These are network I/O. The translation reply is an input that
  succeeds or fails.
- The overlay's styling, its spinner and the other elements of the overlay, which none of the
  six queries returns, and the `console.error`/`alert` calls on a failed translation.
- `this.translations`, which the constructor creates and nothing reads.
- Rainfall.CalculateRainfall: reads `weather[0].id` as one field and does not model an empty
  `weather` array, which would throw like an empty forecast list.
- Rainfall.EstimateRainfallFromWeather: reads `weather[0].id` as one field and does not model
  an empty `weather` array.
- JsString.ToLower: lower-cases ASCII letters only; JavaScript's full Unicode case mapping
  (which can change the length) is not modelled.
- CropImage.ImageName: inherits the ASCII-only lower-casing of `JsString.ToLower`.
- Translator.CollectTranslatableElements: a node's `textContent` is given as one string.
  Nesting, where one element's text includes a child's, is not modelled.
- Translator.TranslatePage: a reply is the backend's `translations` object as a list of
  entries. A successful HTTP reply without that object fails in the code and is a `Failed`
  reply here.
- Translator.ToggleClicked: the toggle's `data-lang` is a string; a missing attribute (`null`)
  is not modelled.
- Translator.ToggleClicked: each call of `translatePage` runs to completion before the next
  one starts. The click handler does not await the call (js/translator.js:188-191), so a second
  click while the first request is pending starts a second call from the same `currentLang`
  with the same target. Such overlapping calls are not modelled.
- Translator.QueryByKey: compares keys literally. The CSS parsing of the quoted key inside the
  selector at js/translator.js:122 is not modelled; the next line says what that leaves out.
- Translator.ApplyTranslations: reply keys are matched literally. The code interpolates each
  key into the selector `[data-translate-key="${key}"]` (js/translator.js:122). A key
  containing `"` or a line break makes `querySelector` throw part-way through the loop. Then
  the earlier texts are already changed and the catch keeps `currentLang` and the toggle.
  A `\` in a key is a CSS escape, so the key may match a different one. The model assumes
  reply keys contain none of these. The backend answers under the keys it was sent, and
  `Translator.Key` proves those use only letters, digits and `_`.
- Translator.TranslatePage: inherits the literal key matching of
  `Translator.ApplyTranslations`; a reply key that breaks the selector is not modelled.
- Translator.TranslatePage: `hideLoadingIndicator` removes the first element with id
  `translation-loader`. The model removes the overlay it added and assumes the page has no
  element of its own with that id.
- Translator.ApplyTranslations: setting `textContent` (js/translator.js:124) replaces all of
  an element's children with one text node. Icons inside a button, inputs inside a label and
  nested keyed elements disappear, and a later key held by a removed child then finds nothing.
  Nodes are flat here, so only the translated node's own text changes.
- Predict.Predict: a JSON body that is an array or a scalar, where `feature in data` means
  something other than key membership, is not modelled. The body is either an object or a
  read error.
- Flask routing, CORS and static-file serving in app.py, and loading the model files with
  joblib: framework code.
- The scaler and classifier themselves, which are a foreign function here.
