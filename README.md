# Weather widget: a verified model of its display logic

The widget is a single browser script, `script.js`. It shows the current weather for a
city in English or Spanish, greets the user by time of day, and can read the report
aloud. Most of the script is browser glue. This project models the decision logic
underneath that glue and proves properties of it:

- the English and Spanish translation sets and the lookup by `data-i18n` key;
- the greeting chosen for each hour;
- the display slots (city, temperature, description, humidity, error line, icon) as
  fields of a class, `Widget.WeatherWidget`. Each code path that overwrites them is a
  method whose `modifies` clause names exactly the slots that path writes:
  - the language switch `translateUI`;
  - the loading reset at the start of `fetchWeatherData`;
  - the success path `updateDisplay`;
  - the failure branch of `fetchWeatherData`;
  - the submit and voice-button handlers;
- the texts built from a reading: `°C`, `%`, the icon address, the capitalised
  description, the spoken sentence and its voice locale;
- the error line chosen for a failure;
- the two string operations the handlers rely on: `trim` and `parseFloat` of the
  temperature slot.

Modules, one per file:

| file | module | contents |
|---|---|---|
| `wrappers.dfy` | `Wrappers` | `Option` |
| `strings.dfy` | `Strings` | `includes`/`indexOf`, `replace` of the first match, `trim` with JavaScript's whitespace set, first-letter upper-casing, decimal numerals and `parseFloat` of an integer prefix |
| `i18n.dfy` | `I18n` | languages, the fourteen keys, both translation sets |
| `greeting.dfy` | `Greeting` | `getGreetingKey` and the greeting line |
| `speech.dfy` | `Speech` | the spoken sentence, locale, pitch and rate |
| `display.dfy` | `Display` | readings and failures as values, slot texts, the error line, the language-switch reset test, re-labelling, the voice button's check |
| `widget.dfy` | `Widget` | the `WeatherWidget` class and three worked scenarios |

The clock hour, the platform's speech support, and the outcome of the request are
parameters. The outcome is either a reading, with the temperature already rounded, or
a failure. Utterances handed to the speech queue are recorded in the ghost field
`spoken`.

Behaviours worth knowing, each modelled as the script has it:

- The loading reset writes the language's `default-desc` text ("Fetching data...")
  into the description slot. It does not clear the slot.
- A non-ok response whose body reads `{"message": "city not found"}` shows
  `API Error: city not found`. It does not show the localised not-found text. The
  friendly `error-api` text appears only when the thrown message contains `404`
  (`Display.FailureText`, `Widget.CityNotFoundScenario`).
- A non-ok response without a `message` throws an error whose message is the
  localised `error-api` text. The catch branch then prefixes it, so the line reads
  `API Error: City not found or API error. Please try again.`
  (`Display.MessagelessHttpErrorText`).
- `translateUI` resets the slots only when the city text contains `Load` or `Mumbai`.
  The Spanish loading text "Cargando..." contains neither. So switching English →
  Spanish → English while loading leaves "Cargando..." on screen under English labels
  (`Display.ResetTestOnPlaceholders`, `Widget.LanguageRoundTripWhileLoading`).
- The request always asks for Mumbai's coordinates, so a successful reading normally
  shows the city "Mumbai". Switching to Spanish then treats that reading as a placeholder.
  City and description become "Cargando..." and "Obteniendo datos...", while the
  real temperature stays. Switching back to English leaves them, because "Cargando..."
  contains neither `Load` nor `Mumbai`. The voice check compares the city only with
  the English "Loading...", so it passes. The button then speaks "The current weather
  in Cargando... is Obteniendo datos..., with a temperature of N degrees Celsius."
  (`Widget.MumbaiResets`, `Widget.SpanishPlaceholdersPassVoiceCheck`,
  `Widget.MumbaiRoundTripSpeaksPlaceholders`).

## Model

| member | source | states |
|---|---|---|
| I18n.KeyOf | script.js:76-78 | a string maps to a key only if it is that key's `data-i18n` name |
| I18n.KeyOfName | script.js:76-78 | every key is recovered from its name |
| I18n.Text | script.js:32-65 | every entry of both translation sets is a non-empty string |
| I18n.Entry | script.js:76-81 | `t[key]` for an own key of the set: truthy exactly when the string names one of the fourteen keys, and then it is that key's text |
| I18n.SameKeys | script.js:32-65 | a string has an English entry exactly when it has a Spanish one |
| I18n.ErrorApiShape | script.js:32-65 | both `error-api` texts start with `C` and contain no digit 4 |
| I18n.LoadingShape | script.js:41-57 | the loading texts are "Loading..." and "Cargando...", and the Spanish one has neither `L` nor `M` |
| Greeting.GreetingKey | script.js:201-212 | every hour gets one of the four greeting keys |
| Greeting.GreetingBuckets | script.js:201-212 | for hours 0..23: morning iff 5..11, afternoon iff 12..17, evening iff 18..21, night iff before 5 or from 22 |
| Greeting.GreetingBoundaries | script.js:203-210 | each bucket includes its first hour and excludes its end hour (4/5, 11/12, 17/18, 21/22) |
| Greeting.GreetingKeyTranslated | script.js:231-233 | the hour's greeting key has an entry under its name in both languages, and that entry is the greeting line |
| Greeting.GreetingText | script.js:231-233 | the greeting line is never empty |
| Greeting.GreetingTextsDistinct | script.js:44-63 | within one language the four greeting texts are pairwise different |
| Greeting.GreetingTextIdentifiesBucket | script.js:201-233 | two hours show the same greeting line iff they fall in the same bucket |
| Strings.IndexOf | script.js:87 | the result is the first position where the pattern matches, or there is no match anywhere |
| Strings.Contains | script.js:87 | `includes` holds exactly when the pattern matches at some position |
| Strings.MissingFirstCharNotContained | script.js:87 | a text lacking the pattern's first character does not include the pattern |
| Strings.IndexOfAppended | script.js:257 | in `x + p`, where `x` lacks `p`'s first character, the first match of `p` is right after `x` |
| Strings.RemoveFirst | script.js:257 | `replace(p, '')` leaves a text without `p` unchanged; otherwise it removes exactly the first occurrence, and re-inserting `p` at that position gives back the input |
| Strings.RemoveFirstAppended | script.js:257 | `replace(p, '')` on `x + p`, where `x` lacks `p`'s first character, gives back `x` |
| Strings.TrimStart | script.js:242 | the result is a suffix of the input, everything dropped is whitespace, and the result does not start with whitespace |
| Strings.TrimEnd | script.js:242 | the result is a prefix of the input, everything dropped is whitespace, and the result does not end with whitespace |
| Strings.Trim | script.js:242 | `trim()` never lengthens the text, and a non-empty result neither starts nor ends with whitespace |
| Strings.TrimEmptyIff | script.js:242-243 | `trim()` yields the empty string iff every character of the input is whitespace |
| Strings.TrimIsInnerSlice | script.js:242 | `trim()` yields a slice of the input that neither starts nor ends with whitespace, and every character outside that slice is whitespace |
| Strings.UpperAscii | script.js:150 | a lower-case ASCII letter becomes its upper-case letter; every other character is unchanged |
| Strings.Capitalize | script.js:150 | same length, first character upper-cased, the rest unchanged; a text not starting with a lower-case letter is unchanged |
| Strings.CapitalizeIdempotent | script.js:150 | capitalising twice equals capitalising once |
| Strings.CapitalizeEmptyIff | script.js:150 | the capitalised description is empty iff the description is |
| Strings.NatToString | script.js:149 | a non-empty run of digits with no leading zero |
| Strings.IntToString | script.js:149 | a `-` exactly for negative numbers, then a non-empty run of digits with no leading zero whose value is the number's magnitude |
| Strings.DigitRun | script.js:258 | the length of the longest run of digits at the start of the text |
| Strings.DigitsValueOfNatToString | script.js:149 | reading the digits of a natural number's numeral gives the number back |
| Strings.ParseNumber | script.js:258 | `parseFloat` yields a number only if the text holds a digit, a negative number only after a leading `-`, and NaN when the first non-whitespace character is neither a sign nor a digit |
| Strings.ParseNumberOfIntToString | script.js:149-258 | `parseFloat` of an integer's numeral gives back the integer when what follows is empty or starts with neither a digit, `.`, `e` nor `E` |
| Strings.SignThenNoDigit | script.js:258 | a sign followed by a character that is neither a digit, `.` nor the `I` of `Infinity` does not parse as a number |
| Speech.SpeechText | script.js:178-182 | the sentence opens with the language's opening words, then the city; the description starts where the linking words (` is ` / ` es de `) end; the sentence ends with the temperature's numeral followed by the language's unit words |
| Speech.SpeechTextConstantWords | script.js:178-182 | the linking words sit between the city and the description, and the middle words (`, with a temperature of ` / `, con una temperatura de `) between the description and the temperature |
| Speech.SpeechTemperatureReadBack | script.js:178-182 | reading the sentence from the temperature's position on gives back the temperature |
| Speech.SpeechTextJoin | script.js:178-182 | the sentence is the city part, the description part and the temperature part joined in that order |
| Speech.SpeechLocale | script.js:187 | the voice locale is a five-character tag whose language part is the UI language's code |
| Speech.MakeUtterance | script.js:184-189 | pitch and rate are 1.0, the locale matches the language, and the text opens with the language's opening words |
| Speech.TemplateMatchesLocale | script.js:179-187 | the Spanish template goes with `es-ES` and the English template goes with `en-US`, never crossed |
| Speech.SpeechTextIdentifiesLanguage | script.js:178-182 | two equal sentences were built in the same language |
| Display.TempText | script.js:149 | the temperature slot ends in `°C` and has something before it |
| Display.TempTextParsesBack | script.js:149-258 | the voice button's `parseFloat(temp.replace('°C',''))` on a temperature slot gives back the shown temperature |
| Display.HumidityText | script.js:151 | the humidity slot ends in `%` and has something before it |
| Display.HumidityTextParsesBack | script.js:151 | the numeric prefix of the humidity slot is the humidity |
| Display.IconUrl | script.js:154 | the icon code can be read back from the icon address |
| Display.IconUrlInjective | script.js:154 | distinct icon codes give distinct icon addresses |
| Display.ThrownMessage | script.js:120-122 | a non-ok response throws its body's non-empty `message`, otherwise the localised `error-api` text; a rejection keeps its own message |
| Display.ErrorText | script.js:134 | the error line is the localised `error-api` text iff the message contains `404`; otherwise it is `API Error: ` followed by the whole message |
| Display.FailureText | script.js:120-134 | a failure's error line is the friendly `error-api` text iff its thrown message contains `404`; otherwise it is `API Error: ` followed by that whole message |
| Display.ErrorApiHasNo404 | script.js:134 | the `error-api` text itself does not contain `404` |
| Display.MessagelessHttpErrorText | script.js:120-134 | a non-ok response without a usable `message` shows `API Error: ` followed by the `error-api` text |
| Display.RawBodyMessageShown | script.js:120-134 | a non-empty body message without the digit 4 is shown raw behind the prefix, never as the friendly text |
| Display.ErrorTextOtherwise | script.js:134 | a message without `404` is shown whole behind the prefix |
| Display.ShouldResetOnLanguageChange | script.js:87 | the language switch resets the slots exactly when `Load` or `Mumbai` occurs somewhere in the city text |
| Display.ResetTestOnPlaceholders | script.js:87 | the English loading text triggers the language-switch reset; the Spanish loading text and `Error` do not |
| Display.Retranslated | script.js:77-80 | an element whose key is an own key of the set takes that key's text in the new language; any other element is unchanged; the key is kept |
| Display.RetranslateAll | script.js:76-81 | re-labelling keeps the number of elements |
| Display.RetranslateAllShows | script.js:76-81 | after re-labelling, element `i` shows its key's text when the key is known, and is untouched otherwise |
| Display.RetranslateAllLastWins | script.js:76-81 | re-labelling into `l1` and then `l2` equals re-labelling into `l2` directly |
| Display.VoiceGuard | script.js:255-261 | the voice check passes only when the temperature slot parses as a number and is not the `--°C` placeholder, and fails for an empty city or description, the loading city text and `Error` |
| Display.VoiceTemp | script.js:257-258 | the number the voice button reads from the temperature slot; on the slot text written for a temperature it is that temperature |
| Display.LoadingTempNotNumeric | script.js:111-261 | the placeholder `--°C` does not parse as a number, so the voice button ignores it |
| Display.VoiceGuardOnReading | script.js:149-261 | with a reading on display the temperature parses back, and the voice check passes iff city and description are non-empty and the city is neither the loading text nor `Error` |
| Widget.WeatherWidget.constructor | script.js:7 | the page starts in English with no error, a hidden icon and nothing spoken |
| Widget.WeatherWidget.Tick | script.js:231-233 | the greeting slot shows the greeting line of the current language for the hour; nothing else changes |
| Widget.WeatherWidget.TranslateUI | script.js:71-97 | sets the language, re-labels every tagged element, sets the placeholder, clears the error line and redraws the greeting; resets city, description and humidity iff the old city text contains `Load` or `Mumbai`, otherwise leaves them; never touches the temperature |
| Widget.WeatherWidget.Relabel | script.js:76-81 | the loop leaves the tagged elements equal to their re-labelled values (loop invariant over the processed prefix) |
| Widget.WeatherWidget.ResetPlaceholders | script.js:87-91 | the conditional reset writes the loading texts iff the old city text contains `Load` or `Mumbai` |
| Widget.WeatherWidget.BeginFetch | script.js:110-115 | all slots show the loading placeholders, the icon is hidden, and the voice check fails |
| Widget.WeatherWidget.UpdateDisplay | script.js:142-160 | the slots show the reading and exactly one utterance is added (when speech is available), using the raw description and the whole-degree temperature |
| Widget.WeatherWidget.VoiceReadyOnReading | script.js:254-261 | with a reading on display the voice check passes iff city and description are non-empty and the city is neither the loading text nor `Error` |
| Widget.WeatherWidget.FetchFailed | script.js:128-135 | the failure placeholders and the chosen error line are shown, and the voice check fails |
| Widget.WeatherWidget.CompleteFetch | script.js:117-135 | a reading is shown and spoken, or a failure is shown with nothing spoken and the icon (visibility, address and alt text) untouched |
| Widget.WeatherWidget.Speak | script.js:171-192 | without speech support nothing is enqueued; otherwise exactly one utterance for the current language |
| Widget.WeatherWidget.OnSubmit | script.js:240-246 | a fetch starts iff the input has a non-whitespace character; otherwise no slot changes |
| Widget.WeatherWidget.OnVoiceClick | script.js:254-264 | speaks iff the voice check passes, with the parsed temperature; otherwise nothing is spoken |
| Widget.WeatherWidget.Load | script.js:269-274 | after start-up the chosen language is active, the slots show loading, and the greeting matches the hour |
| Widget.LimaScenario | script.js:142-189 | an English reading for Lima at 22 degrees shows `22°C`, `55%`, `Clear sky`, the `01d` icon, and speaks exactly one English sentence with the lower-case description |
| Widget.CityNotFoundScenario | script.js:118-134 | a non-ok response with body message "city not found" shows `API Error: city not found` and disables the voice button |
| Widget.LanguageRoundTripWhileLoading | script.js:71-97 | while loading, switching to Spanish and back to English leaves "Cargando..." in the city slot |
| Widget.MumbaiResets | script.js:87 | the city "Mumbai", which a reading for the fixed coordinates normally shows, triggers the language-switch reset |
| Widget.SpanishPlaceholdersPassVoiceCheck | script.js:255-261 | under English, the Spanish loading texts with a real temperature pass the voice check, and the temperature reads back |
| Widget.ShowReading | script.js:117-160 | a fresh English page with speech shows the reading's city and temperature and has spoken it once |
| Widget.SpanishAndBack | script.js:71-97 | from a city text that triggers the reset, switching to Spanish and back to English leaves the Spanish loading texts in city and description, and keeps the temperature and the spoken log |
| Widget.ClickOnSpanishPlaceholders | script.js:254-264 | pressing the voice button on those texts speaks them as a reading: exactly one English utterance built from the Spanish loading texts and the temperature |
| Widget.MumbaiRoundTripSpeaksPlaceholders | script.js:71-264 | after a reading of a resetting city (Mumbai), a switch to Spanish and back, and a voice click, the slots hold the Spanish loading texts and the real temperature, and the second utterance speaks them as a reading |

## Left out

- DOM access (`getElementById`, `querySelectorAll`, attributes, `classList`): the slots and tagged elements are plain fields. The icon's visibility is a boolean.
- The network request, `response.json()`, the hard-coded request URL and the API key: the outcome of a request is an input to `CompleteFetch`. `fetchWeatherData` ignores its argument and always requests the same coordinates; that plumbing has no counterpart here.
- Async behaviour and overlapping fetches (the last response to arrive wins): the model is sequential.
- An exception thrown inside `updateDisplay`, for example on a response without `main` or `weather`: a reading is assumed well-formed.
- Platform speech (`SpeechSynthesisUtterance`, `speechSynthesis.speak`): utterances are recorded in the ghost log `spoken`, and speech support is a constructor parameter.
- Dates and locale formatting (`Date`, `toLocaleDateString`, `toLocaleTimeString`): the hour is a parameter, and the date and time lines are not modelled.
- `setInterval` and `console.error`/`console.warn`: each firing of the one-second timer is one call to `Tick`; the timer mechanism and logging are not modelled.
- Widget.WeatherWidget.UpdateDisplay: takes the temperature already rounded; `Math.round` on doubles and the formatting of non-integer numbers are not modelled.
- Strings.ParseNumber: models `parseFloat` only for leading whitespace, an optional sign and a digit run. Fractions, exponents, `Infinity`, and `NaN` produced by other inputs are not modelled; no text the widget writes into the temperature slot needs them.
- Strings.Capitalize: upper-cases only ASCII `a`-`z`. Full Unicode case mapping is not modelled.
- Language codes other than `en` and `es`: `translateUI` with any other code fails in the script on `translations[lang]`, and the selector offers only these two.
- I18n.Entry, Display.Retranslated: `t[key]` also finds names inherited from `Object.prototype` (`toString`, `constructor`, `valueOf`, `__proto__`, ...), which are truthy; the model assumes no `data-i18n` attribute names such a member, and treats every string that names none of the fourteen keys as having no entry.
- The tagged elements and the display slots are assumed disjoint: none of `#city-name`, `#temperature`, `#description`, `#humidity`, `#error-message` and `#greeting` carries a `data-i18n` attribute. Re-labelling therefore never overwrites a slot, and a slot write never changes a tagged element.
- The page's initial markup: the constructor takes the tagged elements' texts and the city, temperature, description and humidity slots as parameters. It starts the error line, the input placeholder and the greeting empty, and the icon hidden with an empty address and alt text. Start-up (`Load`) overwrites the error line, placeholder, greeting and icon visibility before anything reads them, and the icon's address and alt text are written together with revealing it, so these fixed starting values are never observed.
