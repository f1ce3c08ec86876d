/**
 * What the widget writes into its display slots, as values: the weather
 * reading and failure inputs, the slot texts built from them, the error
 * line, the language-switch reset test, the re-labelling of tagged
 * elements, and the voice button's check that the slots hold real data.
 */
module Display {
  import opened Wrappers
  import opened I18n
  import opened Strings

  /** The fields `updateDisplay` takes from a successful response; the temperature is already rounded. */
  datatype Reading = Reading(name: string, temp: int, humidity: int, description: string, icon: string)

  /**
   * Why a fetch failed: a non-ok response, with the `message` of its JSON
   * body if it had one, or a rejection (network or JSON parse) with its
   * error message.
   */
  datatype FetchFailure = HttpError(bodyMessage: Option<string>) | Rejected(message: string)

  /** An element tagged with a translation key, and the text it currently shows. */
  datatype TaggedText = TaggedText(key: string, text: string)

  /** Placeholders written while loading and after a failure. */
  const LoadingTemp: string := "--°C"
  const LoadingHumidity: string := "--%"
  const ErrorCity: string := "Error"
  const DegreeSuffix: string := "°C"
  const ApiErrorPrefix: string := "API Error: "
  const IconUrlPrefix: string := "http://openweathermap.org/img/wn/"
  const IconUrlSuffix: string := "@2x.png"

  // ---------------------------------------------------------------------
  // Slot texts on success

  /** `${temp}°C`: the whole-degree temperature followed by the unit. */
  function TempText(temp: int): (r: string)
    ensures |r| > |DegreeSuffix| && r[|r| - |DegreeSuffix|..] == DegreeSuffix
  {
    IntToString(temp) + DegreeSuffix
  }

  /** The voice button's `parseFloat` of a temperature slot, minus the unit, gives the temperature back. */
  lemma TempTextParsesBack(temp: int)
    ensures ParseNumber(RemoveFirst(TempText(temp), DegreeSuffix)) == Some(temp)
  {
    var n := IntToString(temp);
    assert '°' !in n;
    RemoveFirstAppended(n, DegreeSuffix);
    ParseNumberOfIntToString(temp, "");
    assert n + "" == n;
  }

  /** `${humidity}%`: the humidity followed by the percent sign. */
  function HumidityText(humidity: int): (r: string)
    ensures |r| > 1 && r[|r| - 1] == '%'
  {
    IntToString(humidity) + "%"
  }

  /** The numeric prefix of a humidity slot is the humidity, exactly as given. */
  lemma HumidityTextParsesBack(humidity: int)
    ensures ParseNumber(HumidityText(humidity)) == Some(humidity)
  {
    ParseNumberOfIntToString(humidity, "%");
  }

  /** The icon address for an icon code, as interpolated into the fixed image template. */
  function IconUrl(code: string): (url: string)
    ensures IconCodeOf(url) == Some(code)
  {
    var url := IconUrlPrefix + code + IconUrlSuffix;
    assert url[..|IconUrlPrefix|] == IconUrlPrefix;
    assert url[|url| - |IconUrlSuffix|..] == IconUrlSuffix;
    assert url[|IconUrlPrefix|..|url| - |IconUrlSuffix|] == code;
    url
  }

  /** The icon code an icon address was built from, if it has the template's shape. */
  function IconCodeOf(url: string): Option<string> {
    if |url| >= |IconUrlPrefix| + |IconUrlSuffix|
      && url[..|IconUrlPrefix|] == IconUrlPrefix
      && url[|url| - |IconUrlSuffix|..] == IconUrlSuffix
    then Some(url[|IconUrlPrefix|..|url| - |IconUrlSuffix|])
    else None
  }

  /** Distinct icon codes give distinct icon addresses. */
  lemma IconUrlInjective(c1: string, c2: string)
    requires IconUrl(c1) == IconUrl(c2)
    ensures c1 == c2
  {
    assert IconCodeOf(IconUrl(c1)) == Some(c1);
  }

  // ---------------------------------------------------------------------
  // Error line on failure

  /** The message of the error the fetch raises: the body's non-empty `message`, else the localised `error-api`. */
  function ThrownMessage(lang: Lang, f: FetchFailure): (m: string)
    ensures f.HttpError? && f.bodyMessage.Some? && f.bodyMessage.value != "" ==> m == f.bodyMessage.value
    ensures f.HttpError? && (f.bodyMessage.None? || f.bodyMessage.value == "") ==> m == Text(lang, ErrorApi)
    ensures f.Rejected? ==> m == f.message
  {
    match f
    case HttpError(Some(msg)) => if msg != "" then msg else Text(lang, ErrorApi)
    case HttpError(None) => Text(lang, ErrorApi)
    case Rejected(msg) => msg
  }

  /**
   * The error line for a failure message: the localised `error-api` when the
   * message mentions 404, otherwise the message behind the `API Error: ` prefix.
   */
  function ErrorText(lang: Lang, message: string): (r: string)
    ensures r == Text(lang, ErrorApi) <==> Contains(message, "404")
    ensures !Contains(message, "404") ==> |r| >= |ApiErrorPrefix| && r[..|ApiErrorPrefix|] == ApiErrorPrefix && r[|ApiErrorPrefix|..] == message
  {
    if Contains(message, "404") then Text(lang, ErrorApi)
    else
      var r := ApiErrorPrefix + message;
      assert r[0] == 'A';
      ErrorApiShape(lang);
      r
  }

  /**
   * The error line a failure leaves behind: the friendly localised text
   * exactly when the thrown message mentions 404, otherwise that message
   * whole behind the `API Error: ` prefix.
   */
  function FailureText(lang: Lang, f: FetchFailure): (r: string)
    ensures r == Text(lang, ErrorApi) <==> Contains(ThrownMessage(lang, f), "404")
    ensures !Contains(ThrownMessage(lang, f), "404") ==> r == ApiErrorPrefix + ThrownMessage(lang, f)
  {
    var m := ThrownMessage(lang, f);
    if Contains(m, "404") then ErrorText(lang, m)
    else
      ErrorTextOtherwise(lang, m);
      ErrorText(lang, m)
  }

  /** The localised `error-api` text itself never mentions 404. */
  lemma ErrorApiHasNo404(lang: Lang)
    ensures !Contains(Text(lang, ErrorApi), "404")
  {
    ErrorApiShape(lang);
    MissingFirstCharNotContained(Text(lang, ErrorApi), "404");
  }

  /**
   * A non-ok response without a usable `message` is not shown as the friendly
   * text: its error line is `API Error: ` followed by the localised `error-api`.
   */
  lemma MessagelessHttpErrorText(lang: Lang)
    ensures FailureText(lang, HttpError(None)) == ApiErrorPrefix + Text(lang, ErrorApi)
    ensures FailureText(lang, HttpError(Some(""))) == ApiErrorPrefix + Text(lang, ErrorApi)
  {
    ErrorApiHasNo404(lang);
  }

  /**
   * A body `message` without the digit 4, such as "city not found", is shown
   * raw behind the prefix, never as the friendly localised text.
   */
  lemma RawBodyMessageShown(lang: Lang, m: string)
    requires m != "" && '4' !in m
    ensures FailureText(lang, HttpError(Some(m))) == ApiErrorPrefix + m
    ensures FailureText(lang, HttpError(Some(m))) != Text(lang, ErrorApi)
  {
    assert ThrownMessage(lang, HttpError(Some(m))) == m;
    MissingFirstCharNotContained(m, "404");
    ErrorTextOtherwise(lang, m);
  }

  /** A message that does not mention 404 is shown whole, behind the prefix. */
  lemma ErrorTextOtherwise(lang: Lang, message: string)
    requires !Contains(message, "404")
    ensures ErrorText(lang, message) == ApiErrorPrefix + message
  {
    var r := ErrorText(lang, message);
    assert r == r[..|ApiErrorPrefix|] + r[|ApiErrorPrefix|..];
  }

  // ---------------------------------------------------------------------
  // Language switch

  /** `translateUI`'s test for a city slot still showing a placeholder: it mentions `Load` or `Mumbai`. */
  predicate ShouldResetOnLanguageChange(city: string): (b: bool)
    ensures b <==> (exists j: nat :: MatchAt(city, "Load", j)) || (exists j: nat :: MatchAt(city, "Mumbai", j))
  {
    Contains(city, "Load") || Contains(city, "Mumbai")
  }

  /**
   * The English loading text triggers the reset; the Spanish one and the
   * failure text do not, so a Spanish loading display survives a switch.
   */
  lemma ResetTestOnPlaceholders()
    ensures ShouldResetOnLanguageChange(Text(En, Loading))
    ensures !ShouldResetOnLanguageChange(Text(Es, Loading))
    ensures !ShouldResetOnLanguageChange(ErrorCity)
  {
    LoadingShape();
    assert Text(En, Loading)[..4] == "Load";
    MissingFirstCharNotContained(Text(Es, Loading), "Load");
    MissingFirstCharNotContained(Text(Es, Loading), "Mumbai");
    MissingFirstCharNotContained(ErrorCity, "Load");
    MissingFirstCharNotContained(ErrorCity, "Mumbai");
  }

  /** One tagged element after a language switch: the table's text when the key has a truthy entry. */
  function Retranslated(lang: Lang, e: TaggedText): (r: TaggedText)
    ensures r.key == e.key
    ensures forall k :: Name(k) == e.key ==> r.text == Text(lang, k)
    ensures KeyOf(e.key).None? ==> r == e
  {
    var entry := Entry(lang, e.key);
    if entry.Some? && entry.value != "" then e.(text := entry.value) else e
  }

  /** Every tagged element after a language switch, in document order. */
  function RetranslateAll(lang: Lang, es: seq<TaggedText>): (r: seq<TaggedText>)
    ensures |r| == |es|
  {
    seq(|es|, i requires 0 <= i < |es| => Retranslated(lang, es[i]))
  }

  /**
   * After a switch to `lang`, each element shows `lang`'s text for its key
   * when the table has one, and is untouched otherwise.
   */
  lemma RetranslateAllShows(lang: Lang, es: seq<TaggedText>, i: int)
    requires 0 <= i < |es|
    ensures RetranslateAll(lang, es)[i].key == es[i].key
    ensures forall k :: Name(k) == es[i].key ==> RetranslateAll(lang, es)[i].text == Text(lang, k)
    ensures KeyOf(es[i].key).None? ==> RetranslateAll(lang, es)[i] == es[i]
  {
  }

  /** The labels depend only on the last language chosen: switching through another language leaves no trace. */
  lemma RetranslateAllLastWins(l1: Lang, l2: Lang, es: seq<TaggedText>)
    ensures RetranslateAll(l2, RetranslateAll(l1, es)) == RetranslateAll(l2, es)
  {
    var a := RetranslateAll(l2, RetranslateAll(l1, es));
    var b := RetranslateAll(l2, es);
    forall i | 0 <= i < |es| ensures a[i] == b[i] {
      RetranslateAllShows(l1, es, i);
      RetranslateAllShows(l2, RetranslateAll(l1, es), i);
      RetranslateAllShows(l2, es, i);
    }
  }

  // ---------------------------------------------------------------------
  // Voice button

  /**
   * The temperature the voice button reads back: `parseFloat` of the slot
   * with `°C` removed.  On a slot text written for a temperature it is that
   * temperature.
   */
  function VoiceTemp(tempText: string): (r: Option<int>)
    ensures forall t :: tempText == TempText(t) ==> r == Some(t)
  {
    assert forall t :: tempText == TempText(t) ==> ParseNumber(RemoveFirst(tempText, DegreeSuffix)) == Some(t) by {
      forall t | tempText == TempText(t)
        ensures ParseNumber(RemoveFirst(tempText, DegreeSuffix)) == Some(t)
      {
        TempTextParsesBack(t);
      }
    }
    ParseNumber(RemoveFirst(tempText, DegreeSuffix))
  }

  /** The voice button's check that the slots hold real data rather than a placeholder or the failure text. */
  predicate VoiceGuard(lang: Lang, city: string, desc: string, tempText: string): (b: bool)
    ensures b ==> tempText != LoadingTemp && VoiceTemp(tempText).Some?
    ensures city == "" || desc == "" || city == Text(lang, Loading) || city == ErrorCity ==> !b
  {
    LoadingTempNotNumeric();
    city != "" && desc != "" && VoiceTemp(tempText).Some?
    && city != Text(lang, Loading) && city != ErrorCity
  }

  /** The placeholder temperature does not parse as a number. */
  lemma LoadingTempNotNumeric()
    ensures VoiceTemp(LoadingTemp).None?
  {
    var dashes := "--";
    IndexOfAppended(dashes, DegreeSuffix);
    assert LoadingTemp == dashes + DegreeSuffix;
    assert RemoveFirst(LoadingTemp, DegreeSuffix) == dashes;
    SignThenNoDigit(dashes);
  }

  /**
   * With a reading on display the button speaks exactly when the city and
   * description are non-empty and the city is neither the loading text nor
   * `Error`; it then reads back the same whole-degree temperature.
   */
  lemma VoiceGuardOnReading(lang: Lang, r: Reading)
    ensures VoiceTemp(TempText(r.temp)) == Some(r.temp)
    ensures VoiceGuard(lang, r.name, Capitalize(r.description), TempText(r.temp))
        <==> r.name != "" && r.description != "" && r.name != Text(lang, Loading) && r.name != ErrorCity
  {
    CapitalizeEmptyIff(r.description);
    TempTextParsesBack(r.temp);
  }
}
