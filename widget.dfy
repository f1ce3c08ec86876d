/**
 * The page as a state machine over its display slots.  Each method is one
 * code path of the script that overwrites slots: the language switch, the
 * loading reset at the start of a fetch, the success and failure paths,
 * the speech call, and the submit and voice-button handlers.  The `modifies`
 * clause of each method names exactly the slots that path writes.
 */
module Widget {
  import opened Wrappers
  import opened I18n
  import opened Strings
  import opened Greeting
  import opened Speech
  import opened Display

  /** How an outstanding fetch ends: a reading to show, or a failure. */
  datatype FetchOutcome = Fetched(reading: Reading) | Failed(failure: FetchFailure)

  class WeatherWidget {
    /** The module-level active language; it starts as English. */
    var currentLanguage: Lang
    /** The elements carrying a translation key, in document order. */
    var tagged: seq<TaggedText>
    /** The search input's placeholder. */
    var placeholderText: string
    /** The greeting line. */
    var greetingText: string
    var cityText: string
    var tempText: string
    var descText: string
    var humidityText: string
    var errorText: string
    var iconHidden: bool
    var iconSrc: string
    var iconAlt: string
    /** Whether the platform offers speech synthesis. */
    const speechAvailable: bool
    /** Every utterance handed to the speech queue, oldest first. */
    ghost var spoken: seq<Utterance>

    /** The page as loaded, before any script has run; the markup's texts are parameters. */
    constructor (tagged: seq<TaggedText>, city: string, temp: string, desc: string, humidity: string, speechAvailable: bool)
      ensures currentLanguage == En && this.tagged == tagged
      ensures cityText == city && tempText == temp && descText == desc && humidityText == humidity
      ensures errorText == "" && iconHidden && iconSrc == "" && iconAlt == ""
      ensures placeholderText == "" && greetingText == ""
      ensures this.speechAvailable == speechAvailable && spoken == []
    {
      currentLanguage := En;
      this.tagged := tagged;
      cityText, tempText, descText, humidityText := city, temp, desc, humidity;
      errorText, iconHidden, iconSrc, iconAlt := "", true, "", "";
      placeholderText, greetingText := "", "";
      this.speechAvailable := speechAvailable;
      spoken := [];
    }

    /** The slots show the loading placeholders of the active language. */
    predicate ShowsLoading()
      reads this
    {
      cityText == Text(currentLanguage, Loading) && tempText == LoadingTemp
      && descText == Text(currentLanguage, DefaultDesc) && humidityText == LoadingHumidity
      && errorText == "" && iconHidden
    }

    /** The slots show reading `r`. */
    predicate ShowsReading(r: Reading)
      reads this
    {
      cityText == r.name && tempText == TempText(r.temp) && descText == Capitalize(r.description)
      && humidityText == HumidityText(r.humidity)
      && !iconHidden && iconSrc == IconUrl(r.icon) && iconAlt == r.description
    }

    /** The slots show failure `f` in the active language. */
    predicate ShowsFailure(f: FetchFailure)
      reads this
    {
      cityText == ErrorCity && tempText == LoadingTemp && descText == "" && humidityText == LoadingHumidity
      && errorText == FailureText(currentLanguage, f)
    }

    /** The voice button's check passes on the current slots. */
    predicate VoiceReady()
      reads this
    {
      VoiceGuard(currentLanguage, cityText, descText, tempText)
    }

    /** The greeting part of `updateDateTimeAndGreeting`, for the hour the clock reads. */
    method Tick(hour: int)
      modifies this`greetingText
      ensures greetingText == GreetingText(currentLanguage, hour)
    {
      greetingText := Text(currentLanguage, GreetingKey(hour));
    }

    /**
     * `translateUI(lang)`: switch language, re-label the tagged elements,
     * reset city, description and humidity if the city slot still shows a
     * placeholder, clear the error line, and redraw the greeting.
     */
    method TranslateUI(lang: Lang, hour: int)
      modifies this`currentLanguage, this`tagged, this`placeholderText, this`greetingText
      modifies this`cityText, this`descText, this`humidityText, this`errorText
      ensures currentLanguage == lang
      ensures tagged == RetranslateAll(lang, old(tagged))
      ensures placeholderText == Text(lang, Placeholder)
      ensures ShouldResetOnLanguageChange(old(cityText)) ==>
        cityText == Text(lang, Loading) && descText == Text(lang, DefaultDesc) && humidityText == LoadingHumidity
      ensures !ShouldResetOnLanguageChange(old(cityText)) ==>
        cityText == old(cityText) && descText == old(descText) && humidityText == old(humidityText)
      ensures tempText == old(tempText) && errorText == ""
      ensures greetingText == GreetingText(lang, hour)
    {
      currentLanguage := lang;
      Relabel(lang);
      placeholderText := Text(lang, Placeholder);
      ResetPlaceholders(lang);
      errorText := "";
      Tick(hour);
    }

    /** The `data-i18n` loop of `translateUI`: each tagged element takes its key's truthy entry, in order. */
    method Relabel(lang: Lang)
      modifies this`tagged
      ensures tagged == RetranslateAll(lang, old(tagged))
    {
      ghost var before := tagged;
      var i := 0;
      while i < |tagged|
        invariant 0 <= i <= |tagged| == |before|
        invariant forall j :: 0 <= j < i ==> tagged[j] == Retranslated(lang, before[j])
        invariant forall j :: i <= j < |tagged| ==> tagged[j] == before[j]
      {
        var entry := Entry(lang, tagged[i].key);
        if entry.Some? && entry.value != "" {
          tagged := tagged[i := tagged[i].(text := entry.value)];
        }
        i := i + 1;
      }
    }

    /** The conditional reset of `translateUI`: only a city slot mentioning `Load` or `Mumbai` triggers it. */
    method ResetPlaceholders(lang: Lang)
      modifies this`cityText, this`descText, this`humidityText
      ensures ShouldResetOnLanguageChange(old(cityText)) ==>
        cityText == Text(lang, Loading) && descText == Text(lang, DefaultDesc) && humidityText == LoadingHumidity
      ensures !ShouldResetOnLanguageChange(old(cityText)) ==>
        cityText == old(cityText) && descText == old(descText) && humidityText == old(humidityText)
    {
      if Contains(cityText, "Load") || Contains(cityText, "Mumbai") {
        cityText := Text(lang, Loading);
        descText := Text(lang, DefaultDesc);
        humidityText := LoadingHumidity;
      }
    }

    /** The reset `fetchWeatherData` performs before its request: every slot to its loading placeholder. */
    method BeginFetch()
      modifies this`cityText, this`tempText, this`descText, this`humidityText, this`errorText, this`iconHidden
      ensures ShowsLoading()
      ensures !VoiceReady()
    {
      cityText := Text(currentLanguage, Loading);
      tempText := LoadingTemp;
      descText := Text(currentLanguage, DefaultDesc);
      humidityText := LoadingHumidity;
      errorText := "";
      iconHidden := true;
    }

    /** `updateDisplay(data)`: show the reading, reveal its icon, and announce it once. */
    method UpdateDisplay(r: Reading)
      modifies this`cityText, this`tempText, this`descText, this`humidityText
      modifies this`iconSrc, this`iconAlt, this`iconHidden, this`spoken
      ensures ShowsReading(r)
      ensures spoken == old(spoken)
        + (if speechAvailable then [MakeUtterance(currentLanguage, r.name, r.description, r.temp)] else [])
    {
      cityText := r.name;
      tempText := TempText(r.temp);
      descText := Capitalize(r.description);
      humidityText := HumidityText(r.humidity);
      iconSrc := IconUrl(r.icon);
      iconAlt := r.description;
      iconHidden := false;
      Speak(r.name, r.description, r.temp);
    }

    /**
     * With a reading on display the voice button speaks exactly when its
     * city and description are non-empty and the city is neither the
     * loading text nor `Error`.
     */
    lemma VoiceReadyOnReading(r: Reading)
      requires ShowsReading(r)
      ensures VoiceReady() <==>
        r.name != "" && r.description != "" && r.name != Text(currentLanguage, Loading) && r.name != ErrorCity
    {
      VoiceGuardOnReading(currentLanguage, r);
    }

    /** The `catch` branch of `fetchWeatherData`: the failure placeholders and the error line. */
    method FetchFailed(f: FetchFailure)
      modifies this`cityText, this`tempText, this`descText, this`humidityText, this`errorText
      ensures ShowsFailure(f)
      ensures !VoiceReady()
    {
      var message := ThrownMessage(currentLanguage, f);
      cityText := ErrorCity;
      tempText := LoadingTemp;
      descText := "";
      humidityText := LoadingHumidity;
      errorText := if Contains(message, "404") then Text(currentLanguage, ErrorApi) else ApiErrorPrefix + message;
    }

    /** The part of `fetchWeatherData` that runs once the request has settled. */
    method CompleteFetch(outcome: FetchOutcome)
      modifies this`cityText, this`tempText, this`descText, this`humidityText, this`errorText
      modifies this`iconSrc, this`iconAlt, this`iconHidden, this`spoken
      ensures outcome.Fetched? ==> ShowsReading(outcome.reading) && errorText == old(errorText)
      ensures outcome.Fetched? ==>
        spoken == old(spoken) + (if speechAvailable then [MakeUtterance(currentLanguage, outcome.reading.name, outcome.reading.description, outcome.reading.temp)] else [])
      ensures outcome.Failed? ==> ShowsFailure(outcome.failure) && spoken == old(spoken)
      ensures outcome.Failed? ==> iconHidden == old(iconHidden) && iconSrc == old(iconSrc) && iconAlt == old(iconAlt)
    {
      match outcome
      case Fetched(r) => UpdateDisplay(r);
      case Failed(f) => FetchFailed(f);
    }

    /** `speakWeather(city, description, temp)`: one utterance, if the platform can speak. */
    method Speak(city: string, desc: string, temp: int)
      modifies this`spoken
      ensures spoken == old(spoken) + (if speechAvailable then [MakeUtterance(currentLanguage, city, desc, temp)] else [])
    {
      if !speechAvailable {
        return;
      }
      var text := SpeechText(currentLanguage, city, desc, temp);
      var locale := if currentLanguage == Es then "es-ES" else "en-US";
      spoken := spoken + [Utterance(text, locale, 1.0, 1.0)];
    }

    /** The submit handler: fetch only when the trimmed input is non-empty. */
    method OnSubmit(input: string) returns (started: bool)
      modifies this`cityText, this`tempText, this`descText, this`humidityText, this`errorText, this`iconHidden
      ensures started <==> exists i :: 0 <= i < |input| && !IsJsWhitespace(input[i])
      ensures started ==> ShowsLoading()
      ensures !started ==> cityText == old(cityText) && tempText == old(tempText) && descText == old(descText)
      ensures !started ==> humidityText == old(humidityText) && errorText == old(errorText) && iconHidden == old(iconHidden)
    {
      var city := Trim(input);
      TrimEmptyIff(input);
      started := city != "";
      if started {
        BeginFetch();
      }
    }

    /** The voice-button handler: re-read the slots and speak them if they hold real data. */
    method OnVoiceClick() returns (requested: bool)
      modifies this`spoken
      ensures requested == VoiceReady()
      ensures requested ==>
        spoken == old(spoken) + (if speechAvailable then [MakeUtterance(currentLanguage, cityText, descText, VoiceTemp(tempText).value)] else [])
      ensures !requested ==> spoken == old(spoken)
    {
      var city := cityText;
      var desc := descText;
      var temp := VoiceTemp(tempText);
      requested := city != "" && desc != "" && temp.Some?
        && city != Text(currentLanguage, Loading) && city != ErrorCity;
      if requested {
        Speak(city, desc, temp.value);
      }
    }

    /** Page start-up: set the selected language, start the default fetch, draw the clock. */
    method Load(selected: Lang, hour: int)
      modifies this`currentLanguage, this`tagged, this`placeholderText, this`greetingText
      modifies this`cityText, this`tempText, this`descText, this`humidityText, this`errorText, this`iconHidden
      ensures currentLanguage == selected && ShowsLoading()
      ensures tagged == RetranslateAll(selected, old(tagged))
      ensures placeholderText == Text(selected, Placeholder) && greetingText == GreetingText(selected, hour)
      ensures spoken == old(spoken)
    {
      TranslateUI(selected, hour);
      BeginFetch();
      Tick(hour);
    }
  }

  /** The slot texts the Lima reading produces. */
  lemma LimaSlots(r: Reading)
    requires r == Reading("Lima", 22, 55, "clear sky", "01d")
    ensures TempText(r.temp) == "22°C" && HumidityText(r.humidity) == "55%"
    ensures Capitalize(r.description) == "Clear sky"
    ensures IconUrl(r.icon) == "http://openweathermap.org/img/wn/01d@2x.png"
  {
    assert NatToString(2) == "2" && NatToString(5) == "5";
    assert NatToString(22) == "22" && NatToString(55) == "55";
  }

  /** The English utterance the Lima reading produces. */
  lemma LimaSentence(r: Reading)
    requires r == Reading("Lima", 22, 55, "clear sky", "01d")
    ensures MakeUtterance(En, r.name, r.description, r.temp)
      == Utterance("The current weather in Lima is clear sky" + ", with a temperature of 22 degrees Celsius.", "en-US", 1.0, 1.0)
  {
    var t := IntToString(r.temp);
    LimaHead(r.name);
    LimaLink(r.description);
    LimaTail(r.temp, t);
    SpeechTextJoin(En, r.name, r.description, r.temp);
    LimaWords(Intro(En) + r.name, Link(En) + r.description, Middle(En) + (t + Unit(En)));
  }

  lemma LimaWords(a: string, b: string, c: string)
    requires a == "The current weather in Lima" && b == " is clear sky"
    requires c == ", with a temperature of 22 degrees Celsius."
    ensures a + b + c == "The current weather in Lima is clear sky" + ", with a temperature of 22 degrees Celsius."
  {
    assert a + b == "The current weather in Lima is clear sky";
  }

  lemma LimaHead(city: string)
    requires city == "Lima"
    ensures Intro(En) + city == "The current weather in Lima"
  {
  }

  lemma LimaLink(desc: string)
    requires desc == "clear sky"
    ensures Link(En) + desc == " is clear sky"
  {
  }

  lemma LimaTail(temp: int, t: string)
    requires temp == 22 && t == IntToString(temp)
    ensures Middle(En) + (t + Unit(En)) == ", with a temperature of 22 degrees Celsius."
  {
    assert NatToString(2) == "2";
    assert t == "22";
  }

  /** The Lima reading is neither empty nor a placeholder. */
  lemma LimaNotPlaceholder(lang: Lang, r: Reading)
    requires r == Reading("Lima", 22, 55, "clear sky", "01d") && lang == En
    ensures r.name != "" && r.description != "" && r.name != Text(lang, Loading) && r.name != ErrorCity
  {
  }

  /** A successful English fetch of Lima, speech available: the slots, the icon and the one utterance. */
  method LimaScenario() returns (w: WeatherWidget)
    ensures w.cityText == "Lima" && w.tempText == "22°C" && w.humidityText == "55%"
    ensures w.descText == "Clear sky" && !w.iconHidden
    ensures w.iconSrc == "http://openweathermap.org/img/wn/01d@2x.png"
    ensures w.spoken == [Utterance("The current weather in Lima is clear sky" + ", with a temperature of 22 degrees Celsius.", "en-US", 1.0, 1.0)]
    ensures w.VoiceReady()
  {
    w := new WeatherWidget([], "", "", "", "", true);
    var r := Reading("Lima", 22, 55, "clear sky", "01d");
    w.CompleteFetch(Fetched(r));
    assert w.spoken == [MakeUtterance(w.currentLanguage, r.name, r.description, r.temp)];
    LimaSlots(r);
    LimaSentence(r);
    LimaNotPlaceholder(w.currentLanguage, r);
    w.VoiceReadyOnReading(r);
  }

  /** The shown text for a body message of "city not found". */
  lemma CityNotFoundShown(lang: Lang, m: string)
    requires m == "city not found"
    ensures FailureText(lang, HttpError(Some(m))) == "API Error: city not found"
  {
    RawBodyMessageShown(lang, m);
    CityNotFoundJoin(m);
  }

  lemma CityNotFoundJoin(m: string)
    requires m == "city not found"
    ensures ApiErrorPrefix + m == "API Error: city not found"
  {
  }

  /** A non-ok response whose body says "city not found": the raw message, not the friendly text. */
  method CityNotFoundScenario() returns (w: WeatherWidget)
    ensures w.cityText == "Error" && w.tempText == "--°C" && w.descText == "" && w.humidityText == "--%"
    ensures w.errorText == "API Error: city not found"
    ensures !w.VoiceReady()
  {
    w := new WeatherWidget([], "", "", "", "", true);
    var m := "city not found";
    w.CompleteFetch(Failed(HttpError(Some(m))));
    CityNotFoundShown(w.currentLanguage, m);
  }

  /**
   * Switching to Spanish and back while loading: the Spanish loading text
   * has neither `Load` nor `Mumbai`, so the second switch leaves it shown
   * under English labels.
   */
  method LanguageRoundTripWhileLoading() returns (w: WeatherWidget)
    ensures w.currentLanguage == En
    ensures w.cityText == "Cargando..." && w.descText == Text(Es, DefaultDesc)
    ensures w.greetingText == GreetingText(En, 9)
  {
    w := new WeatherWidget([], "", "", "", "", false);
    w.Load(En, 9);
    ResetTestOnPlaceholders();
    w.TranslateUI(Es, 9);
    w.TranslateUI(En, 9);
    LoadingShape();
  }

  /** The default city's own name triggers the language-switch reset. */
  lemma MumbaiResets(city: string)
    requires city == "Mumbai"
    ensures ShouldResetOnLanguageChange(city)
  {
    assert MatchAt(city, "Mumbai", 0);
  }

  /** The Spanish loading texts under English labels pass the voice check. */
  lemma SpanishPlaceholdersPassVoiceCheck(temp: int)
    ensures VoiceGuard(En, Text(Es, Loading), Text(Es, DefaultDesc), TempText(temp))
    ensures VoiceTemp(TempText(temp)) == Some(temp)
  {
    LoadingShape();
    assert Text(Es, Loading)[0] != Text(En, Loading)[0];
    assert Text(Es, Loading) != ErrorCity by {
      assert |Text(Es, Loading)| != |ErrorCity|;
    }
  }

  /** A fresh English page with speech that has shown and spoken the reading `r`. */
  method ShowReading(r: Reading) returns (w: WeatherWidget)
    ensures fresh(w)
    ensures w.currentLanguage == En && w.speechAvailable
    ensures w.cityText == r.name && w.tempText == TempText(r.temp)
    ensures w.spoken == [MakeUtterance(En, r.name, r.description, r.temp)]
  {
    w := new WeatherWidget([], "", "", "", "", true);
    w.CompleteFetch(Fetched(r));
  }

  /**
   * Switching to Spanish and back to English when the city slot triggers the
   * reset: city and description keep the Spanish loading texts, while the
   * temperature and the spoken log are untouched.
   */
  method SpanishAndBack(w: WeatherWidget, hour: int)
    requires ShouldResetOnLanguageChange(w.cityText)
    modifies w
    ensures w.currentLanguage == En
    ensures w.cityText == Text(Es, Loading) && w.descText == Text(Es, DefaultDesc)
    ensures w.tempText == old(w.tempText) && w.spoken == old(w.spoken)
  {
    w.TranslateUI(Es, hour);
    ResetTestOnPlaceholders();
    w.TranslateUI(En, hour);
  }

  /** The voice button pressed on an English page that shows the Spanish loading texts and a temperature. */
  method ClickOnSpanishPlaceholders(w: WeatherWidget, temp: int)
    requires w.currentLanguage == En && w.speechAvailable
    requires w.cityText == Text(Es, Loading) && w.descText == Text(Es, DefaultDesc) && w.tempText == TempText(temp)
    modifies w`spoken
    ensures w.spoken == old(w.spoken) + [MakeUtterance(En, Text(Es, Loading), Text(Es, DefaultDesc), temp)]
  {
    SpanishPlaceholdersPassVoiceCheck(temp);
    var spoke := w.OnVoiceClick();
  }

  /**
   * An English Mumbai reading, a switch to Spanish and back: the Spanish
   * switch resets city and description to the Spanish loading texts but
   * keeps the temperature; the switch back leaves them; and the voice
   * button then speaks the loading texts as if they were a reading.
   */
  method MumbaiRoundTripSpeaksPlaceholders(r: Reading) returns (w: WeatherWidget)
    requires ShouldResetOnLanguageChange(r.name)
    ensures w.currentLanguage == En
    ensures w.cityText == Text(Es, Loading) && w.descText == Text(Es, DefaultDesc) && w.tempText == TempText(r.temp)
    ensures w.spoken == [
      MakeUtterance(En, r.name, r.description, r.temp),
      MakeUtterance(En, Text(Es, Loading), Text(Es, DefaultDesc), r.temp)]
  {
    w := ShowReading(r);
    SpanishAndBack(w, 9);
    ClickOnSpanishPlaceholders(w, r.temp);
  }
}
