/**
 * The spoken weather report: the sentence template and locale tag chosen
 * by the active language, with neutral pitch and rate.  The platform
 * speech queue itself is not modelled; an utterance is the value handed
 * to it.
 */
module Speech {
  import opened Wrappers
  import opened I18n
  import opened Strings

  /** What `speakWeather` hands to the speech queue. */
  datatype Utterance = Utterance(text: string, locale: string, pitch: real, rate: real)

  /** The opening words of the sentence, up to the city. */
  function Intro(lang: Lang): string {
    match lang
    case Es => "El tiempo actual en "
    case En => "The current weather in "
  }

  /** The words between the city and the description. */
  function Link(lang: Lang): string {
    match lang
    case Es => " es de "
    case En => " is "
  }

  /** The words between the description and the temperature. */
  function Middle(lang: Lang): string {
    match lang
    case Es => ", con una temperatura de "
    case En => ", with a temperature of "
  }

  /** The closing words, after the temperature. */
  function Unit(lang: Lang): string {
    match lang
    case Es => " grados centígrados."
    case En => " degrees Celsius."
  }

  /** Where the description starts in the sentence for `city`. */
  function DescAt(lang: Lang, city: string): nat {
    |Intro(lang)| + |city| + |Link(lang)|
  }

  /** Where the temperature starts in the sentence for `city` and `desc`. */
  function TempAt(lang: Lang, city: string, desc: string): nat {
    DescAt(lang, city) + |desc| + |Middle(lang)|
  }

  /**
   * The sentence for a city, a description and a whole-degree temperature:
   * the opening words, the city, the description after the linking words,
   * and at the end the temperature's numeral followed by the unit.
   */
  function SpeechText(lang: Lang, city: string, desc: string, temp: int): (r: string)
    ensures |r| == TempAt(lang, city, desc) + |IntToString(temp)| + |Unit(lang)|
    ensures r[..|Intro(lang)|] == Intro(lang)
    ensures r[|Intro(lang)|..|Intro(lang)| + |city|] == city
    ensures r[DescAt(lang, city)..DescAt(lang, city) + |desc|] == desc
    ensures r[TempAt(lang, city, desc)..] == IntToString(temp) + Unit(lang)
  {
    var r := Intro(lang) + city + Link(lang) + desc + Middle(lang) + (IntToString(temp) + Unit(lang));
    SlicesOfJoin(Intro(lang), city, Link(lang), desc, Middle(lang), IntToString(temp) + Unit(lang));
    r
  }

  /**
   * The fixed words between the pieces: the linking words sit between the
   * city and the description, the middle words between the description and
   * the temperature.
   */
  lemma SpeechTextConstantWords(lang: Lang, city: string, desc: string, temp: int)
    ensures var r := SpeechText(lang, city, desc, temp);
      && r[|Intro(lang)| + |city|..DescAt(lang, city)] == Link(lang)
      && r[DescAt(lang, city) + |desc|..TempAt(lang, city, desc)] == Middle(lang)
  {
    SlicesOfJoin(Intro(lang), city, Link(lang), desc, Middle(lang), IntToString(temp) + Unit(lang));
  }

  /** The sentence as three joined parts: the city's, the description's and the temperature's. */
  lemma SpeechTextJoin(lang: Lang, city: string, desc: string, temp: int)
    ensures SpeechText(lang, city, desc, temp)
      == (Intro(lang) + city) + (Link(lang) + desc) + (Middle(lang) + (IntToString(temp) + Unit(lang)))
  {
    var i, c, l, d, m, t := Intro(lang), city, Link(lang), desc, Middle(lang), IntToString(temp) + Unit(lang);
    assert i + c + l + d == (i + c) + (l + d);
    assert i + c + l + d + m + t == (i + c + l + d) + (m + t);
  }

  /** The pieces of a six-part join are found again by slicing. */
  lemma SlicesOfJoin(i: string, c: string, l: string, d: string, m: string, t: string)
    ensures var r := i + c + l + d + m + t;
      && r[..|i|] == i
      && r[|i|..|i| + |c|] == c
      && r[|i| + |c|..|i| + |c| + |l|] == l
      && r[|i| + |c| + |l|..|i| + |c| + |l| + |d|] == d
      && r[|i| + |c| + |l| + |d|..|i| + |c| + |l| + |d| + |m|] == m
      && r[|i| + |c| + |l| + |d| + |m|..] == t
  {
    var r := i + c + l + d + m + t;
    var head, body := i + c + l, i + c + l + d + m;
    assert r == body + t;
    assert body == head + d + m;
    assert r[..|body|] == body;
    assert r[|head|..|head| + |d|] == body[|head|..|head| + |d|];
    assert body[..|head| + |d|] == head + d;
    assert r[..|head|] == head;
    assert r[..|i|] == head[..|i|];
    assert head[..|i| + |c|] == i + c;
    assert r[|i|..|i| + |c|] == head[|i|..|i| + |c|];
    assert r[|i| + |c|..|head|] == head[|i| + |c|..];
    assert r[|head| + |d|..|body|] == body[|head| + |d|..];
  }

  /**
   * The temperature is read back from the spoken sentence: the text from
   * the temperature's position on parses as that temperature.
   */
  lemma SpeechTemperatureReadBack(lang: Lang, city: string, desc: string, temp: int)
    ensures ParseNumber(SpeechText(lang, city, desc, temp)[TempAt(lang, city, desc)..]) == Some(temp)
  {
    assert Unit(lang)[0] == ' ';
    ParseNumberOfIntToString(temp, Unit(lang));
  }

  /** The BCP-47 tag of the voice: Spanish (Spain) for Spanish, US English otherwise. */
  function SpeechLocale(lang: Lang): (tag: string)
    ensures |tag| == 5 && tag[..2] == Code(lang) && tag[2] == '-'
  {
    if lang == Es then "es-ES" else "en-US"
  }

  /** The utterance `speakWeather(city, description, temp)` enqueues. */
  function MakeUtterance(lang: Lang, city: string, desc: string, temp: int): (u: Utterance)
    ensures u.pitch == 1.0 && u.rate == 1.0
    ensures |u.locale| == 5 && u.locale[..2] == Code(lang)
    ensures |u.text| > |Intro(lang)| && u.text[..|Intro(lang)|] == Intro(lang)
  {
    Utterance(SpeechText(lang, city, desc, temp), SpeechLocale(lang), 1.0, 1.0)
  }

  /** The sentence's template and the voice's locale always agree on the language. */
  lemma TemplateMatchesLocale(lang: Lang, city: string, desc: string, temp: int)
    ensures SpeechText(lang, city, desc, temp)[0] == 'E' <==> SpeechLocale(lang) == "es-ES"
    ensures SpeechText(lang, city, desc, temp)[0] == 'T' <==> SpeechLocale(lang) == "en-US"
  {
    var r := SpeechText(lang, city, desc, temp);
    assert r[0] == r[..|Intro(lang)|][0];
  }

  /** Different languages never produce the same sentence. */
  lemma SpeechTextIdentifiesLanguage(l1: Lang, l2: Lang, c1: string, c2: string, d1: string, d2: string, t1: int, t2: int)
    requires SpeechText(l1, c1, d1, t1) == SpeechText(l2, c2, d2, t2)
    ensures l1 == l2
  {
    TemplateMatchesLocale(l1, c1, d1, t1);
    TemplateMatchesLocale(l2, c2, d2, t2);
  }
}
