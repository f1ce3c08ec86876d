/**
 * The widget's two translation sets, English and Spanish.  Each set maps
 * the same fourteen UI string keys to display texts.  The keys are a
 * datatype here; `Name` gives the string the page and the script use for
 * each one, and `Entry` is the set looked up by an arbitrary string, the
 * way an element's `data-i18n` attribute is looked up.
 */
module I18n {
  import opened Wrappers

  /** The languages the selector offers; the script knows no others. */
  datatype Lang = En | Es

  /** The option value of the language selector for each language. */
  function Code(lang: Lang): string {
    match lang
    case En => "en"
    case Es => "es"
  }

  /** The keys both translation sets define. */
  datatype Key =
    | LangLabel | SearchBtn | TempLabel | DescLabel | HumidityLabel | VoiceBtnText
    | ErrorApi | Loading | Placeholder | DefaultDesc
    | Morning | Afternoon | Evening | Night

  /** The key's string, as written in the tables and in `data-i18n` attributes. */
  function Name(k: Key): string {
    match k
    case LangLabel => "lang-label"
    case SearchBtn => "search-btn"
    case TempLabel => "temp-label"
    case DescLabel => "desc-label"
    case HumidityLabel => "humidity-label"
    case VoiceBtnText => "voice-btn-text"
    case ErrorApi => "error-api"
    case Loading => "loading"
    case Placeholder => "placeholder"
    case DefaultDesc => "default-desc"
    case Morning => "morning"
    case Afternoon => "afternoon"
    case Evening => "evening"
    case Night => "night"
  }

  /** The key a string names, if it names one. */
  function KeyOf(s: string): (r: Option<Key>)
    ensures r.Some? ==> Name(r.value) == s
  {
    if s == "lang-label" then Some(LangLabel)
    else if s == "search-btn" then Some(SearchBtn)
    else if s == "temp-label" then Some(TempLabel)
    else if s == "desc-label" then Some(DescLabel)
    else if s == "humidity-label" then Some(HumidityLabel)
    else if s == "voice-btn-text" then Some(VoiceBtnText)
    else if s == "error-api" then Some(ErrorApi)
    else if s == "loading" then Some(Loading)
    else if s == "placeholder" then Some(Placeholder)
    else if s == "default-desc" then Some(DefaultDesc)
    else if s == "morning" then Some(Morning)
    else if s == "afternoon" then Some(Afternoon)
    else if s == "evening" then Some(Evening)
    else if s == "night" then Some(Night)
    else None
  }

  /** Every key is found again from its string, so `KeyOf` misses only strings that name no key. */
  lemma KeyOfName(k: Key)
    ensures KeyOf(Name(k)) == Some(k)
  {
  }

  /** `translations[lang][key]`: the text of a key in a language; never the empty string. */
  function Text(lang: Lang, k: Key): (r: string)
    ensures r != ""
  {
    match lang
    case En => (
      match k
      case LangLabel => "Language:"
      case SearchBtn => "Search"
      case TempLabel => "Temperature:"
      case DescLabel => "Description:"
      case HumidityLabel => "Humidity:"
      case VoiceBtnText => "Speak"
      case ErrorApi => "City not found or API error." + " Please try again."
      case Loading => "Loading..."
      case Placeholder => "Enter City Name"
      case DefaultDesc => "Fetching data..."
      case Morning => "Good morning!"
      case Afternoon => "Good afternoon!"
      case Evening => "Good evening!"
      case Night => "Hello there!")
    case Es => (
      match k
      case LangLabel => "Idioma:"
      case SearchBtn => "Buscar"
      case TempLabel => "Temperatura:"
      case DescLabel => "Descripción:"
      case HumidityLabel => "Humedad:"
      case VoiceBtnText => "Hablar"
      case ErrorApi => "Ciudad no encontrada o error de API." + " Por favor, inténtelo de nuevo."
      case Loading => "Cargando..."
      case Placeholder => "Introduce el nombre de la ciudad"
      case DefaultDesc => "Obteniendo datos..."
      case Morning => "¡Buenos días!"
      case Afternoon => "¡Buenas tardes!"
      case Evening => "¡Buenas noches!"
      case Night => "¡Hola a ti!")
  }

  /**
   * `translations[lang][s]` for any string `s`: the entry, or `None` where the
   * set has none.  An entry is truthy (present and non-empty) exactly when
   * `s` names a key, in either language, and it is then that key's text.
   */
  function Entry(lang: Lang, s: string): (r: Option<string>)
    ensures (r.Some? && r.value != "") <==> exists k :: Name(k) == s
    ensures forall k :: Name(k) == s ==> r == Some(Text(lang, k))
  {
    assert forall k :: Name(k) == s ==> KeyOf(s) == Some(k) by {
      forall k | Name(k) == s
        ensures KeyOf(s) == Some(k)
      {
        KeyOfName(k);
      }
    }
    match KeyOf(s)
    case Some(k) => Some(Text(lang, k))
    case None => None
  }

  /** Both sets define the same keys: a string has an entry in one exactly when it has one in the other. */
  lemma SameKeys(s: string)
    ensures Entry(En, s).Some? <==> Entry(Es, s).Some?
  {
  }

  /** The generic error text starts with `C` and holds no digit 4, in both languages. */
  lemma ErrorApiShape(lang: Lang)
    ensures Text(lang, ErrorApi)[0] == 'C' && '4' !in Text(lang, ErrorApi)
  {
    match lang
    case En => EnErrorApiShape();
    case Es => EsErrorApiShape();
  }

  lemma EnErrorApiShape()
    ensures '4' !in Text(En, ErrorApi)
  {
    var a, b := "City not found or API error.", " Please try again.";
    assert Text(En, ErrorApi) == a + b;
    assert '4' !in a && '4' !in b;
  }

  lemma EsErrorApiShape()
    ensures '4' !in Text(Es, ErrorApi)
  {
    var a, b := "Ciudad no encontrada o error de API.", " Por favor, inténtelo de nuevo.";
    assert Text(Es, ErrorApi) == a + b;
    assert '4' !in a && '4' !in b;
  }

  /** The loading text: the Spanish one has neither `L` nor `M`. */
  lemma LoadingShape()
    ensures Text(En, Loading) == "Loading..."
    ensures Text(Es, Loading) == "Cargando..."
    ensures 'L' !in Text(Es, Loading) && 'M' !in Text(Es, Loading)
  {
  }
}
