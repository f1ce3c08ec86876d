/**
 * The time-of-day greeting: the hour of the day picks one of four
 * translation keys, and the active language's table supplies its text.
 * The hour is a parameter here; the script reads it from the clock.
 */
module Greeting {
  import opened Wrappers
  import opened I18n

  /** The four greeting keys, in the order they occur through the day. */
  predicate IsGreetingKey(k: Key) {
    k == Morning || k == Afternoon || k == Evening || k == Night
  }

  /** `getGreetingKey()` for the given hour: closed-open buckets [5,12), [12,18), [18,22), else night. */
  function GreetingKey(hour: int): (key: Key)
    ensures IsGreetingKey(key)
  {
    if hour >= 5 && hour < 12 then Morning
    else if hour >= 12 && hour < 18 then Afternoon
    else if hour >= 18 && hour < 22 then Evening
    else Night
  }

  /** Which bucket each hour of the day falls in; every hour lands in exactly one. */
  lemma GreetingBuckets(hour: int)
    requires 0 <= hour < 24
    ensures GreetingKey(hour) == Morning <==> 5 <= hour < 12
    ensures GreetingKey(hour) == Afternoon <==> 12 <= hour < 18
    ensures GreetingKey(hour) == Evening <==> 18 <= hour < 22
    ensures GreetingKey(hour) == Night <==> hour < 5 || 22 <= hour
  {
  }

  /** The boundary hours: each bucket includes its first hour and excludes its last. */
  lemma GreetingBoundaries()
    ensures GreetingKey(4) == Night && GreetingKey(5) == Morning
    ensures GreetingKey(11) == Morning && GreetingKey(12) == Afternoon
    ensures GreetingKey(17) == Afternoon && GreetingKey(18) == Evening
    ensures GreetingKey(21) == Evening && GreetingKey(22) == Night
  {
  }

  /** Every greeting key has an entry under its string in both languages' tables. */
  lemma GreetingKeyTranslated(lang: Lang, hour: int)
    ensures Entry(lang, Name(GreetingKey(hour))) == Some(GreetingText(lang, hour))
  {
    KeyOfName(GreetingKey(hour));
  }

  /** The greeting line shown for an hour (the greeting part of `updateDateTimeAndGreeting`). */
  function GreetingText(lang: Lang, hour: int): (r: string)
    ensures r != ""
  {
    Text(lang, GreetingKey(hour))
  }

  /** Within one language, the greeting text tells the bucket apart: equal texts, equal keys. */
  lemma GreetingTextIdentifiesBucket(lang: Lang, h1: int, h2: int)
    ensures GreetingText(lang, h1) == GreetingText(lang, h2) <==> GreetingKey(h1) == GreetingKey(h2)
  {
    GreetingTextsDistinct(lang);
  }

  /** The four greeting texts of a language are pairwise different. */
  lemma GreetingTextsDistinct(lang: Lang)
    ensures forall k1, k2 :: IsGreetingKey(k1) && IsGreetingKey(k2) && k1 != k2 ==> Text(lang, k1) != Text(lang, k2)
  {
    match lang
    case En =>
      assert "Good morning!"[5] != "Good evening!"[5];
    case Es =>
      assert "¡Buenas tardes!"[8] != "¡Buenas noches!"[8];
  }
}
