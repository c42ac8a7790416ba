/**
 * The locale context: the current language, the text direction that goes
 * with it, whether the client has mounted, `translate` for inline string
 * pairs and `translateData` for records carrying English variants.
 */
module Locale {
  import opened Wrappers
  import Text

  /** The languages `setLocale` accepts. */
  datatype Lang = Ar | En {
    function Tag(): string {
      match this
      case Ar => "ar"
      case En => "en"
    }
  }

  datatype Direction = Rtl | Ltr

  /**
   * `locale` is a string because the stored preference restored on mount is
   * taken as found; any tag other than "en" behaves as Arabic.
   */
  datatype LocaleState = LocaleState(locale: string, direction: Direction, mounted: bool)

  /** Before mount: Arabic, right to left. */
  const Initial: LocaleState := LocaleState("ar", Rtl, false)

  /** Left to right exactly for English. */
  function DirectionFor(locale: string): (d: Direction)
    ensures d == Ltr <==> locale == "en"
  {
    if locale == "en" then Ltr else Rtl
  }

  predicate DirectionMatches(st: LocaleState) {
    st.direction == DirectionFor(st.locale)
  }

  function SetLocale(st: LocaleState, lang: Lang): (r: LocaleState)
    ensures r.locale == lang.Tag() && r.mounted == st.mounted
    ensures r.direction == Ltr <==> lang == En
  {
    LocaleState(lang.Tag(), DirectionFor(lang.Tag()), st.mounted)
  }

  /**
   * The mount effect: the provider is mounted and, when a non-empty locale
   * was stored, it is restored with its direction.
   */
  function Mount(st: LocaleState, stored: Option<string>): (r: LocaleState)
    ensures r.mounted
    ensures Text.Truthy(stored) ==> r.locale == stored.value && (r.direction == Ltr <==> stored.value == "en")
    ensures !Text.Truthy(stored) ==> r.locale == st.locale && r.direction == st.direction
  {
    if Text.Truthy(stored) then LocaleState(stored.value, DirectionFor(stored.value), true)
    else st.(mounted := true)
  }

  /** The direction matches the locale from the start and after every change. */
  lemma DirectionAlwaysMatches(st: LocaleState, lang: Lang, stored: Option<string>)
    requires DirectionMatches(st)
    ensures DirectionMatches(Initial)
    ensures DirectionMatches(SetLocale(st, lang))
    ensures DirectionMatches(Mount(st, stored))
  {
  }

  /** The Arabic text until mount; afterwards the English text exactly when the locale is English. */
  function Translate(st: LocaleState, arabic: string, english: string): (r: string)
    ensures !st.mounted ==> r == arabic
    ensures st.mounted && st.locale == "en" ==> r == english
    ensures st.mounted && st.locale != "en" ==> r == arabic
  {
    if !st.mounted then arabic
    else if st.locale == "en" then english else arabic
  }

  /**
   * Once mounted with a direction that matches the locale, the English text
   * is chosen exactly when the page reads left to right.
   */
  lemma TranslateFollowsDirection(st: LocaleState, arabic: string, english: string)
    requires st.mounted && DirectionMatches(st)
    ensures Translate(st, arabic, english) == (if st.direction == Ltr then english else arabic)
  {
  }

  /** After choosing a language, `translate` picks that language's text. */
  lemma TranslateAfterSetLocale(st: LocaleState, lang: Lang, arabic: string, english: string)
    requires st.mounted
    ensures Translate(SetLocale(st, lang), arabic, english) == (if lang == En then english else arabic)
  {
  }

  /** A record with a name, an optional description, their English variants, and other fields. */
  datatype Translatable<R> = Translatable(
    name: string,
    nameEn: Option<string>,
    description: Option<string>,
    descriptionEn: Option<string>,
    rest: R)

  /**
   * `translateData`: before mount the record comes back as it is. After
   * mount, in English the name becomes the English name when that is
   * non-empty, the description becomes the English description when both are
   * non-empty, and in any other locale both stay; the English variants are
   * dropped from the result either way.
   */
  function TranslateData<R>(st: LocaleState, item: Translatable<R>): (r: Translatable<R>)
    ensures r.rest == item.rest
    ensures !st.mounted ==> r == item
    ensures st.mounted ==> r.nameEn.None? && r.descriptionEn.None?
    ensures st.mounted && st.locale == "en" ==>
      && r.name == (if Text.Truthy(item.nameEn) then item.nameEn.value else item.name)
      && r.description == (if Text.Truthy(item.description) && Text.Truthy(item.descriptionEn)
                           then item.descriptionEn else item.description)
    ensures st.mounted && st.locale != "en" ==> r.name == item.name && r.description == item.description
  {
    if !st.mounted then item
    else
      var english := st.locale == "en";
      var name := if english then Text.OrElse(item.nameEn, item.name) else item.name;
      var description :=
        if english && Text.Truthy(item.description) && Text.Truthy(item.descriptionEn)
        then item.descriptionEn else item.description;
      Translatable(name, None, description, None, item.rest)
  }

  /** Translating an already translated record changes nothing. */
  lemma TranslateDataIdempotent<R>(st: LocaleState, item: Translatable<R>)
    ensures TranslateData(st, TranslateData(st, item)) == TranslateData(st, item)
  {
  }
}
