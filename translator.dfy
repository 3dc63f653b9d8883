/**
 * The translator object: the loaded catalog with its languages in load
 * order, the fixed fallback language "en", and the one mutable field, the
 * current language.
 */
module Localization {
  import opened Wrappers
  import opened Text
  import opened TranslationTree
  import opened LanguageDetection

  /** `order` lists every language of `catalog` exactly once: the key order of the loaded dictionary. */
  ghost predicate LoadOrder(catalog: map<string, Json>, order: seq<string>) {
    && (forall i :: 0 <= i < |order| ==> order[i] in catalog)
    && (forall code :: code in catalog ==> code in order)
    && (forall i, j :: 0 <= i < j < |order| ==> order[i] != order[j])
  }

  class Translator {
    /** The document loaded for each language code. */
    const translations: map<string, Json>
    /** The language codes in the order they were loaded. */
    const loadOrder: seq<string>
    /** The language consulted when the current one gives back the key. */
    const fallbackLanguage: string
    /** The language translations are looked up in first. */
    var currentLanguage: string

    ghost predicate Valid()
      reads this
    {
      fallbackLanguage == "en" && LoadOrder(translations, loadOrder)
    }

    /**
     * Start from the detected language and the given catalog. The detected
     * language need not have been loaded: detection does not look at the
     * catalog.
     */
    constructor (catalog: map<string, Json>, order: seq<string>, host: Host)
      requires LoadOrder(catalog, order)
      ensures Valid()
      ensures translations == catalog && loadOrder == order
      ensures currentLanguage == DetectSystemLanguage(host)
    {
      translations := catalog;
      loadOrder := order;
      currentLanguage := DetectSystemLanguage(host);
      fallbackLanguage := "en";
    }

    /** `_get_translation`: walk the segments of `key` in the document of `langCode`. */
    method GetTranslation(langCode: string, key: string) returns (value: Json)
      ensures value == Lookup(translations, langCode, key).GetOr(JString(key))
    {
      var keys := Split(key, '.');
      value := Root(translations, langCode);
      var i := 0;
      while i < |keys|
        invariant 0 <= i <= |keys|
        invariant Walk(value, keys[i..], key) == Resolve(translations, langCode, key)
      {
        if value.JObject? {
          value := Member(value.members, keys[i]).GetOr(JString(key));
        } else {
          ResolveIsLookupOrKey(translations, langCode, key);
          return JString(key);
        }
        i := i + 1;
      }
      ResolveIsLookupOrKey(translations, langCode, key);
    }

    /** `get`: the current language first, then the fallback; formatting failures give the key. */
    method Get(key: string, kwargs: Kwargs, format: Formatter) returns (result: Json)
      ensures result == Translate(translations, currentLanguage, fallbackLanguage, key, kwargs, format)
    {
      result := GetTranslation(currentLanguage, key);
      ResolveIsLookupOrKey(translations, currentLanguage, key);
      if result == JString(key) && currentLanguage != fallbackLanguage {
        result := GetTranslation(fallbackLanguage, key);
        ResolveIsLookupOrKey(translations, fallbackLanguage, key);
      }
      if |kwargs| > 0 {
        if result.JString? {
          var formatted := format(result.text, kwargs);
          result := if formatted.Some? then JString(formatted.value) else JString(key);
        } else {
          result := JString(key);
        }
      }
    }

    /** `set_language`: switch only to a loaded language. */
    method SetLanguage(langCode: string) returns (switched: bool)
      requires Valid()
      modifies this
      ensures Valid()
      ensures switched <==> langCode in translations
      ensures currentLanguage == if switched then langCode else old(currentLanguage)
    {
      if langCode in translations {
        currentLanguage := langCode;
        return true;
      }
      return false;
    }

    /** `get_available_languages`: the loaded codes, each once, in load order. */
    method GetAvailableLanguages() returns (codes: seq<string>)
      requires Valid()
      ensures forall code :: code in codes <==> code in translations
      ensures forall i, j :: 0 <= i < j < |codes| ==> codes[i] != codes[j]
      ensures codes == loadOrder
    {
      codes := loadOrder;
    }
  }
}
