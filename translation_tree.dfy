/**
 * A language's catalog is the JSON document loaded for it. Keys such as
 * "menu.exit" are split on "." and walked one segment at a time; what the
 * walk ends on is the translation, and the key itself stands in for anything
 * that is not found. On top of the walk sits the fallback rule: the fixed
 * fallback language is consulted when the current language gives back the key.
 */
module TranslationTree {
  import opened Wrappers
  import opened Text

  /**
   * A JSON value. Objects keep their members in document order; when a name
   * occurs twice the later member wins, as in a parsed JSON object. Numbers,
   * booleans, null and arrays are never walked into or formatted, so they are
   * kept as their JSON text.
   */
  datatype Json =
    | JString(text: string)
    | JObject(members: seq<(string, Json)>)
    | JOther(literal: string)

  /** Keyword arguments passed to the translator, by name. */
  type Kwargs = map<string, string>

  /**
   * Named-placeholder substitution, `template.format(**kwargs)`: Some(text)
   * on success, None when formatting raises.
   */
  type Formatter = (string, Kwargs) -> Option<string>

  /** The value of member `name`, the last one when the name is repeated. */
  function Member(members: seq<(string, Json)>, name: string): (r: Option<Json>)
    ensures r.None? <==> forall i :: 0 <= i < |members| ==> members[i].0 != name
    ensures r.Some? ==> exists i :: 0 <= i < |members| && members[i] == (name, r.value) &&
                          forall j :: i < j < |members| ==> members[j].0 != name
  {
    if members == [] then None
    else
      var last := members[|members| - 1];
      if last.0 == name then Some(last.1) else Member(members[..|members| - 1], name)
  }

  /**
   * The walk exactly as the translator performs it: at an object, step to the
   * member or, when it is missing, to the key itself; at anything else with
   * segments left, give up with the key. Whatever is reached when the
   * segments run out is the answer.
   */
  function Walk(value: Json, path: seq<string>, key: string): (r: Json)
    ensures r == Descend(value, path).GetOr(JString(key))
    decreases |path|
  {
    if path == [] then value
    else if value.JObject? then
      Walk(Member(value.members, path[0]).GetOr(JString(key)), path[1..], key)
    else JString(key)
  }

  /** The node `path` leads to, None when some step is missing or not an object. */
  function Descend(node: Json, path: seq<string>): Option<Json>
    decreases |path|
  {
    if path == [] then Some(node)
    else match node
      case JObject(members) =>
        (match Member(members, path[0])
         case Some(child) => Descend(child, path[1..])
         case None => None)
      case _ => None
  }

  /** The document of `lang`, or an empty object when the language was not loaded. */
  function Root(catalog: map<string, Json>, lang: string): Json {
    if lang in catalog then catalog[lang] else JObject([])
  }

  /** What `key` resolves to in one language, before any fallback. */
  function Resolve(catalog: map<string, Json>, lang: string, key: string): Json {
    Walk(Root(catalog, lang), Split(key, '.'), key)
  }

  /** The path a key addresses, within the document of `lang`. */
  function Lookup(catalog: map<string, Json>, lang: string, key: string): Option<Json> {
    Descend(Root(catalog, lang), Split(key, '.'))
  }

  /** Resolving a key gives the node it addresses, and the key itself when it addresses none. */
  lemma ResolveIsLookupOrKey(catalog: map<string, Json>, lang: string, key: string)
    ensures Resolve(catalog, lang, key) == Lookup(catalog, lang, key).GetOr(JString(key))
  {
  }

  /** A language with no document knows no key. */
  lemma UnknownLanguageResolvesToKey(catalog: map<string, Json>, lang: string, key: string)
    requires lang !in catalog
    ensures Lookup(catalog, lang, key) == None
    ensures Resolve(catalog, lang, key) == JString(key)
  {
    ResolveIsLookupOrKey(catalog, lang, key);
  }

  /** Applying keyword arguments: only a string can be formatted, and any failure gives the key. */
  function ApplyFormat(value: Json, key: string, kwargs: Kwargs, format: Formatter): (r: Json)
    ensures r.JString?
    ensures r != JString(key) ==> value.JString? && format(value.text, kwargs) == Some(r.text)
  {
    match value
    case JString(template) =>
      (match format(template, kwargs)
       case Some(text) => JString(text)
       case None => JString(key))
    case _ => JString(key)
  }

  /**
   * `Translator.get`: resolve in the current language; when that gives back
   * the key and the current language is not the fallback, resolve in the
   * fallback instead; format only when keyword arguments were given.
   */
  function Translate(catalog: map<string, Json>, current: string, fallback: string,
                     key: string, kwargs: Kwargs, format: Formatter): (r: Json)
    ensures |kwargs| == 0 ==>
      r == Resolve(catalog, current, key) || r == Resolve(catalog, fallback, key)
    ensures |kwargs| == 0 && r != Resolve(catalog, current, key) ==>
      Resolve(catalog, current, key) == JString(key) && current != fallback
    ensures |kwargs| > 0 ==> r.JString?
  {
    var primary := Resolve(catalog, current, key);
    var result := if primary == JString(key) && current != fallback
                  then Resolve(catalog, fallback, key) else primary;
    if |kwargs| == 0 then result else ApplyFormat(result, key, kwargs, format)
  }

  /** A leaf found in the current language is the answer when it differs from the key. */
  lemma TranslateFindsLeaf(catalog: map<string, Json>, current: string, fallback: string,
                           key: string, format: Formatter, text: string)
    requires Lookup(catalog, current, key) == Some(JString(text))
    requires text != key
    ensures Translate(catalog, current, fallback, key, map[], format) == JString(text)
  {
    ResolveIsLookupOrKey(catalog, current, key);
  }

  /** A key missing from the current language is resolved in the fallback language. */
  lemma TranslateFallsBack(catalog: map<string, Json>, current: string, fallback: string,
                           key: string, format: Formatter)
    requires Lookup(catalog, current, key) == None
    requires current != fallback
    ensures Translate(catalog, current, fallback, key, map[], format) == Resolve(catalog, fallback, key)
  {
    ResolveIsLookupOrKey(catalog, current, key);
  }

  /** A key neither language knows comes back verbatim, whatever the current language. */
  lemma TranslateMissingEverywhere(catalog: map<string, Json>, current: string, fallback: string,
                                   key: string, format: Formatter)
    requires Lookup(catalog, current, key) == None
    requires Lookup(catalog, fallback, key) == None
    ensures Translate(catalog, current, fallback, key, map[], format) == JString(key)
  {
    ResolveIsLookupOrKey(catalog, current, key);
    ResolveIsLookupOrKey(catalog, fallback, key);
  }

  /** A key that ends on a subtree gives the subtree, and the fallback is not consulted. */
  lemma TranslateReturnsSubtree(catalog: map<string, Json>, current: string, fallback: string,
                                key: string, format: Formatter, members: seq<(string, Json)>)
    requires Lookup(catalog, current, key) == Some(JObject(members))
    ensures Translate(catalog, current, fallback, key, map[], format) == JObject(members)
  {
    ResolveIsLookupOrKey(catalog, current, key);
  }

  /**
   * The fallback test compares the text with the key, not "was it found": a
   * leaf whose text equals its own key is replaced by the fallback's answer.
   */
  lemma TranslateLeafEqualToKeyFallsBack(catalog: map<string, Json>, current: string, fallback: string,
                                         key: string, format: Formatter)
    requires Lookup(catalog, current, key) == Some(JString(key))
    requires current != fallback
    ensures Translate(catalog, current, fallback, key, map[], format) == Resolve(catalog, fallback, key)
  {
    ResolveIsLookupOrKey(catalog, current, key);
  }

  /** A current language that was never loaded behaves exactly like the fallback language. */
  lemma UnloadedLanguageActsAsFallback(catalog: map<string, Json>, current: string, fallback: string,
                                       key: string, kwargs: Kwargs, format: Formatter)
    requires current !in catalog
    ensures Translate(catalog, current, fallback, key, kwargs, format) ==
            Translate(catalog, fallback, fallback, key, kwargs, format)
  {
    UnknownLanguageResolvesToKey(catalog, current, key);
  }

  /**
   * With keyword arguments the answer is the formatted answer without them:
   * a formatting failure, or a non-string answer, gives the key.
   */
  lemma TranslateWithArguments(catalog: map<string, Json>, current: string, fallback: string,
                               key: string, kwargs: Kwargs, format: Formatter)
    requires |kwargs| > 0
    ensures var plain := Translate(catalog, current, fallback, key, map[], format);
            Translate(catalog, current, fallback, key, kwargs, format) ==
              if plain.JString? && format(plain.text, kwargs).Some?
              then JString(format(plain.text, kwargs).value) else JString(key)
  {
  }

  /** `format` leaves text without placeholders as it is, as `str.format` does. */
  ghost predicate KeepsPlainText(format: Formatter) {
    forall template, kwargs :: '{' !in template && '}' !in template ==> format(template, kwargs) == Some(template)
  }

  /**
   * A `fallback=` keyword argument is only a formatting argument: for a key
   * neither language knows, the answer is the key, never the fallback text.
   */
  lemma FallbackArgumentIsNoDefault(catalog: map<string, Json>, current: string, fallback: string,
                                    key: string, kwargs: Kwargs, format: Formatter)
    requires KeepsPlainText(format)
    requires '{' !in key && '}' !in key
    requires "fallback" in kwargs
    requires Lookup(catalog, current, key) == None
    requires Lookup(catalog, fallback, key) == None
    ensures Translate(catalog, current, fallback, key, kwargs, format) == JString(key)
  {
    TranslateMissingEverywhere(catalog, current, fallback, key, format);
    TranslateWithArguments(catalog, current, fallback, key, kwargs, format);
  }

  /** The catalog {"en": {"menu": {"exit": "Exit"}}, "fr": {}}. */
  function ExampleCatalog(): map<string, Json> {
    map["en" := JObject([("menu", JObject([("exit", JString("Exit"))]))]),
        "fr" := JObject([])]
  }

  /** With French current and English fallback, "menu.exit" falls back to "Exit". */
  lemma FallbackExample(format: Formatter)
    ensures Translate(ExampleCatalog(), "fr", "en", "menu.exit", map[], format) == JString("Exit")
  {
    var key := "menu.exit";
    assert key == Join(["menu", "exit"], '.');
    SplitJoin(["menu", "exit"], '.');
    assert Split(key, '.') == ["menu", "exit"];
    ResolveIsLookupOrKey(ExampleCatalog(), "fr", key);
    ResolveIsLookupOrKey(ExampleCatalog(), "en", key);
  }
}
