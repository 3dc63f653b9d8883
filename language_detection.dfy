/**
 * How the translator picks its starting language from the host: the locale
 * string and the LANG variable on Unix-like hosts, the keyboard layout on
 * Windows. Every answer the host can give, including none, leads to one of
 * eleven language codes; "en" is the default.
 */
module LanguageDetection {
  import opened Wrappers
  import opened Text

  /** Every code detection can answer with. */
  const SupportedCodes: set<string> :=
    {"en", "zh_tw", "zh_cn", "vi", "nl", "de", "fr", "pt", "ru", "tr", "bg"}

  /**
   * What the host reports. `locale` is the language part of the default
   * locale (None when it is unset or cannot be read); `langVariable` is the
   * LANG environment variable ("" when unset); `keyboardLayout` is the
   * layout handle of the foreground window's thread (None when the call fails).
   */
  datatype Host = Host(
    isWindows: bool,
    locale: Option<string>,
    langVariable: string,
    keyboardLayout: Option<int>)

  /** The Unix rule, in the order the checks are made. */
  function DetectUnixLanguage(locale: Option<string>, langVariable: string): (code: string)
    ensures code in SupportedCodes
    ensures locale == None || locale == Some("") ==> code == "en"
  {
    if locale == None || locale.value == "" then "en"
    else
      var loc := ToLower(locale.value);
      if StartsWith(loc, "zh_tw") || StartsWith(loc, "zh_hk") then "zh_tw"
      else if StartsWith(loc, "zh_cn") then "zh_cn"
      else if StartsWith(loc, "en") then "en"
      else if StartsWith(loc, "vi") then "vi"
      else if StartsWith(loc, "nl") then "nl"
      else if StartsWith(loc, "de") then "de"
      else if StartsWith(loc, "fr") then "fr"
      else if StartsWith(loc, "pt") then "pt"
      else if StartsWith(loc, "ru") then "ru"
      else if StartsWith(loc, "tr") then "tr"
      else if StartsWith(loc, "bg") then "bg"
      else
        var env := ToLower(langVariable);
        if Contains(env, "tw") || Contains(env, "hk") then "zh_tw"
        else if Contains(env, "cn") then "zh_cn"
        else if Contains(env, "vi") then "vi"
        else if Contains(env, "nl") then "nl"
        else if Contains(env, "de") then "de"
        else if Contains(env, "fr") then "fr"
        else if Contains(env, "pt") then "pt"
        else if Contains(env, "ru") then "ru"
        else if Contains(env, "tr") then "tr"
        else if Contains(env, "bg") then "bg"
        else "en"
  }

  /** Locale prefixes in the order they are tried, with the code each one selects. */
  const LocalePrefixes: seq<(string, string)> := [
    ("zh_tw", "zh_tw"), ("zh_hk", "zh_tw"), ("zh_cn", "zh_cn"), ("en", "en"),
    ("vi", "vi"), ("nl", "nl"), ("de", "de"), ("fr", "fr"), ("pt", "pt"),
    ("ru", "ru"), ("tr", "tr"), ("bg", "bg")]

  /** Fragments looked for in LANG, in the order they are tried. */
  const LangFragments: seq<(string, string)> := [
    ("tw", "zh_tw"), ("hk", "zh_tw"), ("cn", "zh_cn"), ("vi", "vi"),
    ("nl", "nl"), ("de", "de"), ("fr", "fr"), ("pt", "pt"), ("ru", "ru"),
    ("tr", "tr"), ("bg", "bg")]

  /** The code of the first entry whose pattern starts `s`. */
  function FirstPrefixMatch(s: string, table: seq<(string, string)>): (r: Option<string>)
    ensures r.Some? ==> exists i :: 0 <= i < |table| && table[i].1 == r.value && StartsWith(s, table[i].0)
    ensures r.None? ==> forall i :: 0 <= i < |table| ==> !StartsWith(s, table[i].0)
  {
    if table == [] then None
    else if StartsWith(s, table[0].0) then Some(table[0].1)
    else FirstPrefixMatch(s, table[1..])
  }

  /** The code of the first entry whose pattern occurs in `s`. */
  function FirstFragmentMatch(s: string, table: seq<(string, string)>): (r: Option<string>)
    ensures r.Some? ==> exists i :: 0 <= i < |table| && table[i].1 == r.value && Contains(s, table[i].0)
    ensures r.None? ==> forall i :: 0 <= i < |table| ==> !Contains(s, table[i].0)
  {
    if table == [] then None
    else if Contains(s, table[0].0) then Some(table[0].1)
    else FirstFragmentMatch(s, table[1..])
  }

  /**
   * The Unix rule is a first-match search over two ordered tables: the locale
   * prefixes first, then the LANG fragments, and "en" when neither matches.
   */
  lemma UnixDetectionIsTableDriven(locale: Option<string>, langVariable: string)
    ensures DetectUnixLanguage(locale, langVariable) ==
      if locale == None || locale.value == "" then "en"
      else FirstPrefixMatch(ToLower(locale.value), LocalePrefixes).GetOr(
             FirstFragmentMatch(ToLower(langVariable), LangFragments).GetOr("en"))
  {
    if locale != None && locale.value != "" {
      var loc := ToLower(locale.value);
      var env := ToLower(langVariable);
      PrefixTableSteps(loc);
      FragmentTableSteps(env);
    }
  }

  /** FirstPrefixMatch over LocalePrefixes, unrolled entry by entry. */
  lemma PrefixTableSteps(loc: string)
    ensures FirstPrefixMatch(loc, LocalePrefixes) ==
      if StartsWith(loc, "zh_tw") || StartsWith(loc, "zh_hk") then Some("zh_tw")
      else if StartsWith(loc, "zh_cn") then Some("zh_cn")
      else if StartsWith(loc, "en") then Some("en")
      else if StartsWith(loc, "vi") then Some("vi")
      else if StartsWith(loc, "nl") then Some("nl")
      else if StartsWith(loc, "de") then Some("de")
      else if StartsWith(loc, "fr") then Some("fr")
      else if StartsWith(loc, "pt") then Some("pt")
      else if StartsWith(loc, "ru") then Some("ru")
      else if StartsWith(loc, "tr") then Some("tr")
      else if StartsWith(loc, "bg") then Some("bg")
      else None
  {
    var t0 := LocalePrefixes;
    var t1 := t0[1..];
    var t2 := t1[1..];
    var t3 := t2[1..];
    var t4 := t3[1..];
    var t5 := t4[1..];
    var t6 := t5[1..];
    var t7 := t6[1..];
    var t8 := t7[1..];
    var t9 := t8[1..];
    var t10 := t9[1..];
    var t11 := t10[1..];
    var t12 := t11[1..];
    assert t12 == [];
    assert FirstPrefixMatch(loc, t12) == None;
    assert t11[0] == ("bg", "bg");
    assert FirstPrefixMatch(loc, t11) == if StartsWith(loc, "bg") then Some("bg") else FirstPrefixMatch(loc, t12);
    assert t10[0] == ("tr", "tr");
    assert FirstPrefixMatch(loc, t10) == if StartsWith(loc, "tr") then Some("tr") else FirstPrefixMatch(loc, t11);
    assert t9[0] == ("ru", "ru");
    assert FirstPrefixMatch(loc, t9) == if StartsWith(loc, "ru") then Some("ru") else FirstPrefixMatch(loc, t10);
    assert t8[0] == ("pt", "pt");
    assert FirstPrefixMatch(loc, t8) == if StartsWith(loc, "pt") then Some("pt") else FirstPrefixMatch(loc, t9);
    assert t7[0] == ("fr", "fr");
    assert FirstPrefixMatch(loc, t7) == if StartsWith(loc, "fr") then Some("fr") else FirstPrefixMatch(loc, t8);
    assert t6[0] == ("de", "de");
    assert FirstPrefixMatch(loc, t6) == if StartsWith(loc, "de") then Some("de") else FirstPrefixMatch(loc, t7);
    assert t5[0] == ("nl", "nl");
    assert FirstPrefixMatch(loc, t5) == if StartsWith(loc, "nl") then Some("nl") else FirstPrefixMatch(loc, t6);
    assert t4[0] == ("vi", "vi");
    assert FirstPrefixMatch(loc, t4) == if StartsWith(loc, "vi") then Some("vi") else FirstPrefixMatch(loc, t5);
    assert t3[0] == ("en", "en");
    assert FirstPrefixMatch(loc, t3) == if StartsWith(loc, "en") then Some("en") else FirstPrefixMatch(loc, t4);
    assert t2[0] == ("zh_cn", "zh_cn");
    assert FirstPrefixMatch(loc, t2) == if StartsWith(loc, "zh_cn") then Some("zh_cn") else FirstPrefixMatch(loc, t3);
    assert t1[0] == ("zh_hk", "zh_tw");
    assert FirstPrefixMatch(loc, t1) == if StartsWith(loc, "zh_hk") then Some("zh_tw") else FirstPrefixMatch(loc, t2);
    assert t0[0] == ("zh_tw", "zh_tw");
    assert FirstPrefixMatch(loc, t0) == if StartsWith(loc, "zh_tw") then Some("zh_tw") else FirstPrefixMatch(loc, t1);
  }

  /** FirstFragmentMatch over LangFragments, unrolled entry by entry. */
  lemma FragmentTableSteps(env: string)
    ensures FirstFragmentMatch(env, LangFragments) ==
      if Contains(env, "tw") || Contains(env, "hk") then Some("zh_tw")
      else if Contains(env, "cn") then Some("zh_cn")
      else if Contains(env, "vi") then Some("vi")
      else if Contains(env, "nl") then Some("nl")
      else if Contains(env, "de") then Some("de")
      else if Contains(env, "fr") then Some("fr")
      else if Contains(env, "pt") then Some("pt")
      else if Contains(env, "ru") then Some("ru")
      else if Contains(env, "tr") then Some("tr")
      else if Contains(env, "bg") then Some("bg")
      else None
  {
    var t0 := LangFragments;
    var t1 := t0[1..];
    var t2 := t1[1..];
    var t3 := t2[1..];
    var t4 := t3[1..];
    var t5 := t4[1..];
    var t6 := t5[1..];
    var t7 := t6[1..];
    var t8 := t7[1..];
    var t9 := t8[1..];
    var t10 := t9[1..];
    var t11 := t10[1..];
    assert t11 == [];
    assert FirstFragmentMatch(env, t11) == None;
    assert t10[0] == ("bg", "bg");
    assert FirstFragmentMatch(env, t10) == if Contains(env, "bg") then Some("bg") else FirstFragmentMatch(env, t11);
    assert t9[0] == ("tr", "tr");
    assert FirstFragmentMatch(env, t9) == if Contains(env, "tr") then Some("tr") else FirstFragmentMatch(env, t10);
    assert t8[0] == ("ru", "ru");
    assert FirstFragmentMatch(env, t8) == if Contains(env, "ru") then Some("ru") else FirstFragmentMatch(env, t9);
    assert t7[0] == ("pt", "pt");
    assert FirstFragmentMatch(env, t7) == if Contains(env, "pt") then Some("pt") else FirstFragmentMatch(env, t8);
    assert t6[0] == ("fr", "fr");
    assert FirstFragmentMatch(env, t6) == if Contains(env, "fr") then Some("fr") else FirstFragmentMatch(env, t7);
    assert t5[0] == ("de", "de");
    assert FirstFragmentMatch(env, t5) == if Contains(env, "de") then Some("de") else FirstFragmentMatch(env, t6);
    assert t4[0] == ("nl", "nl");
    assert FirstFragmentMatch(env, t4) == if Contains(env, "nl") then Some("nl") else FirstFragmentMatch(env, t5);
    assert t3[0] == ("vi", "vi");
    assert FirstFragmentMatch(env, t3) == if Contains(env, "vi") then Some("vi") else FirstFragmentMatch(env, t4);
    assert t2[0] == ("cn", "zh_cn");
    assert FirstFragmentMatch(env, t2) == if Contains(env, "cn") then Some("zh_cn") else FirstFragmentMatch(env, t3);
    assert t1[0] == ("hk", "zh_tw");
    assert FirstFragmentMatch(env, t1) == if Contains(env, "hk") then Some("zh_tw") else FirstFragmentMatch(env, t2);
    assert t0[0] == ("tw", "zh_tw");
    assert FirstFragmentMatch(env, t0) == if Contains(env, "tw") then Some("zh_tw") else FirstFragmentMatch(env, t1);
  }

  /** Keyboard-layout language identifiers and the code each one selects. */
  const WindowsLayouts: map<int, string> := map[
    0x0409 := "en", 0x0404 := "zh_tw", 0x0804 := "zh_cn", 0x0422 := "vi",
    0x0419 := "ru", 0x0415 := "tr", 0x0402 := "bg"]

  /**
   * The Windows rule: the low 16 bits of the layout handle looked up in the
   * table, "en" when absent; when the layout cannot be read, the Unix rule.
   * `% 0x10000` is Python's `& 0xFFFF`, negative handles included.
   */
  function DetectWindowsLanguage(host: Host): (code: string)
    ensures code in SupportedCodes
    ensures host.isWindows && host.keyboardLayout.Some? ==>
      code in WindowsLayouts.Values
    ensures host.isWindows && host.keyboardLayout.None? ==>
      code == DetectUnixLanguage(host.locale, host.langVariable)
    ensures (host.isWindows && host.keyboardLayout.Some? &&
             host.keyboardLayout.value % 0x10000 !in WindowsLayouts) ==> code == "en"
    ensures (host.isWindows && host.keyboardLayout.Some? &&
             host.keyboardLayout.value % 0x10000 in WindowsLayouts) ==>
              code == WindowsLayouts[host.keyboardLayout.value % 0x10000]
  {
    if !host.isWindows then "en"
    else match host.keyboardLayout
      case None => DetectUnixLanguage(host.locale, host.langVariable)
      case Some(layout) =>
        var languageId := layout % 0x10000;
        assert WindowsLayouts[0x0409] == "en";
        if languageId in WindowsLayouts then WindowsLayouts[languageId] else "en"
  }

  /** Only the language identifier (low 16 bits) of the layout handle matters. */
  lemma WindowsLayoutLow16Bits(host: Host, high: int)
    requires host.isWindows && host.keyboardLayout.Some?
    ensures DetectWindowsLanguage(host) ==
      DetectWindowsLanguage(host.(keyboardLayout := Some(host.keyboardLayout.value + high * 0x10000)))
  {
  }

  /** The language the translator starts in: by platform, never failing. */
  function DetectSystemLanguage(host: Host): (code: string)
    ensures code in SupportedCodes
    ensures !host.isWindows ==> code == DetectUnixLanguage(host.locale, host.langVariable)
    ensures host.isWindows ==> code == DetectWindowsLanguage(host)
  {
    if host.isWindows then DetectWindowsLanguage(host)
    else DetectUnixLanguage(host.locale, host.langVariable)
  }

  /** A Hong Kong locale selects Traditional Chinese. */
  lemma HongKongLocaleExample()
    ensures DetectUnixLanguage(Some("zh_HK"), "") == "zh_tw"
  {
  }

  /** The locale wins over LANG. */
  lemma LocaleBeforeLangExample()
    ensures DetectUnixLanguage(Some("de_AT"), "fr_FR.UTF-8") == "de"
  {
    var loc := ToLower("de_AT");
    assert loc == "de_at";
    assert loc[0] == 'd' && loc[1] == 'e';
    assert loc[..2] == "de";
  }

  /** A locale no prefix matches falls back to the fragments of LANG. */
  lemma LangFragmentExample()
    ensures DetectUnixLanguage(Some("fy_NL"), "fy_NL") == "nl"
  {
    var lowered := ToLower("fy_NL");
    assert lowered == "fy_nl";
    NoLocalePrefixInFyNl();
    FragmentNlInFyNl();
    UnixDetectionIsTableDriven(Some("fy_NL"), "fy_NL");
  }

  lemma NoLocalePrefixInFyNl()
    ensures FirstPrefixMatch("fy_nl", LocalePrefixes) == None
  {
    var s := "fy_nl";
    DiffersAt(s, "zh_tw", 0); DiffersAt(s, "zh_hk", 0); DiffersAt(s, "zh_cn", 0);
    DiffersAt(s, "en", 0); DiffersAt(s, "vi", 0); DiffersAt(s, "nl", 0);
    DiffersAt(s, "de", 0); DiffersAt(s, "fr", 1); DiffersAt(s, "pt", 0);
    DiffersAt(s, "ru", 0); DiffersAt(s, "tr", 0); DiffersAt(s, "bg", 0);
    PrefixTableSteps(s);
  }

  lemma FragmentNlInFyNl()
    ensures FirstFragmentMatch("fy_nl", LangFragments) == Some("nl")
  {
    var s := "fy_nl";
    FirstCharAbsent(s, "tw");
    FirstCharAbsent(s, "hk");
    FirstCharAbsent(s, "cn");
    FirstCharAbsent(s, "vi");
    assert StartsWith(s[3..], "nl");
    ContainsAt(s, "nl");
    FragmentTableSteps(s);
  }

  /** The handle 0x08040804 carries language identifier 0x0804, Simplified Chinese. */
  lemma WindowsLayoutExample()
    ensures DetectWindowsLanguage(Host(true, None, "", Some(0x0804_0804))) == "zh_cn"
  {
  }
}
