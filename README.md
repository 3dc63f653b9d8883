# Localisation and menu layout of a console front-end, in Dafny

This project models the core of `main.py`, the console front-end of a tool
that dispatches numbered menu choices to feature handlers. The core has five parts.

- **Language detection.** The translator's starting language comes from the
  host. On Unix-like hosts it comes from the default locale, matched by ordered
  prefixes, and then from fragments of the `LANG` variable. On Windows it comes
  from the keyboard-layout identifier, looked up in a seven-entry table. The
  answer is always one of eleven codes, and `"en"` is the default.
- **Translation lookup.** A dotted key such as `menu.exit` is split on `.` and
  walked through the JSON document of a language. The fixed fallback language
  `"en"` is consulted when the current language gives back the key. Keyword
  arguments are then applied by `str.format`.
- **The translator object.** It holds the catalog, the language codes in load
  order and the fallback language. Its one mutable field is the current
  language, which `set_language` switches only to a loaded language.
- **Display width.** ANSI escape sequences are removed. Every remaining code
  point above 127 counts two columns and every other one counts one.
- **The two-column main menu, and the language picker.** The menu's labels
  are keyed 0 to N-1, so sorting the keys gives index order; the model takes
  the labels as a sequence in that order. The menu puts
  `ceil(N/2)` labels on the left. Every right label starts four columns past
  the widest left label. The picker accepts a typed index below the number of
  languages.

Files:
- `wrappers.dfy`: the Option type.
- `text.dfy`: splitting and joining keys, ASCII lower-casing, prefix and
  substring tests, and decimal numerals.
- `language_detection.dfy`: detection.
- `translation_tree.dfy`: the JSON tree, the walk, and `get`'s fallback and
  formatting rule as functions, with lemmas about them.
- `translator.dfy`: the `Translator` class. Its methods are proved against those functions.
- `terminal_width.dfy`: the escape-sequence matcher, stripping and width.
- `menu_layout.dfy`: the menu rows.
- `language_selector.dfy`: the picker.

Three behaviours of the code differ from what a reader of the translator's
purpose might expect. The model keeps the code's behaviour in each case:
- A key that ends on a subtree gives back the subtree itself, not the key.
- A formatting failure gives back the key, not the unformatted text.
- The current language need not be a loaded language. Detection runs without
  looking at the catalog, so `currentLanguage` can name a language with no
  document. Such a language behaves exactly like the fallback language
  (`UnloadedLanguageActsAsFallback`).

The fallback test compares the text with the key. It does not ask whether the
key was found. So a leaf whose text equals its own key is replaced by the
fallback's answer (`TranslateLeafEqualToKeyFallsBack`).

## Model

| member | source | states |
|---|---|---|
| `Text.Split` | main.py:255 | there is always at least one piece, and no piece contains the separator |
| `Text.ToLower` | main.py:157-183 | the lowered text has the same length, and each character is mapped by the ASCII lower-case rule |
| `Text.DecimalValue` | main.py:419 | a numeral of k digits reads as a number below 10^k, and as at least 10^(k-1) when its first digit is not 0 |
| `Text.JoinSplit` | main.py:255 | splitting a key on "." loses nothing: joining the pieces with "." gives the key back |
| `Text.SplitJoin` | main.py:255 | segments without "." joined with "." split back into exactly those segments |
| `Text.ContainsAt` | main.py:184-202 | the substring test holds exactly when some position of the string starts an occurrence |
| `Text.DecimalRoundTrip` | main.py:413 | the decimal numeral printed for an index reads back as that index |
| `Text.CanonicalNumeralRoundTrip` | main.py:413-419 | a digit string without a leading zero is exactly the numeral printed for the number it reads as |
| `LanguageDetection.DetectUnixLanguage` | main.py:149-207 | the answer is always one of the eleven codes; a missing or empty locale gives "en" whatever LANG holds |
| `LanguageDetection.UnixDetectionIsTableDriven` | main.py:157-205 | the Unix rule is a first-match search over the ordered locale prefixes (zh_tw/zh_hk before zh_cn before en, vi, nl, de, fr, pt, ru, tr, bg), then over the LANG fragments, then "en" |
| `LanguageDetection.DetectWindowsLanguage` | main.py:121-147 | always one of the eleven codes; with a readable layout, the table's code for the low 16 bits of the handle, and "en" when that identifier is not in the table; an unreadable layout gives the Unix rule's answer |
| `LanguageDetection.WindowsLayoutLow16Bits` | main.py:132 | only the low 16 bits of the layout handle decide the language |
| `LanguageDetection.DetectSystemLanguage` | main.py:105-119 | always one of the eleven codes; off Windows it is the Unix rule, on Windows the Windows rule |
| `LanguageDetection.HongKongLocaleExample` | main.py:160-161 | locale zh_HK selects zh_tw |
| `LanguageDetection.LocaleBeforeLangExample` | main.py:164-171 | a matching locale (de_AT) wins over LANG (fr_FR.UTF-8) |
| `LanguageDetection.LangFragmentExample` | main.py:182-191 | an unmatched locale (fy_NL) falls back to the LANG fragment "nl" |
| `LanguageDetection.WindowsLayoutExample` | main.py:132-145 | handle 0x08040804 carries identifier 0x0804 and selects zh_cn |
| `TranslationTree.Member` | main.py:259 | absent exactly when no member has the name; otherwise the value of the last member with that name |
| `TranslationTree.Walk` | main.py:257-262 | the segment-by-segment walk gives the node the path leads to, and the key exactly when a segment is missing or a non-object is met with segments left |
| `TranslationTree.ResolveIsLookupOrKey` | main.py:252-264 | resolving a key in one language gives the node it addresses (leaf, subtree or other value), or the key when it addresses none |
| `TranslationTree.UnknownLanguageResolvesToKey` | main.py:256 | a language with no document resolves every key to the key itself |
| `TranslationTree.ApplyFormat` | main.py:248-250 | formatting always gives a string; any answer other than the key is the formatter's successful output on a string template |
| `TranslationTree.Translate` | main.py:240-250 | without kwargs the answer is the current language's resolution or the fallback's, and the fallback's only when the current one gave the key and is not the fallback language; with kwargs the answer is always a string |
| `TranslationTree.TranslateFindsLeaf` | main.py:243-248 | a leaf found in the current language, with text other than the key, is the answer without kwargs |
| `TranslationTree.TranslateFallsBack` | main.py:243-247 | a key missing from the current language, when that is not the fallback, is resolved in the fallback language |
| `TranslationTree.TranslateMissingEverywhere` | main.py:243-248 | a key neither language knows comes back verbatim, for every current language |
| `TranslationTree.TranslateReturnsSubtree` | main.py:245-248 | a key ending on a subtree gives the subtree, and the fallback is not consulted |
| `TranslationTree.TranslateLeafEqualToKeyFallsBack` | main.py:245-247 | a leaf whose text equals the key is replaced by the fallback language's answer |
| `TranslationTree.UnloadedLanguageActsAsFallback` | main.py:101-103 | a current language with no document gives, for every key and kwargs, what the fallback language gives |
| `TranslationTree.TranslateWithArguments` | main.py:248-250 | with kwargs the answer is the formatted answer without them; a formatting failure or a non-string answer gives the key |
| `TranslationTree.FallbackArgumentIsNoDefault` | main.py:325-328 | a `fallback=` kwarg is only a format argument: a key neither language knows gives the key, not the fallback text |
| `TranslationTree.FallbackExample` | main.py:240-250 | catalog {"en": {"menu": {"exit": "Exit"}}, "fr": {}} with French current: "menu.exit" gives "Exit" |
| `Localization.Translator.constructor` | main.py:99-103 | the catalog and load order are taken as given, the fallback is "en", and the current language is the detected one, loaded or not |
| `Localization.Translator.GetTranslation` | main.py:252-264 | the loop over segments gives the node the key addresses in that language, or the key |
| `Localization.Translator.Get` | main.py:240-250 | the answer is the fallback-and-format rule applied to the current catalog and language |
| `Localization.Translator.SetLanguage` | main.py:266-271 | returns true and switches exactly when the code is loaded; otherwise nothing changes |
| `Localization.Translator.GetAvailableLanguages` | main.py:273-275 | exactly the loaded codes, each once, in load order |
| `TerminalWidth.EscapeAt` | main.py:343 | a match starts only at ESC, is at least two characters long and stays inside the text |
| `TerminalWidth.EscapeAtFindsSequence` | main.py:343 | what the matcher removes at a position is one full match of the escape pattern |
| `TerminalWidth.EscapeAtIsTheSequence` | main.py:343 | an escape sequence at a position is exactly what the matcher removes there (matches are unique) |
| `TerminalWidth.StripAnsi` | main.py:348 | stripping never lengthens the text |
| `TerminalWidth.StripAnsiWithoutEsc` | main.py:348 | text without ESC is left as it is |
| `TerminalWidth.StripAnsiLeadingSequence` | main.py:348 | an escape sequence in front of text is removed and the text is stripped as if alone |
| `TerminalWidth.Columns` | main.py:349-355 | the column count lies between the length and twice the length |
| `TerminalWidth.ColumnsAppend` | main.py:349-355 | column counts add up over concatenation |
| `TerminalWidth.ColumnsOfAscii` | main.py:352-355 | code points up to 127 take one column each |
| `TerminalWidth.DisplayWidthOf` | main.py:345-356 | the width lies between the stripped length and twice it, so never above twice the label's length |
| `TerminalWidth.DisplayWidthOfPlainAscii` | main.py:345-356 | ASCII text without ESC is as wide as it is long |
| `TerminalWidth.EscapeSequenceIsInvisible` | main.py:343-348 | an escape sequence adds no width in front of any text |
| `TerminalWidth.KeptCharColumns` | main.py:348-355 | a character that starts no escape sequence is kept and adds its own columns to the rest |
| `TerminalWidth.UnmatchedEscCountsOne` | main.py:343-355 | an ESC that begins no match of the pattern counts one column, in front of any text |
| `TerminalWidth.WideCharCountsTwo` | main.py:352-353 | a code point above 127 counts two columns, in front of any text |
| `TerminalWidth.EscapeAtAppendSpaces` | main.py:343 | appended spaces never complete an escape sequence |
| `TerminalWidth.StripAnsiAppendSpaces` | main.py:348 | stripping commutes with appending spaces |
| `TerminalWidth.DisplayWidthAppendSpaces` | main.py:373 | n appended spaces widen a label by exactly n columns |
| `TerminalWidth.DisplayWidth` | main.py:345-356 | the loop's sum is the width of the stripped label |
| `TerminalWidth.DisplayWidthExamples` | main.py:343-356 | width("abc") = 3, a CJK character is 2, the colour code ESC "[32m" is 0, a lone ESC is 1 |
| `MenuLayout.LeftCount` | main.py:332-340 | the left column has 0 or 1 more label than the right one |
| `MenuLayout.Pad` | main.py:371-394 | a padded left label keeps the label in front and ends exactly at the given display column |
| `MenuLayout.MaxDisplayWidth` | main.py:358-361 | the widest left label's width: an upper bound that some label reaches, 0 for none |
| `MenuLayout.SpacesBeforeRight` | main.py:367-374 | each left label's width plus its spaces is the right column's start |
| `MenuLayout.PrintRows` | main.py:376-396 | one row per left label; a row with a right label is the left label, its spaces and the right label, and otherwise the left label alone |
| `MenuLayout.LayoutMenu` | main.py:331-396 | ceil(N/2) rows; row i is label i, padded to the widest left label plus 4 and followed by label ceil(N/2)+i when it exists; no row lacks a left label |
| `LanguageSelector.ParseChoice` | main.py:419 | a choice is accepted exactly when it is all digits and its value is below the number of languages, and then it is that value |
| `LanguageSelector.ListedIndexIsAccepted` | main.py:411-420 | every listed index, typed as printed, is accepted as itself |
| `LanguageSelector.IndexPastListIsRefused` | main.py:419-426 | every index from the number of languages on, typed as printed, is refused |
| `LanguageSelector.LeadingZeroIgnored` | main.py:419 | a leading zero does not change the value chosen |
| `LanguageSelector.NonNumericInputIsRefused` | main.py:419-426 | empty input and "abc" are refused |
| `LanguageSelector.SelectLanguage` | main.py:403-431 | switches to the language at the typed index exactly when the choice is accepted, and that language is loaded; otherwise the language is unchanged |

## Left out

- Loading the catalog (main.py:209-238) reads a directory and parses JSON files. The catalog and its load order are inputs to the constructor instead.
- Host queries are parameters of a `Host` value: `platform.system`, `locale.getdefaultlocale`, `os.getenv("LANG")` and the `user32` keyboard-layout calls. A query that fails is modelled as "no value" (`None`). The `except` clauses around them only ever lead to that value.
- Python's `str.lower` and `str.isdigit` are modelled for ASCII only. Unicode case mappings are not captured. Neither are non-ASCII digits that `isdigit` accepts, some of which `int` also reads.
- `str.format` is a parameter, a `Formatter` that either succeeds with a text or fails. Its placeholder syntax is not modelled.
- JSON numbers, booleans, null and arrays are kept as their text (`JOther`). The translator never walks into them or formats them.
- `is_admin` and `run_as_admin` (main.py:58-95) are left out. They are privilege elevation through foreign calls.
- The `main` dispatch loop, `check_latest_version` and the configuration write (main.py:434-594) are left out. They call feature modules that are not part of this model.
- Parts of `print_menu` are left out: the account-information block, the unused terminal-size probe, the title, the 70- or 110-column rule lines chosen by language, and the colour and emoji constants. The labels themselves come from `translator.get`; here they are given text. The rows are returned as strings rather than printed.
- In `select_language`, the printed list of language names, the prompt and the invalid-choice message are output only and are left out. The typed line is a parameter.
- The translator is an explicit object instead of the module-level instance.
- Python strings may hold lone surrogate code points, which Dafny's `char` excludes.
