/**
 * The language picker: the operator types the index of one of the loaded
 * languages; a valid index switches the translator to that language, and any
 * other input leaves it as it was.
 */
module LanguageSelector {
  import opened Wrappers
  import opened Text
  import opened Localization

  /**
   * The index typed at the prompt: accepted exactly when the line is all
   * digits and its decimal value is below `count`, and then it is that value.
   */
  function ParseChoice(choice: string, count: nat): (index: Option<nat>)
    ensures index.Some? <==> IsDigits(choice) && DecimalValue(choice) < count
    ensures index.Some? ==> index.value == DecimalValue(choice) && index.value < count
  {
    if IsDigits(choice) && DecimalValue(choice) < count then Some(DecimalValue(choice)) else None
  }

  /** Every index the picker lists, typed as it is printed, is accepted as itself. */
  lemma ListedIndexIsAccepted(k: nat, count: nat)
    requires k < count
    ensures ParseChoice(DecimalString(k), count) == Some(k)
  {
    DecimalRoundTrip(k);
  }

  /** Every index from the length of the list on, typed as printed, is refused. */
  lemma IndexPastListIsRefused(k: nat, count: nat)
    requires count <= k
    ensures ParseChoice(DecimalString(k), count) == None
  {
    DecimalRoundTrip(k);
  }

  /** A leading zero does not change the choice. */
  lemma {:induction false} LeadingZeroIgnored(s: string)
    requires forall i :: 0 <= i < |s| ==> IsAsciiDigit(s[i])
    ensures DecimalValue("0" + s) == DecimalValue(s)
    decreases |s|
  {
    if s != [] {
      LeadingZeroIgnored(s[..|s| - 1]);
      assert ("0" + s)[..|"0" + s| - 1] == "0" + s[..|s| - 1];
    }
  }

  /** Empty input and letters are refused, whatever the number of languages. */
  lemma NonNumericInputIsRefused(count: nat)
    ensures ParseChoice("", count) == None
    ensures ParseChoice("abc", count) == None
  {
  }

  /**
   * `select_language` with the typed line `choice`: a valid index switches
   * to that language, which is always loaded; anything else changes nothing.
   */
  method SelectLanguage(translator: Translator, choice: string) returns (switched: bool)
    requires translator.Valid()
    modifies translator
    ensures translator.Valid()
    ensures switched <==> ParseChoice(choice, |translator.loadOrder|).Some?
    ensures switched ==>
              translator.currentLanguage == translator.loadOrder[ParseChoice(choice, |translator.loadOrder|).value]
    ensures switched ==> translator.currentLanguage in translator.translations
    ensures !switched ==> translator.currentLanguage == old(translator.currentLanguage)
  {
    var languages := translator.GetAvailableLanguages();
    if IsDigits(choice) && DecimalValue(choice) < |languages| {
      var accepted := translator.SetLanguage(languages[DecimalValue(choice)]);
      assert accepted;
      return true;
    } else {
      return false;
    }
  }
}
