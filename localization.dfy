/**
 * LocalizationService (Calorizer.Business/Services/LocalizationService.cs): the table of
 * translation entries loaded from a JSON file, and lookups in it. Reading and parsing the
 * file is the abstract LoadOutcome of a load.
 */
module Localization {

  /** A translation: the English and the Arabic text. */
  datatype LocalizationEntry = LocalizationEntry(valueEn: string, valueAr: string)

  /** What a load attempt met. */
  datatype LoadOutcome =
    | FileMissing                                      // File.Exists is false
    | Parsed(table: map<string, LocalizationEntry>)   // the JSON deserialized to a dictionary
    | ParsedNull                                       // the JSON deserialized to null
    | Failed                                           // reading, parsing or logging threw

  /**
   * `char.ToLower` on the ASCII upper-case letters; every other character is kept. Of the
   * non-ASCII characters .NET lower-cases to an ASCII letter (U+0130 to 'i', U+212A to 'k'),
   * none yields 'a' or 'r', the only letters IsArabic compares with.
   */
  function LowerChar(c: char): char
  {
    if 'A' <= c <= 'Z' then (c as int + 32) as char else c
  }

  function Lower(s: string): (r: string)
    ensures |r| == |s|
  {
    seq(|s|, i requires 0 <= i < |s| => LowerChar(s[i]))
  }

  /** `language.ToLower() == "ar"`. */
  predicate IsArabic(language: string)
  {
    Lower(language) == "ar"
  }

  /** The languages that select Arabic are exactly "ar" in any letter case. */
  lemma ArabicLanguages(language: string)
    ensures IsArabic(language) <==>
      |language| == 2 && (language[0] == 'a' || language[0] == 'A') && (language[1] == 'r' || language[1] == 'R')
  {
    if |language| == 2 {
      assert Lower(language) == [LowerChar(language[0]), LowerChar(language[1])];
    } else {
      assert |Lower(language)| != 2;
    }
  }

  /** The `switch` on the lower-cased language: Arabic for "ar", English for "en" and anything else. */
  function Select(entry: LocalizationEntry, language: string): (v: string)
    ensures IsArabic(language) ==> v == entry.valueAr
    ensures !IsArabic(language) ==> v == entry.valueEn
  {
    if IsArabic(language) then entry.valueAr else entry.valueEn
  }

  /**
   * The table after a load from `previous`: a parsed dictionary replaces it, a missing file
   * or a null parse keep it, an exception empties it.
   */
  function Loaded(previous: map<string, LocalizationEntry>, outcome: LoadOutcome): (t: map<string, LocalizationEntry>)
    ensures outcome.Parsed? ==> t == outcome.table
    ensures outcome == FileMissing || outcome == ParsedNull ==> t == previous
    ensures outcome == Failed ==> t == map[]
  {
    match outcome
    case Parsed(table) => table
    case FileMissing => previous
    case ParsedNull => previous
    case Failed => map[]
  }

  class LocalizationService {
    var translations: map<string, LocalizationEntry>

    /** The constructor starts from an empty table and loads once. */
    constructor (outcome: LoadOutcome)
      ensures translations == Loaded(map[], outcome)
      ensures outcome.Parsed? ==> translations == outcome.table
      ensures !outcome.Parsed? ==> translations == map[]
    {
      translations := map[];
      new;
      LoadTranslations(outcome);
    }

    /** `LoadTranslations()`. */
    method LoadTranslations(outcome: LoadOutcome)
      modifies this
      ensures translations == Loaded(old(translations), outcome)
    {
      match outcome {
        case Parsed(table) =>
          translations := table;
        case FileMissing =>
        case ParsedNull =>
        case Failed =>
          translations := map[];
      }
    }

    /** `ReloadTranslations()`: another load. */
    method ReloadTranslations(outcome: LoadOutcome)
      modifies this
      ensures translations == Loaded(old(translations), outcome)
    {
      LoadTranslations(outcome);
    }

    /**
     * `GetValue(key, language)`: "" for an empty key, the entry's text in the selected
     * language for a known key, and the key itself for an unknown one.
     */
    function GetValue(key: string, language: string): (v: string)
      reads this
      ensures key == "" ==> v == ""
      ensures key != "" && key in translations ==> v == Select(translations[key], language)
      ensures key != "" && key !in translations ==> v == key
    {
      if key == "" then ""
      else if key in translations then Select(translations[key], language)
      else key
    }

    /** `GetAllTranslations(language)`: every key of the table, with its text in the selected language. */
    method GetAllTranslations(language: string) returns (result: map<string, string>)
      ensures result.Keys == translations.Keys
      ensures forall k | k in result :: result[k] == Select(translations[k], language)
      ensures forall k | k in result && k != "" :: result[k] == GetValue(k, language)
    {
      result := map[];
      var remaining := translations.Keys;
      while remaining != {}
        invariant remaining <= translations.Keys
        invariant result.Keys == translations.Keys - remaining
        invariant forall k | k in result :: result[k] == Select(translations[k], language)
        decreases remaining
      {
        var key :| key in remaining;
        result := result[key := Select(translations[key], language)];
        remaining := remaining - {key};
      }
    }
  }

  /** Loading twice with the same outcome leaves the table a single load leaves: a reload of an unchanged file changes nothing. */
  lemma LoadIsIdempotent(previous: map<string, LocalizationEntry>, outcome: LoadOutcome)
    ensures Loaded(Loaded(previous, outcome), outcome) == Loaded(previous, outcome)
  {
  }
}
