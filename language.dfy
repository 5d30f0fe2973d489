/**
 * The current UI language, kept under the session key "Language": the LanguageService
 * (Calorizer.Business/Services/LanguageService.cs) and the Localizer
 * (Calorizer.Business/Middleware/Localizer.cs) read it through the HTTP context accessor,
 * whose current context may be null outside a request.
 */
module Language {
  import opened Wrappers
  import opened Http
  import opened Localization

  const DefaultLanguage: string := "en"

  /** `HttpContext?.Session.GetString("Language") ?? "en"`. */
  function CurrentLanguage(context: HttpContext?): (l: string)
    reads context
    ensures context == null ==> l == DefaultLanguage
    ensures context != null && LanguageKey in context.session ==> l == context.session[LanguageKey]
    ensures context != null && LanguageKey !in context.session ==> l == DefaultLanguage
  {
    if context == null then DefaultLanguage else context.SessionString(LanguageKey).GetOr(DefaultLanguage)
  }

  class LanguageService {
    /** The accessor's current HttpContext. */
    const context: HttpContext?

    constructor (context: HttpContext?)
      ensures this.context == context
    {
      this.context := context;
    }

    /** `GetCurrentLanguage()`. */
    function GetCurrentLanguage(): (l: string)
      reads this, context
      ensures l == CurrentLanguage(context)
    {
      CurrentLanguage(context)
    }

    /**
     * `SetCurrentLanguage(language)`: stores the value as given, whatever it is; without a
     * context nothing happens.
     */
    method SetCurrentLanguage(language: string)
      modifies context
      ensures context != null ==> context.session == old(context.session)[LanguageKey := language]
      ensures context != null ==> context.responseCookies == old(context.responseCookies)
      ensures context != null ==> GetCurrentLanguage() == language
      ensures context == null ==> GetCurrentLanguage() == DefaultLanguage
    {
      if context != null {
        context.session := context.session[LanguageKey := language];
      }
    }
  }

  class Localizer {
    const provider: LocalizationService
    const context: HttpContext?

    constructor (provider: LocalizationService, context: HttpContext?)
      ensures this.provider == provider && this.context == context
    {
      this.provider := provider;
      this.context := context;
    }

    /** The indexer `this[key]`: the provider's value for the key in the current language. */
    function Item(key: string): (v: string)
      reads this, provider, context
      ensures v == provider.GetValue(key, CurrentLanguage(context))
    {
      provider.GetValue(key, CurrentLanguage(context))
    }

    /** `GetAll()`: the provider's table in the current language. */
    method GetAll() returns (result: map<string, string>)
      ensures result.Keys == provider.translations.Keys
      ensures forall k | k in result :: result[k] == Select(provider.translations[k], CurrentLanguage(context))
    {
      result := provider.GetAllTranslations(CurrentLanguage(context));
    }

    /**
     * `Get(key, fallback)`: the translated value, or `fallback` when the value is empty or is
     * the key itself (which is what an unknown key yields).
     */
    function Get(key: string, fallback: string): (v: string)
      reads this, provider, context
      ensures var t := Item(key); v == (if t == "" || t == key then fallback else t)
      ensures key !in provider.translations ==> v == fallback
      ensures key in provider.translations && key != "" ==>
        var t := Select(provider.translations[key], CurrentLanguage(context));
        v == (if t == "" || t == key then fallback else t)
    {
      var value := Item(key);
      if value == "" || value == key then fallback else value
    }

    /** `Get(key)` with the default fallback: "" for every key the table cannot translate. */
    function GetOrEmpty(key: string): (v: string)
      reads this, provider, context
      ensures key !in provider.translations ==> v == ""
      ensures v == "" || v != key
      ensures v == Get(key, "")
    {
      Get(key, "")
    }
  }
}
