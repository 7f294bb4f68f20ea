/**
 * components/LanguageSwitcher.tsx: a button showing the current language's
 * flag, which opens a modal listing every language of the `flags` table;
 * choosing one sets the locale through the translation context and closes
 * the modal. Flag images and styles are not modelled, only which flag is
 * shown and which option is marked.
 */
module LanguageSwitcher {
  import opened LocaleCatalog

  /** A `flags` entry: the image address and the language's name, in that language. */
  datatype FlagEntry = FlagEntry(flag: string, name: string)

  const Flags: map<string, FlagEntry> := map[
    "en" := FlagEntry("https://flagcdn.com/w160/us.png", "English"),
    "pt" := FlagEntry("https://flagcdn.com/w160/br.png", "Português"),
    "es" := FlagEntry("https://flagcdn.com/w160/es.png", "Español")]

  /** The order `Object.entries(flags)` lists the options in: the order of the table. */
  const FlagOrder: seq<string> := ["en", "pt", "es"]

  /** The modal lists each language of the table once, and the table offers exactly the catalog's locales. */
  lemma OptionsAreTheCatalogLocales()
    ensures |FlagOrder| == 3 && forall i, j :: 0 <= i < j < |FlagOrder| ==> FlagOrder[i] != FlagOrder[j]
    ensures forall lang :: lang in FlagOrder <==> lang in Flags
    ensures Flags.Keys == Catalog.Keys
  {
    CatalogLocales();
  }

  /**
   * The flag on the button. Only a locale of the table has one: for any
   * other (a host language the catalog lacks) the lookup is undefined and
   * the screen cannot render.
   */
  function CurrentFlag(locale: string): (url: string)
    requires locale in Flags
    ensures exists lang :: lang in FlagOrder && Flags[lang].flag == url
    ensures forall lang :: lang in Flags && Flags[lang].flag == url ==> lang == locale
  {
    assert locale == FlagOrder[0] || locale == FlagOrder[1] || locale == FlagOrder[2];
    Flags[locale].flag
  }

  /** How many of the listed options are marked active for `locale` (the check mark and the active style). */
  function ActiveCount(options: seq<string>, locale: string): (n: nat)
    ensures n <= |options|
    ensures n == 0 <==> locale !in options
  {
    if options == [] then 0
    else (if options[0] == locale then 1 else 0) + ActiveCount(options[1..], locale)
  }

  /** A locale of the table marks exactly one option; any other marks none. */
  lemma {:induction false} ExactlyOneActive(locale: string)
    ensures ActiveCount(FlagOrder, locale) == (if locale in Flags then 1 else 0)
  {
    var o := FlagOrder;
    assert o[1..][1..][1..] == [];
    assert ActiveCount(o[1..][1..], locale) == (if locale == "es" then 1 else 0);
    assert ActiveCount(o[1..], locale) == (if locale == "pt" || locale == "es" then 1 else 0);
  }

  /** The switcher's state: the context it reads, and whether the modal is open. */
  class Switcher {
    const ctx: LanguageContext
    var modalVisible: bool

    constructor (ctx: LanguageContext)
      ensures this.ctx == ctx && !modalVisible
    {
      this.ctx := ctx;
      modalVisible := false;
    }

    /** Pressing the flag button opens the modal. */
    method PressCurrentLanguage()
      modifies this
      ensures modalVisible
    {
      modalVisible := true;
    }

    /** The modal's close request (the back button) closes it; the locale stays as it was. */
    method RequestClose()
      modifies this
      ensures !modalVisible && ContextLocale(ctx) == old(ContextLocale(ctx))
    {
      modalVisible := false;
    }

    /** A press on the overlay around the options closes the modal; the locale stays as it was. */
    method PressOverlay()
      modifies this
      ensures !modalVisible && ContextLocale(ctx) == old(ContextLocale(ctx))
    {
      modalVisible := false;
    }

    /**
     * Choosing an option: the context's `setLocale(lang)`, then the modal
     * closes. Under a provider both the shared object and the provider's
     * state become `lang`; outside one nothing but the modal changes.
     */
    method Select(lang: string)
      requires lang in Flags
      modifies this, if ctx.ProvidedBy? then {ctx.provider, ctx.provider.i18n} else {}
      ensures !modalVisible
      ensures ctx.ProvidedBy? ==> ContextLocale(ctx) == lang && ctx.provider.i18n.locale == lang && ctx.provider.Valid()
      ensures ctx.ProvidedBy? ==>
        ctx.provider.i18n.defaultLocale == old(ctx.provider.i18n.defaultLocale)
        && ctx.provider.i18n.enableFallback == old(ctx.provider.i18n.enableFallback)
      ensures ctx.DefaultContext? ==> ContextLocale(ctx) == old(ContextLocale(ctx))
    {
      SetLocale(ctx, lang);
      modalVisible := false;
    }
  }

  /** Under a provider, open the modal and choose Spanish: the modal is closed and Spanish is marked. */
  method ChooseSpanish(provider: LanguageProvider) returns (visible: bool, marked: nat)
    modifies provider, provider.i18n
    ensures !visible && marked == 1
  {
    var s := new Switcher(ProvidedBy(provider));
    s.PressCurrentLanguage();
    s.Select("es");
    visible := s.modalVisible;
    ExactlyOneActive("es");
    marked := ActiveCount(FlagOrder, ContextLocale(s.ctx));
  }
}
