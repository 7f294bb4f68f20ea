/**
 * utils/i18n.ts: the older translation module. Its catalog differs from the
 * one in utils/i18n.tsx in the places modelled here: `validations` has no
 * `required` or `invalidDate`, the profile strings sit in a top-level
 * `profile` namespace rather than under `screens`, and the birth-date label
 * spells out a day-first format in every language. Its `setupI18n` points
 * the shared object at the host language, and its `useTranslation` hands out
 * a snapshot of the locale next to a `setLocale` that only writes the shared
 * object. The catalog below keeps `err`, `validations`, part of
 * `completeProfile` and `profile.title`; the rest of the copy is omitted.
 */
module LegacyI18n {
  import opened Wrappers
  import opened I18nJs

  function Str(s: string): Node
  {
    Leaf(Text(s))
  }

  const LegacyEn: Node := Branch(map[
    "err" := Branch(map[
      "loginFailed" := Str("Failed to login"),
      "registerFailed" := Str("Failed to Create Account.")]),
    "validations" := Branch(map[
      "fillAllFields" := Str("Please fill all fields."),
      "emailValid" := Str("Please enter a valid email."),
      "notExpectedCharPassword" := Str("Password must be at least 6 characters.")]),
    "completeProfile" := Branch(map[
      "title" := Str("Complete your profile"),
      "firstName" := Str("First Name"),
      "lastName" := Str("Last Name"),
      "birthDate" := Str("Date of Birth (DD/MM/YYYY)")]),
    "profile" := Branch(map[
      "title" := Str("Profile")])])

  const LegacyPt: Node := Branch(map[
    "err" := Branch(map[
      "loginFailed" := Str("Falha ao fazer login."),
      "registerFailed" := Str("Falha ao criar conta.")]),
    "validations" := Branch(map[
      "fillAllFields" := Str("Por favor, preencha todos os campos."),
      "emailValid" := Str("Por favor, insira um e-mail válido."),
      "notExpectedCharPassword" := Str("A senha deve ter pelo menos 6 caracteres.")]),
    "completeProfile" := Branch(map[
      "title" := Str("Complete seu perfil"),
      "firstName" := Str("Nome"),
      "lastName" := Str("Sobrenome"),
      "birthDate" := Str("Data de Nascimento (DD/MM/AAAA)")]),
    "profile" := Branch(map[
      "title" := Str("Perfil")])])

  const LegacyEs: Node := Branch(map[
    "err" := Branch(map[
      "loginFailed" := Str("Error al iniciar sesión"),
      "registerFailed" := Str("Error al Crear la cuenta.")]),
    "validations" := Branch(map[
      "fillAllFields" := Str("Por favor, rellene todos los campos."),
      "emailValid" := Str("Por favor, introduzca un correo electrónico válido."),
      "notExpectedCharPassword" := Str("La contraseña debe tener al menos 6 caracteres.")]),
    "completeProfile" := Branch(map[
      "title" := Str("Completa tu perfil"),
      "firstName" := Str("Nombre"),
      "lastName" := Str("Apellido"),
      "birthDate" := Str("Fecha de Nacimiento (DD/MM/AAAA)")]),
    "profile" := Branch(map[
      "title" := Str("Perfil")])])

  const LegacyCatalog: Translations := map["en" := LegacyEn, "pt" := LegacyPt, "es" := LegacyEs]

  /** This catalog too defines exactly English, Portuguese and Spanish. */
  lemma LegacyLocales()
    ensures LegacyCatalog.Keys == {"en", "pt", "es"}
  {
  }

  /**
   * The module's shared object as first built: i18n-js's own defaults,
   * English with no fallback. Nothing calls `setupI18n` (its import and call
   * in app/_layout.tsx are commented out), so this is the state the module
   * keeps unless someone calls `setLocale`.
   */
  method CreateShared() returns (i18n: I18n)
    ensures fresh(i18n) && i18n.translations == LegacyCatalog
    ensures i18n.locale == "en" && i18n.defaultLocale == "en" && !i18n.enableFallback
  {
    i18n := new I18n(LegacyCatalog);
  }

  /** `setupI18n`: the host's first language code, supported or not, with fallback to English. */
  method SetupI18n(i18n: I18n, hostLanguageCode: string)
    modifies i18n
    ensures i18n.locale == hostLanguageCode && i18n.enableFallback && i18n.defaultLocale == "en"
  {
    i18n.locale := hostLanguageCode;
    i18n.enableFallback := true;
    i18n.defaultLocale := "en";
  }

  /** Lookup as the shared object stands without `setupI18n`: English only, nothing to fall back on. */
  function UnsetLookup(key: KeyPath): Option<Node>
  {
    Resolve(LegacyCatalog, "en", "en", false, key)
  }

  /** Without set-up, a key is found exactly when English has it. */
  lemma UnsetLookupIsEnglish(key: KeyPath)
    ensures UnsetLookup(key) == Find(LegacyEn, key)
  {
    assert LegacyCatalog["en"] == LegacyEn;
  }

  /**
   * What `useTranslation()` returns, less its two functions: the locale
   * read at the moment of the call. Its `t` and `setLocale` act on the
   * shared object (`Translate`, `SetLocale`).
   */
  datatype TranslationHandle = TranslationHandle(locale: string)

  method UseTranslation(i18n: I18n) returns (h: TranslationHandle)
    ensures h.locale == i18n.locale
  {
    h := TranslationHandle(i18n.locale);
  }

  /** The handle's `t`: the shared object's lookup at the time of the call. */
  function Translate(i18n: I18n, key: KeyPath): Option<Node>
    reads i18n
  {
    i18n.T(key)
  }

  /** The handle's `setLocale`: assigns the shared object's locale and nothing else. */
  method SetLocale(i18n: I18n, newLocale: string)
    modifies i18n
    ensures i18n.locale == newLocale
    ensures i18n.defaultLocale == old(i18n.defaultLocale) && i18n.enableFallback == old(i18n.enableFallback)
  {
    i18n.locale := newLocale;
  }

  /**
   * A handle taken before `setLocale` keeps reporting the old locale while
   * lookups already use the new one.
   */
  method StaleSnapshot(i18n: I18n, newLocale: string) returns (h: TranslationHandle, current: string)
    modifies i18n
    requires i18n.locale != newLocale
    ensures current == newLocale && h.locale != current
  {
    h := UseTranslation(i18n);
    SetLocale(i18n, newLocale);
    current := i18n.locale;
  }

  /** Neither `validations.required` nor `validations.invalidDate` exists in any locale of this catalog. */
  lemma {:induction false} RequiredAndInvalidDateAbsent(leaf: string)
    requires leaf == "required" || leaf == "invalidDate"
    ensures forall l :: l in LegacyCatalog ==> Find(LegacyCatalog[l], ["validations", leaf]) == None
  {
    forall l | l in LegacyCatalog
      ensures Find(LegacyCatalog[l], ["validations", leaf]) == None
    {
      var root := LegacyCatalog[l];
      var v := root.children["validations"];
      if l == "en" {
        assert root == LegacyEn;
      } else if l == "pt" {
        assert root == LegacyPt;
      } else {
        assert root == LegacyEs;
      }
      assert leaf !in v.children;
    }
  }

  /** So those keys resolve to nothing whatever the locale and fallback settings. */
  lemma ValidationKeysMissing(locale: string, defaultLocale: string, enableFallback: bool, leaf: string)
    requires leaf == "required" || leaf == "invalidDate"
    ensures Resolve(LegacyCatalog, locale, defaultLocale, enableFallback, ["validations", leaf]) == None
  {
    RequiredAndInvalidDateAbsent(leaf);
  }

  /** `profile.title` of one locale's tree, with no `screens` namespace above it. */
  lemma TopLevelProfileIn(root: Node, title: string)
    requires root.Branch? && "screens" !in root.children && "profile" in root.children
    requires root.children["profile"] == Branch(map["title" := Str(title)])
    ensures Find(root, ["profile", "title"]) == Some(Str(title))
    ensures Find(root, ["screens", "profile", "title"]) == None
  {
    var profile := root.children["profile"];
    assert Find(profile, ["title"]) == Find(Str(title), []);
  }

  /** The profile strings sit at top level in every locale, so the `screens.profile` keys are missing. */
  lemma ProfileAtTopLevel()
    ensures Find(LegacyEn, ["profile", "title"]) == Some(Str("Profile"))
    ensures Find(LegacyPt, ["profile", "title"]) == Some(Str("Perfil"))
    ensures Find(LegacyEs, ["profile", "title"]) == Some(Str("Perfil"))
    ensures forall l :: l in LegacyCatalog ==> Find(LegacyCatalog[l], ["screens", "profile", "title"]) == None
  {
    TopLevelProfileIn(LegacyEn, "Profile");
    TopLevelProfileIn(LegacyPt, "Perfil");
    TopLevelProfileIn(LegacyEs, "Perfil");
  }

  /** The birth-date label of one locale's tree. */
  lemma BirthDateIn(root: Node, text: string)
    requires root.Branch? && "completeProfile" in root.children
    requires root.children["completeProfile"].Branch?
    requires "birthDate" in root.children["completeProfile"].children
    requires root.children["completeProfile"].children["birthDate"] == Str(text)
    ensures Find(root, ["completeProfile", "birthDate"]) == Some(Str(text))
  {
    var cp := root.children["completeProfile"];
    assert Find(cp, ["birthDate"]) == Find(Str(text), []);
  }

  /** A label that ends in a format hint `(DD/MM/....)`: day first, then month. */
  predicate EndsWithDayFirstHint(text: string)
  {
    |text| >= 12 && text[|text| - 12..|text| - 6] == "(DD/MM"
  }

  /** The birth-date label in each locale. */
  lemma BirthDateLabels()
    ensures Find(LegacyEn, ["completeProfile", "birthDate"]) == Some(Str("Date of Birth (DD/MM/YYYY)"))
    ensures Find(LegacyPt, ["completeProfile", "birthDate"]) == Some(Str("Data de Nascimento (DD/MM/AAAA)"))
    ensures Find(LegacyEs, ["completeProfile", "birthDate"]) == Some(Str("Fecha de Nacimiento (DD/MM/AAAA)"))
  {
    BirthDateIn(LegacyEn, "Date of Birth (DD/MM/YYYY)");
    BirthDateIn(LegacyPt, "Data de Nascimento (DD/MM/AAAA)");
    BirthDateIn(LegacyEs, "Fecha de Nacimiento (DD/MM/AAAA)");
  }

  /** All three labels ask for the day first, the English one included. */
  lemma BirthDateLabelsDayFirst()
    ensures EndsWithDayFirstHint("Date of Birth (DD/MM/YYYY)")
    ensures EndsWithDayFirstHint("Data de Nascimento (DD/MM/AAAA)")
    ensures EndsWithDayFirstHint("Fecha de Nacimiento (DD/MM/AAAA)")
  {
  }
}
