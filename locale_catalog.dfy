/**
 * utils/i18n.tsx: the translation catalog for English, Portuguese and
 * Spanish, the module start-up that points the shared `I18n` object at the
 * host's first language, and the React `LanguageProvider` whose
 * `changeLocale` keeps that object and its own `locale` state in step.
 * The catalog below holds the entries the modelled screens read (`err`,
 * the two `validations` the profile form shows, all of `completeProfile`,
 * `screens.profile.title`) and the shape of the quiz; the remaining copy
 * (welcome, login, register, tabs, home, the rest of the profile screen and
 * the quiz wording) is omitted.
 */
module LocaleCatalog {
  import opened Wrappers
  import opened JsText
  import opened I18nJs

  function Str(s: string): Node
  {
    Leaf(Text(s))
  }

  /**
   * A quiz question: a `text` string and an `options` list. The quiz copy
   * itself is outside this model, so both are left empty.
   */
  const Question: Node := Branch(map["text" := Leaf(Text("")), "options" := Leaf(List([]))])

  const EnQuestions: map<string, Node> := map["1" := Question, "2" := Question]

  const En: Node := Branch(map[
    "err" := Branch(map[
      "loginFailed" := Str("Failed to login"),
      "registerFailed" := Str("Failed to Create Account.")]),
    "validations" := Branch(map[
      "required" := Str("This field is required"),
      "invalidDate" := Str("Please enter a valid date")]),
    "completeProfile" := Branch(map[
      "title" := Str("Complete your profile"),
      "subtitle" := Str("We need some more information to personalize your experience on the app."),
      "firstName" := Str("First Name"),
      "lastName" := Str("Last Name"),
      "birthDate" := Str("Date of Birth"),
      "completeRegister" := Str("Complete registration"),
      "savingCompleteRegister" := Str("Saving...")]),
    "screens" := Branch(map[
      "profile" := Branch(map[
        "title" := Str("Profile")])]),
    "quiz" := Branch(map[
      "questions" := Branch(EnQuestions)])])

  const PtQuestions: map<string, Node> := map[
    "1" := Question, "2" := Question, "3" := Question, "4" := Question, "5" := Question, "6" := Question,
    "7" := Question, "8" := Question, "9" := Question, "10" := Question, "11" := Question]

  const Pt: Node := Branch(map[
    "err" := Branch(map[
      "loginFailed" := Str("Falha ao fazer login."),
      "registerFailed" := Str("Falha ao criar conta.")]),
    "validations" := Branch(map[
      "required" := Str("Este campo é obrigatório"),
      "invalidDate" := Str("Por favor, insira uma data válida")]),
    "completeProfile" := Branch(map[
      "title" := Str("Complete seu perfil"),
      "subtitle" := Str("Precisamos de mais algumas informações para personalizar sua experiência no aplicativo."),
      "firstName" := Str("Nome"),
      "lastName" := Str("Sobrenome"),
      "birthDate" := Str("Data de Nascimento"),
      "completeRegister" := Str("Concluir cadastro"),
      "savingCompleteRegister" := Str("Salvando...")]),
    "screens" := Branch(map[
      "profile" := Branch(map[
        "title" := Str("Perfil")])]),
    "quiz" := Branch(map[
      "questions" := Branch(PtQuestions)])])

  const EsQuestions: map<string, Node> := map["1" := Question, "2" := Question]

  const Es: Node := Branch(map[
    "err" := Branch(map[
      "loginFailed" := Str("Error al iniciar sesión"),
      "registerFailed" := Str("Error al Crear la cuenta.")]),
    "validations" := Branch(map[
      "required" := Str("Este campo es obligatorio"),
      "invalidDate" := Str("Por favor, ingrese una fecha válida")]),
    "completeProfile" := Branch(map[
      "title" := Str("Completa tu perfil"),
      "subtitle" := Str("Necesitamos más información para personalizar tu experiencia en la aplicación."),
      "firstName" := Str("Nombre"),
      "lastName" := Str("Apellido"),
      "birthDate" := Str("Fecha de Nacimiento"),
      "completeRegister" := Str("Completar registro"),
      "savingCompleteRegister" := Str("Guardando...")]),
    "screens" := Branch(map[
      "profile" := Branch(map[
        "title" := Str("Perfil")])]),
    "quiz" := Branch(map[
      "questions" := Branch(EsQuestions)])])

  const Catalog: Translations := map["en" := En, "pt" := Pt, "es" := Es]

  const DefaultLocale: string := "en"

  /** The catalog defines exactly English, Portuguese and Spanish. */
  lemma CatalogLocales()
    ensures Catalog.Keys == {"en", "pt", "es"}
  {
  }

  /**
   * Module start-up: build the shared object over the catalog, then set the
   * active locale to the host's first language code (supported or not),
   * enable fallback and make English the default.
   */
  method StartUp(hostLanguageCode: string) returns (i18n: I18n)
    ensures fresh(i18n) && i18n.translations == Catalog
    ensures i18n.locale == hostLanguageCode && i18n.enableFallback && i18n.defaultLocale == DefaultLocale
  {
    i18n := new I18n(Catalog);
    i18n.locale := hostLanguageCode;
    i18n.enableFallback := true;
    i18n.defaultLocale := DefaultLocale;
  }

  /** Lookup after start-up: the catalog's resolution with English as fallback. */
  function Lookup(locale: string, key: KeyPath): Option<Node>
  {
    Resolve(Catalog, locale, DefaultLocale, true, key)
  }

  /** A key present in the active locale resolves there; otherwise English answers; otherwise nothing does. */
  lemma LookupFallsBackToEnglish(locale: string, key: KeyPath)
    ensures Has(Catalog, locale, key) ==> Lookup(locale, key) == Find(Catalog[locale], key)
    ensures !Has(Catalog, locale, key) ==> Lookup(locale, key) == Find(En, key)
  {
    assert Catalog[DefaultLocale] == En;
  }

  /** A host language with no catalog of its own reads everything in English. */
  lemma UnsupportedLocaleReadsEnglish(locale: string, key: KeyPath)
    requires locale !in Catalog
    ensures Lookup(locale, key) == Lookup(DefaultLocale, key)
  {
  }

  /** The leaves of `validations` and `completeProfile` the profile-completion screen uses. */
  const ValidationLeaves: set<string> := {"required", "invalidDate"}
  const CompleteProfileLeaves: set<string> := {
    "title", "subtitle", "firstName", "lastName", "birthDate", "completeRegister", "savingCompleteRegister"
  }

  predicate IsString(n: Node)
  {
    n.Leaf? && n.value.Text?
  }

  /** `ns.leaf` is a string in the tree `root`. */
  predicate StringAt(root: Node, ns: string, leaf: string)
  {
    root.Branch? && ns in root.children && root.children[ns].Branch?
    && leaf in root.children[ns].children && IsString(root.children[ns].children[leaf])
  }

  /** The two `validations` strings the profile-completion screen shows. */
  predicate ValidationStrings(root: Node)
  {
    StringAt(root, "validations", "required") && StringAt(root, "validations", "invalidDate")
  }

  /** Every `completeProfile` string. */
  predicate CompleteProfileStrings(root: Node)
  {
    StringAt(root, "completeProfile", "title") && StringAt(root, "completeProfile", "subtitle")
    && StringAt(root, "completeProfile", "firstName") && StringAt(root, "completeProfile", "lastName")
    && StringAt(root, "completeProfile", "birthDate") && StringAt(root, "completeProfile", "completeRegister")
    && StringAt(root, "completeProfile", "savingCompleteRegister")
  }

  /** In a tree with those strings, looking up any of the screen's keys finds a string. */
  lemma ProfileStringsFound(root: Node, ns: string, leaf: string)
    requires ValidationStrings(root) && CompleteProfileStrings(root)
    requires (ns == "validations" && leaf in ValidationLeaves) || (ns == "completeProfile" && leaf in CompleteProfileLeaves)
    ensures Find(root, [ns, leaf]).Some? && IsString(Find(root, [ns, leaf]).value)
  {
    var child := root.children[ns];
    assert Find(child, [leaf]) == Find(child.children[leaf], []);
  }

  lemma EnglishValidationStrings()
    ensures ValidationStrings(En)
  {
  }

  lemma EnglishCompleteProfileStrings()
    ensures CompleteProfileStrings(En)
  {
  }

  lemma PortugueseValidationStrings()
    ensures ValidationStrings(Pt)
  {
  }

  lemma PortugueseCompleteProfileStrings()
    ensures CompleteProfileStrings(Pt)
  {
  }

  lemma SpanishValidationStrings()
    ensures ValidationStrings(Es)
  {
  }

  lemma SpanishCompleteProfileStrings()
    ensures CompleteProfileStrings(Es)
  {
  }

  /** Each of those keys is a string in every locale of the catalog, so the screen never falls back. */
  lemma ProfileKeysInEveryLocale(locale: string, ns: string, leaf: string)
    requires locale in Catalog
    requires (ns == "validations" && leaf in ValidationLeaves) || (ns == "completeProfile" && leaf in CompleteProfileLeaves)
    ensures Has(Catalog, locale, [ns, leaf]) && IsString(Find(Catalog[locale], [ns, leaf]).value)
  {
    var root := Catalog[locale];
    if locale == "en" {
      assert root == En;
      EnglishValidationStrings();
      EnglishCompleteProfileStrings();
    } else if locale == "pt" {
      assert root == Pt;
      PortugueseValidationStrings();
      PortugueseCompleteProfileStrings();
    } else {
      assert root == Es;
      SpanishValidationStrings();
      SpanishCompleteProfileStrings();
    }
    ProfileStringsFound(root, ns, leaf);
  }

  /** No locale's tree has a top-level `errors` namespace. */
  lemma NoErrorsNamespace()
    ensures forall l :: l in Catalog ==> Find(Catalog[l], ["errors"]) == None
  {
    assert "errors" !in En.children;
    assert "errors" !in Pt.children;
    assert "errors" !in Es.children;
  }

  /**
   * The profile screen's failure alert asks for `errors.title` and
   * `errors.profileUpdate`; no locale has an `errors` namespace (the
   * catalog's is `err`), so both are missing whatever the active locale.
   */
  lemma AlertKeysMissing(locale: string, leaf: string)
    ensures Lookup(locale, ["errors", leaf]) == None
  {
    NoErrorsNamespace();
    forall l | l in Catalog
      ensures Find(Catalog[l], ["errors", leaf]) == None
    {
      FindAppend(Catalog[l], ["errors"], [leaf]);
      assert ["errors"] + [leaf] == ["errors", leaf];
    }
  }

  /** The quiz question numbers a catalog tree defines. */
  function QuestionNumbers(root: Node): set<string>
  {
    match Find(root, ["quiz", "questions"])
    case Some(Branch(questions)) => questions.Keys
    case _ => {}
  }

  /** Where each locale keeps its quiz questions. */
  lemma QuizQuestions()
    ensures Find(En, ["quiz", "questions"]) == Some(Branch(EnQuestions))
    ensures Find(Pt, ["quiz", "questions"]) == Some(Branch(PtQuestions))
    ensures Find(Es, ["quiz", "questions"]) == Some(Branch(EsQuestions))
  {
    PortugueseQuizQuestions();
  }

  lemma PortugueseQuizQuestions()
    ensures Find(Pt, ["quiz", "questions"]) == Some(Branch(PtQuestions))
  {
  }

  /** Looks up `rest` inside question `number` of a tree whose questions are `questions`. */
  lemma {:induction false} FindQuestion(root: Node, questions: map<string, Node>, number: string, field: string)
    requires Find(root, ["quiz", "questions"]) == Some(Branch(questions))
    ensures Find(root, ["quiz", "questions", number, field])
      == if number in questions then Find(questions[number], [field]) else None
  {
    FindAppend(root, ["quiz", "questions"], [number, field]);
    assert ["quiz", "questions"] + [number, field] == ["quiz", "questions", number, field];
  }

  /** Portuguese carries all eleven quiz questions, each with a text and a list of options. */
  lemma {:induction false} PortugueseQuizComplete(i: nat)
    requires 1 <= i <= 11
    ensures DecimalText(i) in QuestionNumbers(Pt)
    ensures Find(Pt, ["quiz", "questions", DecimalText(i), "text"]) == Some(Leaf(Text("")))
    ensures Find(Pt, ["quiz", "questions", DecimalText(i), "options"]) == Some(Leaf(List([])))
  {
    var key := DecimalText(i);
    if i < 10 {
      assert key == [DigitChar(i)];
    } else {
      assert key == [DigitChar(1), DigitChar(i - 10)];
    }
    assert key in PtQuestions;
    PortugueseQuizQuestions();
    FindQuestion(Pt, PtQuestions, key, "text");
    FindQuestion(Pt, PtQuestions, key, "options");
  }

  /** English and Spanish stop after question two. */
  lemma QuizLengths()
    ensures QuestionNumbers(En) == QuestionNumbers(Es) == {"1", "2"}
  {
    QuizQuestions();
  }

  /** Question three exists only in Portuguese, so in Spanish the fallback to English finds nothing either. */
  lemma ThirdQuestionMissing()
    ensures Lookup("es", ["quiz", "questions", "3", "text"]) == None
    ensures Lookup("pt", ["quiz", "questions", "3", "text"]).Some?
  {
    QuizQuestions();
    FindQuestion(En, EnQuestions, "3", "text");
    FindQuestion(Es, EsQuestions, "3", "text");
    FindQuestion(Pt, PtQuestions, "3", "text");
  }

  /** The `screens.profile.title` string of one locale's tree. */
  lemma ProfileTitleIn(root: Node, title: string)
    requires root.Branch? && "screens" in root.children
    requires root.children["screens"] == Branch(map["profile" := Branch(map["title" := Str(title)])])
    ensures Find(root, ["screens", "profile", "title"]) == Some(Str(title))
  {
    var screens := root.children["screens"];
    var profile := screens.children["profile"];
    assert Find(profile, ["title"]) == Find(Str(title), []);
    assert Find(screens, ["profile", "title"]) == Find(profile, ["title"]);
  }

  /** The profile title in English and in Portuguese. */
  lemma ProfileTitles()
    ensures Lookup("en", ["screens", "profile", "title"]) == Some(Str("Profile"))
    ensures Lookup("pt", ["screens", "profile", "title"]) == Some(Str("Perfil"))
  {
    ProfileTitleIn(En, "Profile");
    ProfileTitleIn(Pt, "Perfil");
    assert Catalog["en"] == En && Catalog["pt"] == Pt;
  }

  /**
   * `LanguageProvider`: React state `locale`, initialised from the shared
   * object, and `changeLocale`, which writes both.
   */
  class LanguageProvider {
    const i18n: I18n
    var locale: string

    /** The React state and the shared object agree. */
    ghost predicate Valid()
      reads this, i18n
    {
      locale == i18n.locale
    }

    constructor (i18n: I18n)
      ensures this.i18n == i18n && locale == i18n.locale && Valid()
    {
      this.i18n := i18n;
      locale := i18n.locale;
    }

    /** `changeLocale`: both the shared object and the state take the new locale; nothing else moves. */
    method ChangeLocale(newLocale: string)
      modifies this, i18n
      ensures Valid()
      ensures locale == newLocale && i18n.locale == newLocale
      ensures i18n.defaultLocale == old(i18n.defaultLocale) && i18n.enableFallback == old(i18n.enableFallback)
    {
      i18n.locale := newLocale;
      locale := newLocale;
    }
  }

  /**
   * The context value a component sees: the default value (a snapshot of
   * the start-up locale and a `setLocale` that does nothing), or the one a
   * `LanguageProvider` supplies.
   */
  datatype LanguageContext = DefaultContext(snapshot: string) | ProvidedBy(provider: LanguageProvider)

  /** `useTranslation().locale`. */
  function ContextLocale(ctx: LanguageContext): string
    reads if ctx.ProvidedBy? then {ctx.provider} else {}
  {
    match ctx
    case DefaultContext(s) => s
    case ProvidedBy(p) => p.locale
  }

  /** `useTranslation().setLocale`: `changeLocale` under a provider, a no-op outside one. */
  method SetLocale(ctx: LanguageContext, newLocale: string)
    modifies if ctx.ProvidedBy? then {ctx.provider, ctx.provider.i18n} else {}
    ensures ctx.ProvidedBy? ==>
      ctx.provider.locale == newLocale && ctx.provider.i18n.locale == newLocale && ctx.provider.Valid()
      && ctx.provider.i18n.defaultLocale == old(ctx.provider.i18n.defaultLocale)
      && ctx.provider.i18n.enableFallback == old(ctx.provider.i18n.enableFallback)
  {
    match ctx
    case DefaultContext(_) =>
    case ProvidedBy(p) => p.ChangeLocale(newLocale);
  }

  /** `useTranslation().t`: always the shared object's lookup, whatever the context. */
  function Translate(i18n: I18n, key: KeyPath): Option<Node>
    reads i18n
  {
    i18n.T(key)
  }

  /** Start from an English host, switch to Portuguese under the provider, and read the profile title. */
  method SwitchToPortuguese() returns (title: Option<Node>)
    ensures title == Some(Str("Perfil"))
  {
    ProfileTitles();
    var i18n := StartUp("en");
    var provider := new LanguageProvider(i18n);
    SetLocale(ProvidedBy(provider), "pt");
    assert ContextLocale(ProvidedBy(provider)) == "pt";
    title := Translate(i18n, ["screens", "profile", "title"]);
  }

  /**
   * Outside a provider, `setLocale` changes nothing: the shared object and
   * the context's locale read the same before and after, whatever locale
   * was asked for.
   */
  method SetLocaleOutsideProvider(i18n: I18n, newLocale: string) returns (before: string, after: string)
    ensures after == before == i18n.locale
    ensures newLocale != i18n.locale ==> after != newLocale
  {
    var ctx := DefaultContext(i18n.locale);
    before := i18n.locale;
    SetLocale(ctx, newLocale);
    assert ContextLocale(ctx) == before;
    after := i18n.locale;
  }
}
