/**
 * The part of the i18n-js `I18n` object both translation modules rely on:
 * a nested catalog of translations per locale, the mutable `locale`,
 * `defaultLocale` and `enableFallback` fields, and the lookup `t(key)`.
 * A key such as `screens.profile.title` is a path of segments split at
 * its dots; it may end at a leaf (a string, or a list of strings for the
 * quiz options) or at a nested namespace. Interpolation is not modelled
 * (no catalog string has a placeholder), and neither is the exact text
 * i18n-js shows for a missing key: a missing key is `None`.
 */
module I18nJs {
  import opened Wrappers

  datatype Entry = Text(text: string) | List(items: seq<string>)

  /** A catalog object: a leaf value, or a namespace of named children. */
  datatype Node = Leaf(value: Entry) | Branch(children: map<string, Node>)

  /** The segments of a dotted key. */
  type KeyPath = seq<string>

  /** locale -> catalog tree */
  type Translations = map<string, Node>

  /** Follows a key path down a catalog tree. */
  function Find(node: Node, path: KeyPath): Option<Node>
    decreases |path|
  {
    if path == [] then Some(node)
    else if node.Branch? && path[0] in node.children then Find(node.children[path[0]], path[1..])
    else None
  }

  /** Looking a path up in one step is looking up its prefix, then the rest inside what was found. */
  lemma {:induction false} FindAppend(node: Node, p: KeyPath, q: KeyPath)
    ensures Find(node, p + q) == match Find(node, p) case Some(m) => Find(m, q) case None => None
    decreases |p|
  {
    if p != [] {
      assert (p + q)[0] == p[0] && (p + q)[1..] == p[1..] + q;
      if node.Branch? && p[0] in node.children {
        FindAppend(node.children[p[0]], p[1..], q);
      }
    } else {
      assert p + q == q;
    }
  }

  /** Nothing lies below a leaf: a path that runs past one is missing. */
  lemma LeafHasNoChildren(node: Node, p: KeyPath, q: KeyPath)
    requires Find(node, p).Some? && Find(node, p).value.Leaf? && q != []
    ensures Find(node, p + q) == None
  {
    FindAppend(node, p, q);
  }

  predicate Has(tr: Translations, locale: string, key: KeyPath)
  {
    locale in tr && Find(tr[locale], key).Some?
  }

  /**
   * The lookup of `t(key)`: the active locale first; when that has no such
   * key and fallback is enabled, the default locale.
   */
  function Resolve(tr: Translations, locale: string, defaultLocale: string, enableFallback: bool, key: KeyPath): (r: Option<Node>)
    ensures r.Some? <==> Has(tr, locale, key) || (enableFallback && Has(tr, defaultLocale, key))
    ensures Has(tr, locale, key) ==> r == Find(tr[locale], key)
    ensures !Has(tr, locale, key) && r.Some? ==> r == Find(tr[defaultLocale], key)
  {
    if Has(tr, locale, key) then Find(tr[locale], key)
    else if enableFallback && Has(tr, defaultLocale, key) then Find(tr[defaultLocale], key)
    else None
  }

  /** The shared, mutable translator object. */
  class I18n {
    const translations: Translations
    var locale: string
    var defaultLocale: string
    var enableFallback: bool

    /** `new I18n(translations)`: i18n-js starts on locale "en", default "en", fallback off. */
    constructor (translations: Translations)
      ensures this.translations == translations
      ensures locale == "en" && defaultLocale == "en" && !enableFallback
    {
      this.translations := translations;
      locale := "en";
      defaultLocale := "en";
      enableFallback := false;
    }

    /** `i18n.t(key)` as it reads the object's current fields. */
    function T(key: KeyPath): Option<Node>
      reads this
    {
      Resolve(translations, locale, defaultLocale, enableFallback, key)
    }
  }
}
