/**
 * resources/example/src/utils/themeUtils.ts: deciding the initial theme from a saved
 * preference and the system colour scheme, and projecting a theme onto the page.
 * The page is modelled by the pieces `applyTheme` touches: the attributes and class
 * lists of `<html>` and `<body>`, the `themechange` events dispatched on the document,
 * and `localStorage`.
 */
module ThemeUtils {
  import opened Wrappers
  import opened JsString

  const Dark := "dark"
  const Light := "light"
  const ThemeKey := "theme"
  const DataTheme := "data-theme"
  const ThemeChangeType := "themechange"

  /**
   * What the code can observe of its host: whether `window` exists, whether
   * `window.matchMedia` does, and whether `(prefers-color-scheme: dark)` matches.
   */
  datatype Env = Env(hasWindow: bool, hasMatchMedia: bool, prefersDark: bool)

  /** `getPreferredColorScheme`: "light" only when the host can tell and says it prefers light; "dark" otherwise. */
  function PreferredColorScheme(env: Env): (scheme: string)
    ensures scheme == Dark || scheme == Light
    ensures scheme == Light <==> env.hasWindow && env.hasMatchMedia && !env.prefersDark
  {
    if env.hasWindow && env.hasMatchMedia then (if env.prefersDark then Dark else Light) else Dark
  }

  /** `localStorage.getItem(key)`: `null` for a key never stored. */
  function GetItem(storage: map<string, string>, key: string): Option<string> {
    if key in storage then Some(storage[key]) else None
  }

  /**
   * `getInitialTheme`: "dark" without a window; otherwise a non-empty saved value exactly
   * as stored (it is not checked to be "light" or "dark"); otherwise the system scheme.
   */
  function InitialTheme(env: Env, storage: map<string, string>): (theme: string)
    ensures theme != []
    ensures !env.hasWindow ==> theme == Dark
    ensures theme == Dark || theme == Light || (env.hasWindow && ThemeKey in storage && theme == storage[ThemeKey])
  {
    if !env.hasWindow then Dark
    else
      var saved := GetItem(storage, ThemeKey);
      if saved.Some? && Truthy(saved.value) then saved.value else PreferredColorScheme(env)
  }

  /** A saved non-empty preference wins over the system scheme, whatever its text. */
  lemma SavedThemeWins(env: Env, storage: map<string, string>)
    requires env.hasWindow && ThemeKey in storage && storage[ThemeKey] != ""
    ensures InitialTheme(env, storage) == storage[ThemeKey]
  {
  }

  /** With no usable saved value, the initial theme is "light" exactly when the host prefers light. */
  lemma InitialThemeWithoutSavedValue(env: Env, storage: map<string, string>)
    requires ThemeKey !in storage || storage[ThemeKey] == ""
    ensures InitialTheme(env, storage) == Light <==> env.hasWindow && env.hasMatchMedia && !env.prefersDark
    ensures InitialTheme(env, storage) == Dark || InitialTheme(env, storage) == Light
  {
  }

  /** One element of the page: its attributes and its class list. */
  datatype Element = Element(attributes: map<string, string>, classes: seq<string>)

  /** A `CustomEvent` dispatched on the document, with its type and `detail.theme`. */
  datatype ThemeChange = ThemeChange(eventType: string, theme: string)

  /** The state `applyTheme` reads and writes. */
  datatype Page = Page(html: Element, body: Element, events: seq<ThemeChange>, storage: map<string, string>)

  /** `classList.add(c)`: c is present afterwards; a list that already has it is left as it is. */
  function ClassAdded(classes: seq<string>, c: string): (r: seq<string>)
    ensures c in r
    ensures forall d :: d in r <==> d in classes || d == c
    ensures c in classes ==> r == classes
  {
    if c in classes then classes else classes + [c]
  }

  /** `classList.remove(c)`: c is gone afterwards and every other class is kept. */
  function ClassRemoved(classes: seq<string>, c: string): (r: seq<string>)
    ensures c !in r
    ensures forall d :: d != c ==> (d in r <==> d in classes)
    ensures |r| <= |classes|
  {
    if classes == [] then []
    else if classes[0] == c then ClassRemoved(classes[1..], c)
    else [classes[0]] + ClassRemoved(classes[1..], c)
  }

  /** Removing a class that is not there changes nothing. */
  lemma {:induction false} ClassRemovedAbsent(classes: seq<string>, c: string)
    requires c !in classes
    ensures ClassRemoved(classes, c) == classes
  {
    if classes != [] {
      ClassRemovedAbsent(classes[1..], c);
    }
  }

  /** What `applyTheme` does to one element: `data-theme` set, and the `dark` class added for "dark" or removed otherwise. */
  function Themed(e: Element, theme: string): Element {
    Element(e.attributes[DataTheme := theme],
            if theme == Dark then ClassAdded(e.classes, Dark) else ClassRemoved(e.classes, Dark))
  }

  /** `applyTheme(theme)` as a function of the page it starts from; without a document it is a no-op. */
  function ThemeApplied(hasDocument: bool, p: Page, theme: string): Page {
    if !hasDocument then p
    else Page(Themed(p.html, theme), Themed(p.body, theme),
              p.events + [ThemeChange(ThemeChangeType, theme)], p.storage[ThemeKey := theme])
  }

  /** The element carries the theme: its `data-theme` is it, and it has the `dark` class exactly for "dark". */
  ghost predicate ElementShows(e: Element, theme: string) {
    DataTheme in e.attributes && e.attributes[DataTheme] == theme && (Dark in e.classes <==> theme == Dark)
  }

  /** The page carries the theme on both elements and in storage. */
  ghost predicate Shows(p: Page, theme: string) {
    ElementShows(p.html, theme) && ElementShows(p.body, theme) && ThemeKey in p.storage && p.storage[ThemeKey] == theme
  }

  /**
   * After `applyTheme(t)` on a page with a document, the page shows t, exactly one
   * `themechange` event carrying t has been added, every other attribute and class is
   * as it was, and every other storage key too.
   */
  lemma ApplyThemeEffect(p: Page, theme: string)
    ensures var q := ThemeApplied(true, p, theme);
      && Shows(q, theme)
      && q.events == p.events + [ThemeChange(ThemeChangeType, theme)]
      && (forall a | a != DataTheme && a in p.html.attributes :: a in q.html.attributes && q.html.attributes[a] == p.html.attributes[a])
      && (forall a | a != DataTheme && a in p.body.attributes :: a in q.body.attributes && q.body.attributes[a] == p.body.attributes[a])
      && (forall d | d != Dark :: (d in q.html.classes <==> d in p.html.classes) && (d in q.body.classes <==> d in p.body.classes))
      && (forall k | k != ThemeKey && k in p.storage :: k in q.storage && q.storage[k] == p.storage[k])
  {
  }

  /** Without a document, `applyTheme` leaves the page exactly as it was: no attribute, class, event or storage write. */
  lemma ApplyThemeWithoutDocument(p: Page, theme: string)
    ensures ThemeApplied(false, p, theme) == p
  {
  }

  /** Applying the same theme twice leaves the elements and storage as one application does; only the events grow. */
  lemma ApplyThemeIdempotent(hasDocument: bool, p: Page, theme: string)
    ensures var once := ThemeApplied(hasDocument, p, theme);
      var twice := ThemeApplied(hasDocument, once, theme);
      && twice.html == once.html && twice.body == once.body && twice.storage == once.storage
      && (hasDocument ==> twice.events == once.events + [ThemeChange(ThemeChangeType, theme)])
  {
    if hasDocument && theme != Dark {
      var once := ThemeApplied(hasDocument, p, theme);
      ClassRemovedAbsent(once.html.classes, Dark);
      ClassRemovedAbsent(once.body.classes, Dark);
    }
  }

  /** The host: its fixed capabilities and the mutable page `applyTheme` writes to. */
  class Browser {
    const env: Env
    /** `typeof document !== 'undefined'` */
    const hasDocument: bool
    var html: Element
    var body: Element
    var events: seq<ThemeChange>
    var storage: map<string, string>

    function State(): Page
      reads this
    {
      Page(html, body, events, storage)
    }

    constructor(env: Env, hasDocument: bool, html: Element, body: Element, storage: map<string, string>)
      ensures this.env == env && this.hasDocument == hasDocument
      ensures State() == Page(html, body, [], storage)
    {
      this.env := env;
      this.hasDocument := hasDocument;
      this.html := html;
      this.body := body;
      this.events := [];
      this.storage := storage;
    }

    /** `applyTheme`: attributes, classes, event and storage written one after the other. */
    method ApplyTheme(theme: string)
      modifies this
      ensures State() == ThemeApplied(hasDocument, old(State()), theme)
    {
      if !hasDocument {
        return;
      }
      html := html.(attributes := html.attributes[DataTheme := theme]);
      body := body.(attributes := body.attributes[DataTheme := theme]);
      if theme == Dark {
        html := html.(classes := ClassAdded(html.classes, Dark));
        body := body.(classes := ClassAdded(body.classes, Dark));
      } else {
        html := html.(classes := ClassRemoved(html.classes, Dark));
        body := body.(classes := ClassRemoved(body.classes, Dark));
      }
      events := events + [ThemeChange(ThemeChangeType, theme)];
      storage := storage[ThemeKey := theme];
    }
  }
}
