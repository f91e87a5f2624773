/**
 * src/context/ThemeProvider.tsx: the `theme` state cell, initialised by
 * `getInitialTheme`, flipped by `toggleTheme` (which also saves the new value), and
 * projected onto the page by an effect that runs `applyTheme` whenever it changes.
 */
module ThemeProvider {
  import opened ThemeUtils

  /** The flip inside `toggleTheme`: "light" becomes "dark" and anything else becomes "light". */
  function Toggled(theme: string): (r: string)
    ensures r == Dark || r == Light
    ensures r != theme
    ensures r == Dark <==> theme == Light
  {
    if theme == Light then Dark else Light
  }

  /** Toggling twice gives back the theme exactly when it was "light" or "dark"; any other saved text ends at "dark". */
  lemma ToggleTwice(theme: string)
    ensures Toggled(Toggled(theme)) == theme <==> theme == Light || theme == Dark
    ensures theme != Light && theme != Dark ==> Toggled(Toggled(theme)) == Dark
  {
  }

  /**
   * The `setItem` that `toggleTheme` does itself is the one the effect's `applyTheme` then
   * repeats: doing both leaves the page as the effect alone would.
   */
  lemma ToggleSaveSubsumed(p: Page, theme: string)
    ensures ThemeApplied(true, p.(storage := p.storage[ThemeKey := theme]), theme) == ThemeApplied(true, p, theme)
  {
  }

  class Provider {
    var theme: string
    const browser: Browser

    /** The page always carries the state's theme once the effect has run. */
    ghost predicate Valid()
      reads this, browser
    {
      browser.hasDocument && Shows(browser.State(), theme)
    }

    /**
     * Mounting in a browser: the state starts as `getInitialTheme()`, and the effect
     * then applies it to the page.
     */
    constructor(b: Browser)
      requires b.hasDocument && b.env.hasWindow
      modifies b
      ensures browser == b && theme == InitialTheme(b.env, old(b.storage))
      ensures b.State() == ThemeApplied(true, old(b.State()), theme)
      ensures Valid()
    {
      theme := InitialTheme(b.env, b.storage);
      browser := b;
      new;
      b.ApplyTheme(theme);
      ApplyThemeEffect(old(b.State()), theme);
    }

    /**
     * `toggleTheme` and the render it causes: the updater flips the theme and saves it,
     * the state changes (a flip never yields the same value), so the effect applies it.
     */
    method ToggleTheme()
      requires Valid()
      modifies this, browser
      ensures Valid()
      ensures theme == Toggled(old(theme))
      ensures browser.State() == ThemeApplied(true, old(browser.State()), theme)
      ensures browser.State().storage[ThemeKey] == theme
    {
      var newTheme := Toggled(theme);
      browser.storage := browser.storage[ThemeKey := newTheme];
      ghost var saved := browser.State();
      theme := newTheme;
      browser.ApplyTheme(theme);
      ToggleSaveSubsumed(old(browser.State()), theme);
      assert saved == old(browser.State()).(storage := old(browser.State()).storage[ThemeKey := theme]);
      ApplyThemeEffect(old(browser.State()), theme);
    }
  }
}
