/**
 * The theme store (src/features/theme/themeSlice.js): one `mode` string
 * that the two reducers assign in place.
 */
module ThemeSlice {
  const Light := "light"
  const Dark := "dark"

  /** The mode `toggleTheme` moves to: 'light' becomes 'dark', anything else 'light'. */
  function Toggled(mode: string): (r: string)
    ensures r == Dark <==> mode == Light
    ensures r == Light || r == Dark
  {
    if mode == Light then Dark else Light
  }

  /** Toggling twice from either named mode restores it. */
  lemma ToggleTwiceRestores(mode: string)
    requires mode == Light || mode == Dark
    ensures Toggled(Toggled(mode)) == mode
  {
  }

  /** Any other mode is read as dark: toggling twice lands on 'dark', not on the old value. */
  lemma ToggleTwiceFromOtherMode(mode: string)
    requires mode != Light && mode != Dark
    ensures Toggled(Toggled(mode)) == Dark
  {
  }

  class ThemeStore {
    var mode: string

    constructor ()
      ensures mode == Light
    {
      mode := Light;
    }

    method ToggleTheme()
      modifies this
      ensures mode == Toggled(old(mode))
    {
      mode := if mode == Light then Dark else Light;
    }

    /** `setTheme` stores the payload as given; it is not checked against the two modes. */
    method SetTheme(payload: string)
      modifies this
      ensures mode == payload
    {
      mode := payload;
    }
  }
}
