/** `localStorage`, restricted to the two keys the dashboard reads and writes.
    The `'selectedPairs'` entry holds `JSON.stringify(list)`; the model keeps the list
    that text encodes, so `JSON.parse` of a stored value gives that list back. */
module Persistence {
  import opened Wrappers

  class Storage {
    /** `localStorage.getItem('theme')`. */
    var theme: Option<string>
    /** `localStorage.getItem('selectedPairs')`, decoded. */
    var selectedPairs: Option<seq<string>>

    constructor (theme: Option<string>, selectedPairs: Option<seq<string>>)
      ensures this.theme == theme && this.selectedPairs == selectedPairs
    {
      this.theme := theme;
      this.selectedPairs := selectedPairs;
    }
  }

  /** The value `toggleDarkMode(isDark)` stores under `'theme'`. */
  function StoredTheme(isDark: bool): (s: string)
    ensures s == "dark" || s == "light"
  {
    if isDark then "dark" else "light"
  }

  /** `savedTheme === 'dark'`: exactly the value `toggleDarkMode(true)` stores. */
  predicate IsDarkTheme(saved: Option<string>): (b: bool)
    ensures b <==> saved == Some(StoredTheme(true))
  {
    saved == Some("dark")
  }

  /** Reading back a stored theme gives the mode that was stored. */
  lemma ThemeRoundTrip(isDark: bool)
    ensures IsDarkTheme(Some(StoredTheme(isDark))) == isDark
  {
  }
}
