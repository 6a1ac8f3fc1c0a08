/**
 * The theme store: a bright/dark switch held by the provider and mirrored into the
 * `theme` key of the browser storage and the page's `data-theme` attribute.
 */
module Theme {
  import opened Common
  import opened Web

  const Bright := "bright"
  const Dark := "dark"

  /** The theme on first render: the stored name, or bright when nothing (or "") is stored. */
  function InitialTheme(stored: Option<string>): (t: string)
    ensures t != ""
    ensures Truthy(stored) ==> t == stored.value
    ensures !Truthy(stored) ==> t == Bright
  {
    OrElse(stored, Bright)
  }

  /** `toggleTheme`'s update: bright becomes dark, and every other name becomes bright. */
  function Toggled(prev: string): (t: string)
    ensures t == Bright || t == Dark
    ensures t == Dark <==> prev == Bright
    ensures (prev == Bright || prev == Dark) ==> t != prev
  {
    if prev == Bright then Dark else Bright
  }

  /** Toggling twice restores bright and dark; any other stored name ends up dark. */
  lemma ToggleTwice(t: string)
    ensures (t == Bright || t == Dark) ==> Toggled(Toggled(t)) == t
    ensures !(t == Bright || t == Dark) ==> Toggled(Toggled(t)) == Dark
  {
  }

  /** What a hook call gives back: the value, or the error it throws. */
  datatype Hooked<T> = Returned(value: T) | Threw(message: string)

  const OutsideProvider := "useTheme must be used within ThemeProvider"

  /** `useTheme`: the nearest provider's value; outside any provider it throws. */
  function UseTheme<C>(context: Option<C>): (r: Hooked<C>)
    ensures r.Returned? <==> context.Some?
    ensures r.Returned? ==> r.value == context.value
    ensures r.Threw? ==> r.message == OutsideProvider
  {
    if context.Some? then Returned(context.value) else Threw(OutsideProvider)
  }

  /**
   * The provider's state.  `dataTheme` is the `data-theme` attribute of the document
   * element.  The effect that runs whenever `theme` changes writes it to both places.
   */
  class ThemeProvider {
    var theme: string
    var dataTheme: string
    const storage: BrowserStorage

    /** The persistence effect has run: storage and the page agree with the state. */
    predicate Persisted()
      reads this, storage
    {
      storage.theme == Some(theme) && dataTheme == theme
    }

    /** Mounting: the initial theme is read from storage and the effects write it back. */
    constructor (storage: BrowserStorage)
      modifies storage
      ensures this.storage == storage
      ensures theme == InitialTheme(old(storage.theme))
      ensures Persisted()
      ensures storage.user == old(storage.user)
    {
      this.storage := storage;
      var t := InitialTheme(storage.theme);
      theme := t;
      dataTheme := t;
      storage.theme := Some(t);
    }

    /** `setTheme(t)`; the effect runs only when the value changes, which keeps it persisted. */
    method SetTheme(t: string)
      requires Persisted()
      modifies this, storage
      ensures theme == t && Persisted()
      ensures storage.user == old(storage.user)
    {
      if t != theme {
        theme := t;
        storage.theme := Some(t);
        dataTheme := t;
      }
    }

    /** `toggleTheme()`: the state moves to `Toggled` of the previous value and is persisted. */
    method ToggleTheme()
      requires Persisted()
      modifies this, storage
      ensures theme == Toggled(old(theme)) && Persisted()
      ensures storage.user == old(storage.user)
    {
      SetTheme(Toggled(theme));
    }
  }
}
