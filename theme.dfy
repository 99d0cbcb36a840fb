/**
 * The light/dark theme switch of assets/js/theme.js.
 *
 * `localStorage` is a map from keys to strings and the attributes of the root
 * element (`document.documentElement`) are another; both live in a `Document`
 * object whose methods are the script's functions.
 */
module Theme {
  import opened Dom

  const ThemeKey := "theme"
  const ThemeAttr := "data-theme"
  const Light := "light"
  const Dark := "dark"

  /** `localStorage.getItem(key)`: the stored string, or null when the key is absent. */
  function GetItem(storage: map<string, string>, key: string): (v: Option<string>)
    ensures v.Some? <==> key in storage
    ensures v.Some? ==> v.value == storage[key]
  {
    if key in storage then Some(storage[key]) else None
  }

  /** JavaScript truthiness of what `getItem` returns: null and the empty string are falsy. */
  predicate Truthy(v: Option<string>) {
    v.Some? && v.value != ""
  }

  /**
   * The theme `getTheme` resolves: the saved value when it is truthy,
   * otherwise dark. The saved value is not checked against light/dark.
   */
  function ResolveTheme(storage: map<string, string>): (t: string)
    ensures t != ""
    ensures ThemeKey in storage && storage[ThemeKey] != "" ==> t == storage[ThemeKey]
    ensures ThemeKey !in storage || storage[ThemeKey] == "" ==> t == Dark
  {
    var saved := GetItem(storage, ThemeKey);
    if Truthy(saved) then saved.value else Dark
  }

  /** The `next` value of `toggleTheme`: dark after light, light after anything else. */
  function NextTheme(current: string): (next: string)
    ensures next == Light || next == Dark
    ensures next == Dark <==> current == Light
  {
    if current == Light then Dark else Light
  }

  /** The storage `toggleTheme` leaves behind. */
  function Toggled(storage: map<string, string>): (s: map<string, string>)
    ensures ThemeKey in s && (s[ThemeKey] == Light || s[ThemeKey] == Dark)
    ensures s[ThemeKey] == Dark <==> ResolveTheme(storage) == Light
    ensures forall k :: k != ThemeKey ==> GetItem(s, k) == GetItem(storage, k)
  {
    storage[ThemeKey := NextTheme(ResolveTheme(storage))]
  }

  /** The storage after `n` clicks of the theme toggle. */
  function ToggledTimes(storage: map<string, string>, n: nat): map<string, string>
  {
    if n == 0 then storage else Toggled(ToggledTimes(storage, n - 1))
  }

  class Document {
    /** `localStorage` */
    var storage: map<string, string>
    /** The attributes of `document.documentElement`. */
    var rootAttrs: map<string, string>

    constructor (storage0: map<string, string>, rootAttrs0: map<string, string>)
      ensures storage == storage0 && rootAttrs == rootAttrs0
    {
      storage := storage0;
      rootAttrs := rootAttrs0;
    }

    /** `getTheme()` */
    method GetTheme() returns (t: string)
      ensures t == ResolveTheme(storage)
    {
      var saved := GetItem(storage, ThemeKey);
      if saved.Some? && saved.value != "" {
        return saved.value;
      }
      return Dark;
    }

    /** `setTheme(theme)`: the attribute and the storage entry, unvalidated. */
    method SetTheme(theme: string)
      modifies this
      ensures rootAttrs == old(rootAttrs)[ThemeAttr := theme]
      ensures storage == old(storage)[ThemeKey := theme]
    {
      rootAttrs := rootAttrs[ThemeAttr := theme];
      storage := storage[ThemeKey := theme];
    }

    /** `toggleTheme()` */
    method ToggleTheme()
      modifies this
      ensures storage == Toggled(old(storage))
      ensures rootAttrs == old(rootAttrs)[ThemeAttr := Toggled(old(storage))[ThemeKey]]
    {
      var current := GetTheme();
      var next := if current == Light then Dark else Light;
      SetTheme(next);
    }

    /** `watchSystemTheme()`: a deliberate no-op; the site does not follow the OS preference. */
    method WatchSystemTheme()
      ensures storage == old(storage) && rootAttrs == old(rootAttrs)
    {
    }
  }

  /**
   * After `setTheme(t)`, `getTheme()` returns `t`, except that an empty `t` is
   * falsy once read back and resolves to dark.
   */
  lemma SetThenGet(storage: map<string, string>, t: string)
    ensures ResolveTheme(storage[ThemeKey := t]) == if t == "" then Dark else t
  {
  }

  /** `setTheme` is idempotent and touches no storage key but `theme`. */
  lemma SetThemeFrame(storage: map<string, string>, t: string)
    ensures storage[ThemeKey := t][ThemeKey := t] == storage[ThemeKey := t]
    ensures forall k :: k != ThemeKey ==> GetItem(storage[ThemeKey := t], k) == GetItem(storage, k)
  {
  }

  /**
   * Toggling twice gives back the resolved theme exactly when it was light or
   * dark (the unset case resolves to dark); an unrecognised saved value is
   * replaced by dark.
   */
  lemma ToggleTwice(storage: map<string, string>)
    ensures ResolveTheme(Toggled(Toggled(storage))) == ResolveTheme(storage)
            <==> ResolveTheme(storage) == Light || ResolveTheme(storage) == Dark
    ensures ResolveTheme(storage) != Light ==> ResolveTheme(Toggled(Toggled(storage))) == Dark
  {
  }

  /**
   * After `n` > 0 clicks the resolved theme depends only on the parity of `n`
   * and on whether the starting theme was light.
   */
  lemma {:induction false} ToggledTimesParity(storage: map<string, string>, n: nat)
    requires n > 0
    ensures ResolveTheme(ToggledTimes(storage, n))
            == if (n % 2 == 0) == (ResolveTheme(storage) == Light) then Light else Dark
  {
    if n > 1 {
      ToggledTimesParity(storage, n - 1);
    }
  }
}
