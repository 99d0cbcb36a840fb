# Page scripts of a static site, modelled in Dafny

The site ships two browser scripts. `assets/js/theme.js` keeps a light/dark
theme preference in `localStorage` and mirrors it into the root element's
`data-theme` attribute. `assets/js/main.js` wires up the page: a mobile sidebar
menu, highlighting of the current nav link, new-tab annotation of external
links, native lazy loading of images, and a "copy code" button on code blocks.

This project models the rules under that browser glue. The DOM and storage are
abstract state: a storage map and an attribute map in a class (`Theme`), a
class of sidebar state (`MobileMenu`), and arrays of element records that the
page-load passes update in place (`NavHighlight`, `ExternalLinks`, `LazyLoad`).
Events are method calls. The viewport width, the page path and host, the
outcome of the clipboard write and the lazy-loading feature test are all
parameters.

Behaviour of the code that the model keeps on purpose:

- `getTheme` returns any truthy stored value, including one that is neither
  `light` nor `dark`. An empty stored value is falsy and resolves to `dark`.
  So after `setTheme("")`, `getTheme` gives `dark`, not `""` (`Theme.SetThenGet`).
- Toggling twice restores the resolved theme only when it was `light` or
  `dark`. An unrecognised stored value becomes `dark` (`Theme.ToggleTwice`).
- Nav matching compares characters, not path segments: `/blog` is active on
  `/blogroll`. A link with an empty `href` is active on every page. For a link
  with no `href`, `startsWith` receives null and compares against the string
  "null" (`NavHighlight.SearchString`).
- An external link gets `rel="noopener noreferrer"` even if it already had a
  `rel`. Only a `target` attribute makes the pass skip a link.
- The menu's `aria-expanded` comes from the page markup until the first
  handler writes it. From the first toggle click on, it always mirrors the
  sidebar (`MobileMenu.RunMirrorsAfterToggle`).
- This theme script follows the fixed-dark variant. `watchSystemTheme` is a
  no-op and nothing reads the OS colour-scheme preference.

## Model

| member | source | states |
|---|---|---|
| Theme.GetItem | assets/js/theme.js:12 | `getItem` yields the stored string exactly when the key is present, and null otherwise |
| Theme.ResolveTheme | assets/js/theme.js:11-19 | the resolved theme is never empty; it is the stored value when that is present and non-empty, and `dark` when it is absent or empty |
| Theme.NextTheme | assets/js/theme.js:30 | the next theme is always `light` or `dark`, and it is `dark` exactly when the current one is `light` |
| Theme.Toggled | assets/js/theme.js:28-32 | after a toggle the stored `theme` is `light` or `dark`; it is `dark` iff the resolved theme was `light`; no other key changes |
| Theme.Document.GetTheme | assets/js/theme.js:11-19 | the method returns the resolved theme of the current storage |
| Theme.Document.SetTheme | assets/js/theme.js:22-25 | sets the `data-theme` attribute and the `theme` entry to the argument, unvalidated, with nothing else changed |
| Theme.Document.ToggleTheme | assets/js/theme.js:28-32 | storage becomes the toggled storage, and the attribute gets the same next value |
| Theme.Document.WatchSystemTheme | assets/js/theme.js:46-50 | storage and attributes are unchanged |
| Theme.SetThenGet | assets/js/theme.js:11-25 | after setting `t`, the theme resolves to `t`, or to `dark` when `t` is empty |
| Theme.SetThemeFrame | assets/js/theme.js:22-25 | setting a theme twice is the same as setting it once, and every other storage key reads as before |
| Theme.ToggleTwice | assets/js/theme.js:11-32 | two toggles restore the resolved theme iff it was `light` or `dark`; otherwise it ends up `dark` |
| Theme.ToggledTimesParity | assets/js/theme.js:28-32 | after n > 0 toggles, the resolved theme is fixed by the parity of n and by whether it started `light` |
| MobileMenu.BoolString | assets/js/main.js:17-18 | a boolean written as an attribute reads `"true"` exactly when it is true, and `"false"` otherwise |
| MobileMenu.OnToggleClick | assets/js/main.js:13-19 | a toggle click flips `open`, leaves the other classes alone, and makes `aria-expanded` mirror the new state |
| MobileMenu.OnOverlayClick | assets/js/main.js:23-26 | an overlay click ends closed with `aria-expanded="false"` from any state, and only `open` is removed |
| MobileMenu.OnSidebarLinkClick | assets/js/main.js:32-37 | a link click closes the menu with `aria-expanded="false"` when the viewport is at most 1024 wide; otherwise nothing changes |
| MobileMenu.OnKeyDown | assets/js/main.js:41-46 | a key press changes the state only when it is Escape on an open menu, and then closes it with `aria-expanded="false"` |
| MobileMenu.StepKeepsMirror | assets/js/main.js:11-46 | every handler keeps `aria-expanded` mirroring the sidebar once it does |
| MobileMenu.RunKeepsMirror | assets/js/main.js:11-46 | the mirror invariant survives any sequence of events |
| MobileMenu.RunMirrorsAfterToggle | assets/js/main.js:13-19 | after any event sequence that contains a toggle click, `aria-expanded` mirrors the sidebar, whatever the markup started with |
| MobileMenu.ToggleTwice | assets/js/main.js:13-19 | two toggle clicks give back the sidebar's classes; from closed, `aria-expanded` then reads `"false"` |
| MobileMenu.OverlayIdempotent | assets/js/main.js:23-26 | a second overlay click changes nothing |
| MobileMenu.MenuWidgets.constructor | assets/js/main.js:6-11 | the widgets start from the markup's classes and attribute, and the overlay listener exists iff the page has an overlay |
| MobileMenu.MenuWidgets.ToggleClicked | assets/js/main.js:13-19 | the toggle-click handler's new state is the one `OnToggleClick` specifies |
| MobileMenu.MenuWidgets.OverlayClicked | assets/js/main.js:22-26 | the overlay handler's new state is the one `OnOverlayClick` specifies |
| MobileMenu.MenuWidgets.SidebarLinkClicked | assets/js/main.js:30-37 | the link-click handler's new state is the one `OnSidebarLinkClick` specifies |
| MobileMenu.MenuWidgets.KeyPressed | assets/js/main.js:41-46 | the keydown handler's new state is the one `OnKeyDown` specifies |
| NavHighlight.RootIsExact | assets/js/main.js:58 | the root link `/` is active iff the path is exactly `/` |
| NavHighlight.OtherIsPrefix | assets/js/main.js:62 | any other link is active on every path that begins with its href, and only there; an empty href is active everywhere |
| NavHighlight.MarkActive | assets/js/main.js:55-64 | a link keeps its href; only `active` may be added, never a class removed; it ends `active` iff it already was or it matches the path |
| NavHighlight.Highlighted | assets/js/main.js:54-65 | the pass keeps one entry per link |
| NavHighlight.HighlightedAt | assets/js/main.js:54-65 | each link after the pass is that link marked by the match rule on its own |
| NavHighlight.HighlightedIdempotent | assets/js/main.js:54-65 | running the pass again changes nothing |
| NavHighlight.HighlightActiveNav | assets/js/main.js:50-66 | the in-place loop leaves the array equal to the highlighted list of its old contents |
| ExternalLinks.Annotate | assets/js/main.js:94-106 | a link changes iff its href starts with `http`, it has no `target` and its host differs from the page's; it then gets `target="_blank"` and `rel="noopener noreferrer"` and nothing else |
| ExternalLinks.Annotated | assets/js/main.js:94-106 | the pass keeps one entry per link |
| ExternalLinks.AnnotatedAt | assets/js/main.js:94-106 | each link after the pass is that link annotated on its own |
| ExternalLinks.AnnotatedOutcome | assets/js/main.js:94-106 | after the pass every selected cross-host link has a target; same-host and unselected links are unchanged |
| ExternalLinks.AnnotatedIdempotent | assets/js/main.js:94-106 | running the pass again changes nothing |
| ExternalLinks.InitExternalLinks | assets/js/main.js:91-107 | the in-place loop leaves the array equal to the annotated list of its old contents |
| LazyLoad.Loaded | assets/js/main.js:115-116 | an image ends with no `data-src`; if it had one, its `src` is the old `data-src`; otherwise it is unchanged |
| LazyLoad.LoadedAll | assets/js/main.js:113-117 | the pass keeps one entry per image |
| LazyLoad.LoadedAllAt | assets/js/main.js:113-117 | each image after the pass is that image loaded on its own |
| LazyLoad.LoadedAllSettles | assets/js/main.js:113-117 | after the pass no image has a `data-src`, so a second pass changes nothing |
| LazyLoad.InitLazyLoad | assets/js/main.js:110-124 | with native support the images become the loaded list and no polyfill is requested; without it the images are unchanged and the lazysizes URL is requested |
| CodeCopy.OutcomeLabel | assets/js/main.js:138-150 | the label after the write is never `Copy`; it is `Copied!` iff the write succeeded and `Failed` iff it failed |
| CodeCopy.CopyButton.constructor | assets/js/main.js:132-135 | a new button reads `Copy`, with class `copy-code-btn` and its aria label, and no timer pending |
| CodeCopy.CopyButton.WriteSettled | assets/js/main.js:139-146 | once the write settles the label shows its outcome and one more revert timer is pending; the label invariant holds |
| CodeCopy.CopyButton.RevertFired | assets/js/main.js:141-149 | a firing timer sets the label back to `Copy`; the label is one of the three, and it is `Copy` whenever no timer is pending |

## Left out

- Finding elements and registering listeners (`querySelector*`, `addEventListener`) is not modelled, nor is the `readyState`/`DOMContentLoaded` start-up of either script. Each event is a method call and each page-load pass is a method over an array.
- `initThemeToggle` is not modelled beyond its effect. Each click of `#theme-toggle` is one `ToggleTheme` call, and `ToggledTimes` counts repeated clicks.
- The early return of `initMobileMenu` when the toggle or the sidebar is missing is left out. The model assumes both exist.
- Hostnames are not parsed from URLs. Each anchor's hostname is a field and the page's hostname is a parameter. The exception `new URL` would throw on an unparsable `href` is not modelled.
- The `innerWidth` of `window` and the path and hostname of `window.location` are parameters, not state.
- `initSmoothScroll` is not modelled. It only calls `scrollIntoView` and `history.pushState`, which are browser effects with no state in this model.
- The clipboard write, the 2-second `setTimeout` and `console.error` are not modelled as such. The write's outcome is the `success` input, and each timer is only counted as pending until it fires.
- The button's placement (`pre.style.position`, `appendChild`) is not modelled.
- Fetching and running the lazysizes polyfill is not modelled. The method only returns its URL, and the feature test on `HTMLImageElement.prototype` is a boolean input.
- Exceptions from `localStorage` (storage disabled, quota exceeded) are not modelled.
