# Wealth Connect page script, modelled in Dafny

The Wealth Connect website has one page script, `script.js`. It wires
event handlers for the navigation bar, the scroll-reveal animations, the
portfolio filter, the contact form and a checkbox pre-fill from the query
string. This project takes the logic inside those handlers out of the
browser and states it over plain state. Page elements become records in
arrays, or small classes whose fields the handlers update in place. The
inputs the browser supplies become parameters: the scroll offset, the
viewport height, each element's bounding-box top, the fields the
browser's `FormData` yields and the parsed query-string pairs.

Modules, one per behaviour of the script:

- `ContactForm` (`contact_form.dfy`): the submit handler's flattening of the
  form fields into an object. `FlattenSpec` defines the object field by
  field. `Flatten` is the handler's loop, proved equal to it. Each name's
  property is also characterised on its own: `Shape` reads it straight off
  that name's values. The first non-empty value that has a later value
  after it starts the array. If there is no such value, the last value
  stays a scalar. This is where JavaScript truthiness shows: a stored
  empty string does not count as present.
- `PortfolioFilter` (`portfolio_filter.dfy`): a click on a filter button.
  The button becomes the only active one. Each card takes the show path or
  the hide path. The module states both the immediate effect and the state
  a card settles in once its own deferred callback has run.
- `ScrollReveal` (`scroll_reveal.dfy`): `revealOnScroll` passes, including
  passes replayed over any sequence of scroll events, and the
  reduced-motion branch that reveals everything.
- `Navigation` (`navigation.dfy`): the "scrolled" threshold, the menu
  toggle with its three-bar icon, and the menu links that close the menu.
- `UrlPrefill` (`url_prefill.dfy`): `URLSearchParams.get` over parsed pairs,
  and the two checkbox decisions.
- `Options` (`options.dfy`): the `Option` type, used for a value that
  JavaScript may leave `undefined` or `null`.

The script is sometimes described as skipping silently any behaviour whose
elements are missing. The code does not do that everywhere, and the model
follows the code. `handleNavScroll` (script.js:17-26) and the submit
handler's writes (script.js:149-153) dereference their elements without a
check. The models of those handlers assume the elements exist.

## Model

| member | source | states |
|---|---|---|
| `ContactForm.Truthy` | script.js:135 | The `if (data[key])` test on a stored property. Its contract says that the only stored property that counts as absent is the empty-string scalar. Every array counts as present. |
| `ContactForm.Step` | script.js:135-141 | The property becomes (or stays) an array exactly when the stored property is truthy. Otherwise it is the new value as a scalar. An array always ends with the new value. |
| `ContactForm.FlattenSpec` | script.js:133-143 | The flattened object's property names are exactly the distinct names among the fields. |
| `ContactForm.CollapseIsShape` | script.js:135-141 | Feeding one name's values one at a time ends in the shape read directly off those values. An empty string stays a scalar that the next value replaces. The array starts at the first non-empty value that has a later value. |
| `ContactForm.FlattenPerName` | script.js:134-143 | A name's property depends only on that name's own values, in order. Fields with other names never touch it. |
| `ContactForm.FlattenShape` | script.js:133-143 | Every field name is a property of the object, and its value is the shape of that name's values. |
| `ContactForm.SingleValueIsScalar` | script.js:140-141 | A name submitted once maps to that one value, as a scalar. |
| `ContactForm.RepeatedValuesFormList` | script.js:135-139 | A name submitted n ≥ 2 times, with no empty value, maps to an array of exactly those n values in submission order. |
| `ContactForm.EmptyValueIsReplaced` | script.js:135-141 | When the stored property is the empty string, the next value for that name replaces it instead of starting an array. No other property changes. |
| `ContactForm.ListGrowsByOne` | script.js:135-139 | Once a name holds an array, each later value for it appends exactly one element. No other property changes. |
| `ContactForm.ExampleSubmission` | script.js:133-143 | Fields name=A, email=b@x.com, service=web, service=seo give scalars for name and email and the ordered array ["web", "seo"] for service. |
| `ContactForm.Flatten` | script.js:132-143 | The handler's in-place loop, with its wrap-then-push branch, builds exactly the object `FlattenSpec` defines. Its keys are the field names, and each value is the shape of that name's values. |
| `ContactForm.ContactPanel.Submit` | script.js:128-153 | Submitting logs the flattened object, hides the form's content (display "none") and shows the success message. |
| `PortfolioFilter.Matches` | script.js:101 | The card-match test: the filter is "all", or it equals the card's category. A missing attribute equals a missing attribute. It has no contract of its own. `ShowPathIffMatches`, `SettledVisibility` and the contracts of `FilterCard` and `Settle` state what follows from it. |
| `PortfolioFilter.Activate` | script.js:92-93 | The buttons after a click. Its only contract is that the number of buttons is unchanged. `ExactlyClickedActive` states that only the clicked button is active. |
| `PortfolioFilter.FilterCard` | script.js:99-113 | The immediate effect of a click on one card. The category never changes. The show path leaves opacity and transform alone, and the hide path leaves display alone for the deferred callback. |
| `PortfolioFilter.FilterCards` | script.js:98-113 | The immediate effect of a click on every card. Its only contract is that the number of cards is unchanged. `ShowPathIffMatches` and `AllShowsEveryCard` state which path each card takes. |
| `PortfolioFilter.Settle` | script.js:103-112 | The deferred callback a card's path scheduled. The category never changes. The fade-in leaves display alone, and the collapse leaves opacity and transform alone. `SettledVisibility` states the resulting visibility. |
| `PortfolioFilter.ExactlyClickedActive` | script.js:92-93 | After a click, a button is active exactly when it is the clicked one. No button's filter attribute changes. |
| `PortfolioFilter.ShowPathIffMatches` | script.js:99-113 | A card that matches the filter ("all", or equal to its category, with a missing attribute equal to a missing attribute) only has its display reset. Any other card only gets opacity "0" and transform "translateY(20px)". |
| `PortfolioFilter.AllShowsEveryCard` | script.js:101-102 | With filter "all", every card takes the show path. |
| `PortfolioFilter.SettledVisibility` | script.js:101-112 | Once its own deferred callback has run, a card is displayed, with display "" and opacity "1", exactly when it matches the filter, whatever its earlier state. |
| `PortfolioFilter.Click` | script.js:88-116 | The click handler updates the button and card arrays in place to `Activate` and `FilterCards`, using the clicked button's filter. With no cards there is no listener, so nothing changes. |
| `ScrollReveal.InRevealZone` | script.js:72 | The reveal test `top < innerHeight - 100`. It has no contract of its own. `PassActivates` and `ReplayRevealsEveryVisited` state what follows from it. |
| `ScrollReveal.Pass` | script.js:69-75 | One pass over the elements. Its only contract is that the number of elements is unchanged. `PassActivates`, `PassMonotone` and `PassIdempotent` state what the pass does. |
| `ScrollReveal.PassActivates` | script.js:69-75 | After a pass, an element is active exactly when it was already active or its top is above innerHeight − 100. Positions do not change. |
| `ScrollReveal.PassMonotone` | script.js:69-75 | A pass never removes an element from the active set. |
| `ScrollReveal.PassIdempotent` | script.js:65-76 | For fixed positions and viewport height, a second pass changes nothing. |
| `ScrollReveal.ReplayMonotone` | script.js:65-79 | However the page scrolls between passes, the active set only grows. |
| `ScrollReveal.ReplayRevealsEveryVisited` | script.js:65-79 | An element whose top was in the reveal zone at any scroll event is active after all of them. |
| `ScrollReveal.RevealOnScroll` | script.js:65-76 | The in-place loop leaves the elements exactly as `Pass` defines. |
| `ScrollReveal.RevealAll` | script.js:274 | With reduced motion, every reveal element becomes active, and its position is unchanged. |
| `Navigation.IsScrolled` | script.js:18 | The threshold test `scrollY > 50`. It has no contract of its own. `NavBar.HandleScroll` and `NavBar.constructor` state that the "scrolled" class follows it. |
| `Navigation.Morph` | script.js:35-43 | The icon writes of the toggle handler, and of the link handler at script.js:51-54. Its only contract is that the number of bars is unchanged. `MorphFollows`, `XIffOpen` and `TwoTogglesRestore` state what the writes do. |
| `Navigation.MorphFollows` | script.js:35-43 | After the writes, the icon shows the menu state written: the X when open, plain bars when closed. An icon that already shows that state is left as it is. |
| `Navigation.XIffOpen` | script.js:35-43 | With three bars, the X-icon transforms and the hidden middle bar are present exactly when the menu is open. |
| `Navigation.TwoTogglesRestore` | script.js:30-44 | Two toggles restore an icon that showed the menu's state. |
| `Navigation.NavBar.constructor` | script.js:17-26 | At load the "scrolled" style is set exactly when scrollY > 50, and the icon shows the closed menu. |
| `Navigation.NavBar.HandleScroll` | script.js:17-23 | `handleNavScroll` sets "scrolled" exactly when scrollY > 50. It leaves the menu alone, and the icon invariant holds afterwards exactly when it held before. |
| `Navigation.NavBar.SetIcon` | script.js:34-42 | Writes bars 0, 1 and 2 in order, for those that exist. It throws exactly when there are fewer than three, after the earlier writes. |
| `Navigation.NavBar.Toggle` | script.js:30-44 | A toggle click flips the menu, and the icon follows the new state. It throws exactly when the icon has fewer than three bars. |
| `Navigation.NavBar.CloseFromLink` | script.js:47-55 | A menu-link click always leaves the menu closed and the icon reset. |
| `Navigation.ToggleTwice` | script.js:30-44 | Two toggle clicks restore both the menu state and every bar. |
| `UrlPrefill.Get` | script.js:162-174 | `get` gives no value exactly when no pair has the name. Otherwise it gives the value of the first pair with that name. |
| `UrlPrefill.ChecksServices` | script.js:166 | The `if (serviceParam)` test: the parameter is present and non-empty. It has no contract of its own. `Prefill` and `FirstServiceDecides` state what follows from it. |
| `UrlPrefill.ChecksPortfolio` | script.js:175 | The test `interestParam === 'portfolio'`. It has no contract of its own. `Prefill` and `ServiceExample` state what follows from it. |
| `UrlPrefill.Prefill` | script.js:164-180 | The services box ends up checked exactly when it was checked already or `service` is present and non-empty. The portfolio box ends up checked exactly when it was checked already or `interest` is exactly "portfolio". Neither box is ever unchecked. |
| `UrlPrefill.FirstServiceDecides` | script.js:165-166 | Only the first `service` pair counts: an empty first value leaves the services box alone, whatever values follow. |
| `UrlPrefill.ServiceExample` | script.js:165-180 | The query string `?service=services` checks the services box and not the portfolio box. |

## Left out

- Looking up elements and registering listeners (`getElementById`, `querySelectorAll`, `addEventListener`) is browser plumbing. Elements are records in arrays or small classes. The guards that skip wiring when elements are missing are modelled only where they change behaviour: a filter click with no cards.
- The deferred `setTimeout` callbacks of the portfolio filter (script.js:103-112) are not scheduled. `Settle` states only the state a card reaches once its own callback has run. So the model does not capture the stale-timer race. An old hide callback can fire after a newer click has shown the card again, and leave it hidden.
- `animateNumber` and its `IntersectionObserver` (script.js:226-259) are not modelled. They depend on wall-clock frame times, floating-point progress and `toLocaleString`.
- The parallax handler (script.js:212-220) is purely cosmetic floating-point scaling and is not modelled.
- Smooth anchor scrolling (script.js:186-206) and the success panel's `scrollIntoView` (script.js:153) are browser scrolling side effects and are not modelled.
- `e.preventDefault()` and `console.log` (script.js:129, 146) are not modelled. The object that would be logged is returned by `ContactPanel.Submit`.
- Parsing by `FormData` and `URLSearchParams` is not modelled. Their output is taken as given sequences of (name, value) pairs. File inputs, which would give `File` values, are not modelled, so every value is a string.
- The writes to CSS custom properties in the reduced-motion branch (script.js:269-271) and the `matchMedia` query itself are not modelled. `RevealAll` is the branch taken when the preference is set.
- ContactForm.FlattenSpec: treats the object as having no inherited properties. In the script, `data[key]` for a name such as "constructor" or "toString" reads a truthy inherited member of `Object.prototype`, so such a name would be wrapped into an array on its first occurrence.
- ContactForm.FlattenSpec: models the object as a map, not an ordered object. The logged object's key order (insertion order, with integer-like names first) is not captured, since the object is only logged.
- Bounding-box tops and scroll offsets are modelled as exact reals. The double-precision values they come from compare exactly against the integer thresholds. NaN and infinities are not modelled.
- The initial markup is not part of this model. `NavBar`'s constructor assumes the page loads with the menu closed and no inline styles on the bars.
