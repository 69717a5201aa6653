# Storefront view logic: banner, product page and navigation bar

A Dafny model of the three pieces of pure logic inside the "M Kart" grocery
storefront's React client:

- **Banner** (`banner.dfy`): the home-page slideshow. Its state is the index of
  the slide on show. An autoplay tick and the "next" arrow compute
  `(prev + 1) % n`, the "previous" arrow computes `(prev - 1 + n) % n`, and a dot
  click stores its index unchecked. JavaScript's truncating `%` is written out
  (`JsRem`). The slide count is a parameter `n > 0`; the component's own list
  (`Slides`) has three entries.
- **SingleProduct** (`single_product.dfy`): the product detail page. It finds the
  first catalog product whose id matches the route id. It keeps a related list of
  up to five catalog items of the same category other than the product itself,
  in catalog order. The grid shows only the in-stock ones, while the choice
  between grid plus "See More" and the "No related products found." message
  looks at the unfiltered list. The selected thumbnail resets to the first image
  whenever the product changes, and a thumbnail click selects that image. The
  page's two effects are explicit step functions (`RelatedEffect`,
  `ThumbnailEffect`, both run by `Sync`).
- **Navbar** (`navbar.dfy`): the state `(localQuery, sharedQuery, open, user,
  pathname, showUserLogin)` driven by typing, submitting, route changes, menu and
  link clicks, the login button and the outcome of the logout request. Every
  handler returns the next state, the navigation it asks for (`request`) and the
  notification it raises (`notice`). Nothing is performed.
- Shared helpers: `Wrappers` (the `Option` type for `null`/`undefined`),
  `Sequences` (order-preserving `Filter`, `Take`, and the subsequence relation
  with its lemmas), and `Text` (the ECMAScript whitespace set, `Trim` and the
  truthiness of a trimmed string).

Two behaviours of the code worth knowing:

- Not every navigation closes the mobile menu. The cart icon (Navbar.jsx:125,
  183), the desktop links (77-78), "My Orders" in the desktop dropdown (153) and
  typing (46-48) all ask for navigation without calling `setOpen(false)`
  (`Navbar.CartClickKeepsMenuOpen`).
- The route-change effect depends on the pathname and on the context's
  `setSearchQuery` (Navbar.jsx:66). Taking that setter to be stable, the effect
  runs again only when the pathname changes, so navigating to the path already
  on show clears nothing.

## Model

| member | source | states |
|---|---|---|
| Banner.SlidesShape | client/src/components/Banner.jsx:9-34 | The banner has three slides with distinct ids. |
| Banner.JsRem | client/src/components/Banner.jsx:50-56 | JavaScript's remainder equals the dividend minus the truncated quotient times n. It lies in [0, n) for a non-negative dividend and in (-n, 0] for a negative one. It is the dividend itself on (-n, n), and the dividend minus n on [n, 2n). |
| Banner.Next | client/src/components/Banner.jsx:54-56 | From a valid index, "next" yields a valid index: the following slide, or slide 0 after the last. |
| Banner.Previous | client/src/components/Banner.jsx:50-52 | From a valid index, "previous" yields a valid index: the preceding slide, or the last slide before slide 0. |
| Banner.Tick | client/src/components/Banner.jsx:38-40 | From a valid index, the autoplay tick yields a valid index: the following slide, or slide 0 after the last. |
| Banner.DotActive | client/src/components/Banner.jsx:164-165 | A dot is drawn active exactly when its index is the current slide. |
| Banner.Step | client/src/components/Banner.jsx:37-56 | Every event the controls can produce keeps the index valid, and a dot click sets the index to exactly the dot's index with no bounds check. |
| Banner.InitialIsValid | client/src/components/Banner.jsx:6 | The banner starts on slide 0, which is valid and marks dot 0 active. |
| Banner.TickIsNext | client/src/components/Banner.jsx:38-40 | The autoplay tick computes the same transition as the "next" arrow, from every index. |
| Banner.PreviousUndoesNext | client/src/components/Banner.jsx:50-56 | "previous" after "next" returns to the starting valid index. |
| Banner.NextUndoesPrevious | client/src/components/Banner.jsx:50-56 | "next" after "previous" returns to the starting valid index. |
| Banner.NextTimesShift | client/src/components/Banner.jsx:54-56 | Up to n forward steps from a valid index add the step count, wrapping once past the last slide. |
| Banner.PreviousTimesShift | client/src/components/Banner.jsx:50-52 | Up to n backward steps from a valid index subtract the step count, wrapping once past slide 0. |
| Banner.NextCycle | client/src/components/Banner.jsx:38-56 | n forward steps (arrows or autoplay ticks) return to the starting slide. |
| Banner.NextCycleIsShortest | client/src/components/Banner.jsx:54-56 | No positive number of forward steps below n returns to the starting slide. |
| Banner.PreviousCycle | client/src/components/Banner.jsx:50-52 | n backward steps return to the starting slide. |
| Banner.PreviousCycleIsShortest | client/src/components/Banner.jsx:50-52 | No positive number of backward steps below n returns to the starting slide. |
| Banner.DotClickSelects | client/src/components/Banner.jsx:160-165 | Clicking dot k makes k the current slide, and dot k is then the only active dot. |
| Banner.ExactlyOneActiveDot | client/src/components/Banner.jsx:160-165 | On a valid index exactly one dot satisfies `currentSlide === index`. On an out-of-range index none does. |
| Banner.RunStaysValid | client/src/components/Banner.jsx:37-56 | From a valid slide, any sequence of ticks, arrow clicks and in-range dot clicks keeps the index valid. |
| Banner.OutOfRangeDotClick | client/src/components/Banner.jsx:46-48 | An out-of-range dot index is stored as is. The arrows then work on JavaScript's negative remainder. |
| Sequences.Filter | client/src/pages/SingleProduct.jsx:18-20 | Every element the filter returns satisfies the predicate and comes from the input. Every input element that satisfies the predicate is returned. The result is no longer than the input. |
| Sequences.FilterKeepsCounts | client/src/pages/SingleProduct.jsx:18-20 | The filter keeps every copy of a kept element and no copy of a dropped one. |
| Sequences.Take | client/src/pages/SingleProduct.jsx:21 | `slice(0, k)` is the prefix of length min(k, length). |
| SingleProduct.FindIndex | client/src/pages/SingleProduct.jsx:12 | The found position holds the route id and no earlier position does. With no position found, no product has the id. |
| SingleProduct.Find | client/src/pages/SingleProduct.jsx:12 | The lookup yields the first catalog product with the route id, and yields nothing exactly when no product has that id. |
| SingleProduct.RelatedOf | client/src/pages/SingleProduct.jsx:16-21 | The related list has at most 5 items. Each shares the viewed product's category and has a different id. It is an order-preserving subsequence of the catalog. It is exactly the matches in some prefix of the catalog: the whole catalog, or a prefix whose matches already reach 5. So it holds the FIRST matches. |
| SingleProduct.RelatedEffect | client/src/pages/SingleProduct.jsx:14-23 | With a non-empty catalog and a resolved product, the effect replaces the related list. Otherwise it leaves the list unchanged. It never touches the thumbnail. |
| SingleProduct.DefaultThumbnail | client/src/pages/SingleProduct.jsx:26 | The default thumbnail is the product's first image when that image is a non-empty name, and null otherwise. |
| SingleProduct.ThumbnailEffect | client/src/pages/SingleProduct.jsx:25-27 | On a product change, the selected thumbnail becomes the first image when that is a non-empty name. It becomes null exactly when there is no product, no image, or an empty first name. The related list is unchanged. |
| SingleProduct.Sync | client/src/pages/SingleProduct.jsx:14-27 | After both effects, the thumbnail is the default of the product the route names. When that product resolves, the related list is its related list, because a resolved product means a non-empty catalog. Otherwise the related list is unchanged. |
| SingleProduct.ClickThumbnail | client/src/pages/SingleProduct.jsx:57 | A thumbnail click selects the clicked image and keeps the related list. |
| SingleProduct.Section | client/src/pages/SingleProduct.jsx:166-187 | The grid and "See More" show exactly when the unfiltered related list is non-empty. The cards are its in-stock items, in order, with every copy kept, and no more of them than the list holds. |
| SingleProduct.Render | client/src/pages/SingleProduct.jsx:29-191 | Nothing renders exactly when no product has the route id. Otherwise the page shows the first catalog product with that id, the selected thumbnail as main image, and "See More" exactly when the related list is non-empty. |
| SingleProduct.SyncedPage | client/src/pages/SingleProduct.jsx:14-27 | After the effects run, a rendered page shows the first image as main image. Its related list is the related list of the product on show. Every card is an in-stock catalog item of the same category with a different id, in catalog order, at most 5. |
| SingleProduct.UnresolvedKeepsRelated | client/src/pages/SingleProduct.jsx:11-15 | With an empty catalog or an unresolved product, the related list keeps its value, which is `[]` on a fresh page. |
| SingleProduct.ThumbnailForgetsSelection | client/src/pages/SingleProduct.jsx:25-27 | The thumbnail after a product change does not depend on the thumbnail selected before. |
| SingleProduct.ClickShowsImage | client/src/pages/SingleProduct.jsx:54-80 | After a thumbnail click, the page shows the same product with the same images, the clicked image as main image, and the same related section. |
| SingleProduct.SeeMoreWithoutCards | client/src/pages/SingleProduct.jsx:166-186 | A related list whose items are all out of stock renders "See More" above an empty grid. |
| Text.Trim | client/src/components/Navbar.jsx:46 | `trim` returns a slice of the input with only whitespace outside it, and with no whitespace at either end of the result. |
| Text.HasTextIffNonSpace | client/src/components/Navbar.jsx:46 | `value.trim()` is truthy exactly when the value holds a non-whitespace character. |
| Navbar.HandleSearchInput | client/src/components/Navbar.jsx:40-49 | Typing sets the local and the shared query to the typed value and changes nothing else. It asks for "/products" exactly when the pathname is not "/products" and the value holds a non-whitespace character. |
| Navbar.HandleSearch | client/src/components/Navbar.jsx:52-58 | Submitting with non-whitespace text asks for "/products" and closes the menu. Submitting blank text changes nothing and asks for nothing. |
| Navbar.ClearSearch | client/src/components/Navbar.jsx:61-66 | Away from "/products" both queries become empty. On "/products" nothing changes. No other field ever changes. |
| Navbar.HandleRouteChange | client/src/components/Navbar.jsx:61-66 | A new pathname other than "/products" empties both queries. "/products" or an unchanged pathname keeps them. No other field changes and no navigation is asked for. |
| Navbar.Mount | client/src/components/Navbar.jsx:8-66 | The bar starts closed with an empty local query. Away from "/products" the shared query is cleared too. |
| Navbar.HandleLogout | client/src/components/Navbar.jsx:24-37 | A successful logout signs the user out, asks for "/" and raises a success notice. A failure response or an error leaves the state unchanged, asks for nothing, and raises an error notice with the message. |
| Navbar.Step | client/src/components/Navbar.jsx:70-309 | The menu toggle negates `open`. The logo and mobile links close the menu and ask for their path. Desktop links and the cart icon only ask for their path. The login button only closes the menu and shows the login form. A mobile logout click only closes the menu. No event other than a settled logout raises a notification. |
| Navbar.ClearSearchIdempotent | client/src/components/Navbar.jsx:61-66 | Clearing the search twice is the same as clearing it once. |
| Navbar.ToggleTwice | client/src/components/Navbar.jsx:204 | Two menu toggles restore the state. |
| Navbar.TypeThenArrive | client/src/components/Navbar.jsx:40-66 | Typing real text away from "/products" asks for "/products". Arriving there keeps the typed text in both queries. |
| Navbar.StepKeepsQueriesInSync | client/src/components/Navbar.jsx:39-66 | No event makes the local and the shared query differ once they are equal. |
| Navbar.RunKeepsQueriesInSync | client/src/components/Navbar.jsx:39-66 | Over any sequence of events, equal local and shared queries stay equal. |
| Navbar.RunOnlySignsOut | client/src/components/Navbar.jsx:24-37 | Over any run, the user is unchanged or signed out, and signed out only if a successful logout outcome occurred. |
| Navbar.RunRequestsKnownPaths | client/src/components/Navbar.jsx:29-309 | Every navigation the bar asks for goes to "/", "/products", "/cart" or "/my-orders". |
| Navbar.CartClickKeepsMenuOpen | client/src/components/Navbar.jsx:181-184 | The cart icon asks for "/cart" and leaves an open menu open. |

## Left out

- Timer scheduling: the 5000 ms interval and its teardown on unmount are runtime concurrency. An autoplay tick is an event (`AutoplayTick`) the caller applies.
- Banner.Step: the slide count is a parameter `n > 0`. With the component's constant three-slide list the source never divides by zero, so the NaN of `% 0` is not modelled. Nor are non-integer dot indices.
- Rendering: JSX markup, CSS classes, SVGs, image URLs, the slide strip's `translateX` offset, the breadcrumb links, and the choice of markup on whether a user is signed in.
- React effect scheduling: each effect is a step function (`RelatedEffect`, `ThumbnailEffect`, `ClearSearch`), and the caller runs it when its inputs change. React re-runs the product page's effects when the resolved product changes identity, including after the catalog is re-fetched; in the model the caller decides when the product has changed.
- Navbar.HandleRouteChange: the effect also depends on `setSearchQuery` (Navbar.jsx:66). The context is assumed to pass a stable state setter, so only a pathname change runs the effect again.
- The product page's "Add to Cart", "Buy Now" and "See More" buttons: they call `addToCart`, `navigate` and `window.scrollTo`, which belong to the shared context and the browser.
- The logout HTTP request: only its three outcomes are modelled, as the input of `LogoutSettled`. Toasts are recorded as a `Notice` output, not shown.
- The cart count shown on the cart icon: it is a foreign call (`cartCount()`) with no local logic.
- Context state written by other components: the shared search query, `user` and `showUserLogin` can also change outside the bar. `Navbar.RunKeepsQueriesInSync` and `Navbar.RunOnlySignsOut` hold over the bar's own events only.
- Prices are `real`; JavaScript's floating-point numbers are not modelled, and no arithmetic is done on them.
