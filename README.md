# Smart vending client core, modelled in Dafny

This project models the logic of the smart-vending web client that has real
decisions in it. It also models the one selection loop of the backend.

- **Discovery.** The dashboard finds the user's position: GPS first, then an IP
  lookup. It computes distances to machines and products, and a zero coordinate
  counts as missing. It orders what it shows under three policies:
  - machines by proximity;
  - search results by proximity, with higher stock first for results within 50 m
    of each other;
  - a machine's inventory by stock, after a case-insensitive name filter.
- **Stock sync.** The dashboard keeps its product lists in step with a push
  channel. An `inventory_deducted` frame decrements stock, never below zero. A
  closed channel is reopened three seconds later.
- **Session and checkout.** The client keeps a session (`token`, `user_id`) in
  browser storage. Two route guards decide from it what a visitor sees. The
  simulated checkout page refuses a stale user id and picks its failure message
  by a fixed precedence.
- **Backend.** The `/nearest-machine` endpoint scans the machines for the first
  one of least distance. It answers only an empty machine table, with its error
  body. For any other table the request ends in an internal server error. A row
  without coordinates makes `math.radians(None)` raise. Otherwise the payload reads
  `nearest.location`, an attribute the machine table does not have
  (smart-vending/backend/models.py:12-18).

Every JavaScript value that the code tests for truthiness is modelled with its
falsy cases:
- `JsNum` is `Missing` or a number, and `0` is falsy.
- `JsVal` is `undefined`, `null` or a string, and the empty string is falsy.

`Array.prototype.sort` is one stable insertion sort on an array, generic in its
comparator (`ArraySort`). Route paths are matched as React Router v6 matches
them by default: ASCII letter case is ignored, and so are trailing slashes. A comparator result of `NaN` (`Infinity - Infinity`)
is `0`, as in the ECMAScript sort. Distances are whole metres from an abstract
haversine function.

Two behaviours of the code are worth stating on their own:
- A reconnect timer armed before the dashboard unmounts is not cancelled. It
  still opens a socket on the unmounted page (`LiveSync.ReconnectAfterUnmount`).
- The backend's `/login` reply carries only `access_token`
  (smart-vending/backend/routers/user.py:32). So the client stores `user_id` as
  the string `"undefined"`, and every simulated purchase is refused as stale
  (`Checkout.BackendLoginIsStale`).

Modules:
- `Js`: truthiness, `trim`, `toLowerCase` and `includes`.
- `Filtering`: `Array.prototype.filter`.
- `ArraySort`: the in-place sort and its sortedness, permutation and stability lemmas.
- `Catalog`: records, distance guard, sort keys, comparators, filters and the deduction merge.
- `Rankings`: the three derived orderings.
- `Position`: the GPS/IP fallback.
- `LiveSync`: the reconnect state machine.
- `Dashboard`: the page's state object.
- `Auth`: the session store.
- `Checkout`: the checkout page.
- `Routes`: the route guards and route table.
- `NearestMachine`: the backend selection loop.

## Model

| member | source | states |
|---|---|---|
| Catalog.CalculateDistance | frontend/src/pages/Dashboard.jsx:37-55 | null exactly when one of the four coordinates is falsy (missing or 0); otherwise the haversine distance in metres |
| Catalog.ZeroCoordinateIsMissing | frontend/src/pages/Dashboard.jsx:38-41 | a legitimate coordinate of 0 (equator, prime meridian) yields a null distance |
| Catalog.KeyOf | frontend/src/pages/Dashboard.jsx:294-295 | `parseFloat(d) \|\| Infinity`: a key is finite exactly for a non-null, non-zero distance, and then equals it |
| Catalog.KeyDifference | frontend/src/pages/Dashboard.jsx:296 | `distA - distB` read as a sort verdict: negative iff the first key is smaller, positive iff larger, zero iff equal (two infinite keys tie) |
| Catalog.InventoryFilter | frontend/src/pages/Dashboard.jsx:133 | keeps, with their multiplicities, exactly the products with no machine id (absent or 0) or the selected machine's id |
| Catalog.InventoryFilterKeepsOrder | frontend/src/pages/Dashboard.jsx:133 | the kept products stay in the order the reply listed them |
| Catalog.ProximityCompare | frontend/src/pages/Dashboard.jsx:293-297 | negative exactly when the first machine's key is smaller, positive exactly when it is larger |
| Catalog.SearchCompare | frontend/src/pages/Dashboard.jsx:306-317 | without a location, or for keys within 50 m of each other, higher stock first and equal stock a tie; otherwise negative exactly when the first key is smaller, positive exactly when it is larger; two unresolved distances tie |
| Catalog.StockCompare | frontend/src/pages/Dashboard.jsx:324 | negative exactly when the first product has more stock; zero exactly for equal stock |
| Catalog.ApplyDeduction | frontend/src/pages/Dashboard.jsx:153-159 | same length and order; only `stock` can change; exactly the entries with the product id and positive stock lose one |
| Catalog.DeductionKeepsStockNonNegative | frontend/src/pages/Dashboard.jsx:154-156 | the merge never takes a stock below zero |
| Catalog.DeductionAtZeroIsNoOp | frontend/src/pages/Dashboard.jsx:155 | a frame for a product already at zero leaves the list unchanged |
| Catalog.DeductionsCommute | frontend/src/pages/Dashboard.jsx:153-159 | frames for two products can be applied in either order |
| Catalog.DeductTimesFloors | frontend/src/pages/Dashboard.jsx:153-159 | after n frames for one product a matching positive stock is max(stock - n, 0) and every other field and entry is unchanged |
| Js.TrimEmptyIffBlank | frontend/src/pages/Dashboard.jsx:106 | `search.trim() !== ''` holds exactly when the text has a non-whitespace character |
| Js.TrimStart | frontend/src/pages/Dashboard.jsx:106 | the result is a suffix that starts with a non-whitespace character, and everything removed is whitespace |
| Js.TrimEnd | frontend/src/pages/Dashboard.jsx:106 | the result is a prefix that ends with a non-whitespace character, and everything removed is whitespace |
| Js.Trim | frontend/src/pages/Dashboard.jsx:106 | the result is the text with its leading and trailing whitespace removed: it occurs in the text with only whitespace before and after it, and it neither starts nor ends with whitespace |
| Js.LowerChar | frontend/src/pages/Dashboard.jsx:323 | an ASCII capital becomes its own small letter (32 code points up); any other character is kept |
| Js.Lower | frontend/src/pages/Dashboard.jsx:323 | same length; no capital is left; every ASCII capital becomes its own small letter and every other character is kept |
| Js.LowerIgnoresCase | frontend/src/pages/Dashboard.jsx:323 | two texts that differ only in the case of ASCII letters lower to the same text, so the name filter is case-insensitive |
| Js.Includes | frontend/src/pages/Dashboard.jsx:323 | a text includes only texts no longer than itself |
| Js.IncludesEmpty | frontend/src/pages/Dashboard.jsx:323 | every name includes the empty search text |
| Filtering.Filter | frontend/src/pages/Dashboard.jsx:133 | the kept elements satisfy the test and keep their multiplicity; the others are dropped; a one-element list is kept exactly when its element passes |
| Filtering.FilterConcat | frontend/src/pages/Dashboard.jsx:133 | filtering a concatenation is the concatenation of the filtered parts, so the kept elements stay in input order |
| Filtering.FilterAll | frontend/src/pages/Dashboard.jsx:323 | filtering with a test every element passes keeps the list as it is |
| ArraySort.Sort | frontend/src/pages/Dashboard.jsx:293-297 | the sort keeps the length of its input (its order, permutation and stability are the lemmas below) |
| ArraySort.InsertPos | frontend/src/pages/Dashboard.jsx:293 | an element is inserted after every element it does not precede, and before the elements that follow it |
| ArraySort.InsertPosUnique | frontend/src/pages/Dashboard.jsx:293 | the insertion point is the one position with an element not after the new one just before it and only elements after it from there on |
| ArraySort.SortInPlace | frontend/src/pages/Dashboard.jsx:293-297 | the array becomes the stable insertion sort of its old contents |
| ArraySort.InsertInto | frontend/src/pages/Dashboard.jsx:293-297 | one pass of the sort: the prefix gains the next element at its insertion position, and the rest of the array is unchanged |
| ArraySort.ShiftRight | frontend/src/pages/Dashboard.jsx:293-297 | the inner loop shifts right by one exactly the trailing elements the comparator puts after the new element, leaves the rest, and returns the gap |
| ArraySort.SortPermutes | frontend/src/pages/Dashboard.jsx:293 | sorting is a permutation of its input |
| ArraySort.SortAdjacentOrdered | frontend/src/pages/Dashboard.jsx:306-317 | with any sign-antisymmetric comparator (even an intransitive one), neighbours of the output never compare positive |
| ArraySort.SortOrdered | frontend/src/pages/Dashboard.jsx:293-297 | with a total preorder, every pair of the output is in order |
| ArraySort.SortStable | frontend/src/pages/Dashboard.jsx:293-297 | with a total preorder, elements that tie keep their relative order |
| ArraySort.SortStableAll | frontend/src/pages/Dashboard.jsx:293-297 | stability for every tie class at once |
| Rankings.ProximityIsTotalPreorder | frontend/src/pages/Dashboard.jsx:293-297 | the proximity comparator is a total preorder |
| Rankings.ProximitySorted | frontend/src/pages/Dashboard.jsx:292-297 | the proximity sort is a permutation in non-decreasing key order, stable among equal keys |
| Rankings.SortMachines | frontend/src/pages/Dashboard.jsx:285-300 | no location: the order as fetched; with one: a permutation in non-decreasing key order, null and 0 distances last, stable among ties |
| Rankings.SearchOrderIsSignAntisymmetric | frontend/src/pages/Dashboard.jsx:306-317 | swapping the arguments of the search comparator flips a positive verdict to a negative one |
| Rankings.SearchRankingExamples | frontend/src/pages/Dashboard.jsx:310-314 | 10 m/stock 2 against 40 m/stock 5 ranks the stock-5 result first; 10 m against 100 m ranks the 10 m result first, in either input order |
| Rankings.SearchCompareNotTransitive | frontend/src/pages/Dashboard.jsx:311 | 10 m/1, 40 m/2 and 70 m/3 compare in a cycle, so the search comparator is not a total preorder |
| Rankings.SearchAdjacentOrdered | frontend/src/pages/Dashboard.jsx:306-317 | in the ranked results no neighbour pair compares positive, although the comparator is not transitive |
| Rankings.SearchSortedWithoutLocation | frontend/src/pages/Dashboard.jsx:316 | without a location the ranked results have non-increasing stock throughout |
| Rankings.SortSearchResults | frontend/src/pages/Dashboard.jsx:303-319 | a permutation whose neighbours never compare positive; without a location, stock non-increasing |
| Rankings.StockOrderIsTotalPreorder | frontend/src/pages/Dashboard.jsx:324 | stock-descending is a total preorder |
| Rankings.StockSorted | frontend/src/pages/Dashboard.jsx:324 | any list sorted by the inventory comparator has non-increasing stock |
| Rankings.InventoryContents | frontend/src/pages/Dashboard.jsx:322-324 | the inventory view holds exactly the matching products, each as often as fetched |
| Rankings.FilteredProducts | frontend/src/pages/Dashboard.jsx:322-324 | exactly the products whose lowercased name contains the lowercased search text, each as often as fetched, stock non-increasing, stable among equal stocks |
| Rankings.EmptySearchKeepsAll | frontend/src/pages/Dashboard.jsx:322-323 | an empty search keeps every product |
| Position.ResolveViaIp | frontend/src/pages/Dashboard.jsx:60-79 | a location with source IP exactly when the reply has truthy latitude and longitude; otherwise "Could not determine location via IP.", and on an exception the "Failed to determine location" message |
| Position.ResolvePosition | frontend/src/pages/Dashboard.jsx:82-101 | a GPS fix gives a GPS location; a GPS failure or missing geolocation falls back to the IP lookup |
| Position.GpsPreferred | frontend/src/pages/Dashboard.jsx:82-101 | after a GPS fix the IP outcome is irrelevant; an IP location implies GPS did not answer |
| Position.FailureMessages | frontend/src/pages/Dashboard.jsx:73-77 | the position stays unresolved exactly when GPS and the IP lookup both fail, and then the message is one of the two fixed texts |
| Position.GuardOnResolvedPosition | frontend/src/pages/Dashboard.jsx:38-41 | an IP position always passes the user-side distance guard; a GPS fix on the equator or the prime meridian never does |
| LiveSync.Mount | frontend/src/pages/Dashboard.jsx:143-147 | the effect starts mounted with one connecting socket and no timer |
| LiveSync.Step | frontend/src/pages/Dashboard.jsx:146-182 | only cleanup unmounts and nothing remounts; only a timer that fires creates a socket, exactly one; only a close while mounted arms a timer, exactly one |
| LiveSync.Run | frontend/src/pages/Dashboard.jsx:146-182 | after a sequence of events the page is mounted exactly when it was and no cleanup occurred; sockets created never decrease, by at most one per event |
| LiveSync.StepValid | frontend/src/pages/Dashboard.jsx:146-183 | every event keeps at most one reconnect pending, only while the socket is closed |
| LiveSync.RunValid | frontend/src/pages/Dashboard.jsx:146-183 | so does every sequence of events |
| LiveSync.CloseArmsReconnect | frontend/src/pages/Dashboard.jsx:169-174 | a close while mounted arms exactly one reconnect; a close after cleanup arms none |
| LiveSync.CleanupEffect | frontend/src/pages/Dashboard.jsx:179-182 | cleanup clears the flag, closes a live socket and leaves armed timers in place |
| LiveSync.MountedReconnect | frontend/src/pages/Dashboard.jsx:169-174 | while mounted, a dropped socket is replaced by exactly one new connecting socket |
| LiveSync.NoGrowthAfterUnmount | frontend/src/pages/Dashboard.jsx:169-182 | after cleanup no new timer is armed; timers plus sockets never grow |
| LiveSync.ReconnectAfterUnmount | frontend/src/pages/Dashboard.jsx:172-182 | a timer armed before cleanup still fires and opens a second socket on the unmounted page |
| Dashboard.DashboardPage.Mount | frontend/src/pages/Dashboard.jsx:13-23 | the initial state: machines view, empty lists, no location, the search timer armed, the first socket connecting |
| Dashboard.DashboardPage.MachinesLoaded | frontend/src/pages/Dashboard.jsx:116-126 | a reply replaces the machine list; a failed request keeps it |
| Dashboard.DashboardPage.PositionResolved | frontend/src/pages/Dashboard.jsx:60-101 | the one resolution of the mount effect: a position is stored with no error; a failure sets the message and leaves no position; the page invariant is kept |
| Dashboard.DashboardPage.SetSearch | frontend/src/pages/Dashboard.jsx:377 | the search text is replaced; a changed text re-arms the debounce timer |
| Dashboard.SearchFiresIffNotBlank | frontend/src/pages/Dashboard.jsx:106 | the debounced search fires exactly for a text with a non-whitespace character in the machines view |
| Dashboard.DashboardPage.DebounceElapsed | frontend/src/pages/Dashboard.jsx:104-114 | a pending timer issues the search exactly when the text is non-blank and the view is machines; otherwise it clears the global results |
| Dashboard.DashboardPage.SearchLoaded | frontend/src/pages/Dashboard.jsx:185-195 | a reply replaces the global results; a failure keeps them |
| Dashboard.DashboardPage.SelectMachine | frontend/src/pages/Dashboard.jsx:197-201 | the machine is selected, the view becomes inventory, and its id is the one fetched |
| Dashboard.DashboardPage.InventoryLoaded | frontend/src/pages/Dashboard.jsx:128-139 | a reply, filtered to the machine in its own order, replaces the products; a failure keeps them |
| Dashboard.DashboardPage.BackToMachines | frontend/src/pages/Dashboard.jsx:203-207 | back to the machines view with no selection and an empty search |
| Dashboard.DashboardPage.ShowNearest | frontend/src/pages/Dashboard.jsx:384 | the nearest view with an empty search |
| Dashboard.DashboardPage.OnMessage | frontend/src/pages/Dashboard.jsx:151-159 | an `inventory_deducted` frame applies the merge to both lists independently; any other frame changes nothing |
| Dashboard.DashboardPage.OnSocketEvent | frontend/src/pages/Dashboard.jsx:146-177 | open, close and timer events step the socket fields as the reconnect state machine does |
| Dashboard.DashboardPage.Unmount | frontend/src/pages/Dashboard.jsx:113-182 | cleanup clears the search timer, the mounted flag and the socket, and keeps armed reconnects |
| Dashboard.DashboardPage.Render | frontend/src/pages/Dashboard.jsx:416-537 | which sorted list each view shows: machines by proximity for a blank search or the nearest view, ranked search results for a non-blank search, the filtered inventory |
| Auth.GetItem | frontend/src/context/AuthContext.jsx:14-15 | `getItem` gives the stored string, or null for a missing key |
| Auth.RestoredUser | frontend/src/context/AuthContext.jsx:14-18 | a user exists exactly when a non-empty token is stored, with the stored token and whatever `user_id` holds |
| Auth.StoreSession | frontend/src/context/AuthContext.jsx:24-25 | both keys hold the string form of the reply fields, so `undefined` becomes "undefined"; other keys are kept |
| Auth.ClearSession | frontend/src/context/AuthContext.jsx:35-36 | exactly the two session keys are removed |
| Auth.AuthProvider.constructor | frontend/src/context/AuthContext.jsx:9-10 | no user and loading on the first render |
| Auth.AuthProvider.Restore | frontend/src/context/AuthContext.jsx:12-20 | the stored session becomes the user only if a token is stored; loading ends in both cases |
| Auth.AuthProvider.Login | frontend/src/context/AuthContext.jsx:22-28 | a reply is written to both keys, becomes the user as received and is handed back; a failed request changes nothing and the failure is passed to the caller |
| Auth.AuthProvider.Register | frontend/src/context/AuthContext.jsx:30-32 | hands back the reply and changes neither storage nor user |
| Auth.AuthProvider.Logout | frontend/src/context/AuthContext.jsx:34-38 | both keys are removed and the user is null |
| Auth.ReloadAfterLogin | frontend/src/context/AuthContext.jsx:12-28 | a reload restores exactly the logged-in user iff the token is a non-empty string and the id is a string; it restores some user iff the token is not the empty string |
| Auth.ReloadAfterLogout | frontend/src/context/AuthContext.jsx:12-38 | after a logout no reload restores a user |
| Auth.LogoutForgetsLogin | frontend/src/context/AuthContext.jsx:24-36 | logout is idempotent and erases whatever login stored |
| Checkout.Enter | frontend/src/pages/CheckoutDemo.jsx:15-23 | without navigation state or product: redirect to /dashboard and render nothing; otherwise render for the product |
| Checkout.IsStale | frontend/src/pages/CheckoutDemo.jsx:34 | an id is accepted exactly when it is a string other than "", "undefined" and "null" |
| Checkout.FinalUserId | frontend/src/pages/CheckoutDemo.jsx:33 | the user's id when truthy, the stored `user_id` otherwise |
| Checkout.OrderIdOrDefault | frontend/src/pages/CheckoutDemo.jsx:41 | a missing or empty order id is sent as "demo_order"; never empty |
| Checkout.ErrorMessage | frontend/src/pages/CheckoutDemo.jsx:52-56 | never empty; the reply's `error` wins when truthy |
| Checkout.ErrorPrecedence | frontend/src/pages/CheckoutDemo.jsx:52-56 | with no truthy `error`, the serialised `detail`; with neither, the exception message, else "Simulation Error" |
| Checkout.CheckoutPage.constructor | frontend/src/pages/CheckoutDemo.jsx:11-12 | idle and not loading |
| Checkout.CheckoutPage.Submit | frontend/src/pages/CheckoutDemo.jsx:26-27 | loading and processing |
| Checkout.CheckoutPage.AfterDelayElapsed | frontend/src/pages/CheckoutDemo.jsx:33-44 | a stale id (absent, empty, "undefined", "null") shows the stale-cache alert and navigates home with no request, leaving the status alone; otherwise the buy request carries that id, the order id or its default, and the demo signature |
| Checkout.CheckoutPage.BuyAnswered | frontend/src/pages/CheckoutDemo.jsx:44-58 | success sets the status to success and schedules the way to /dashboard; a failure alerts the chosen message and returns to idle with loading off |
| Checkout.BackendLoginIsStale | frontend/src/pages/CheckoutDemo.jsx:33-38 | after a login reply without `user_id`, the id is stale both before and after a reload |
| Checkout.FreshIdAccepted | frontend/src/pages/CheckoutDemo.jsx:33-34 | a real id from the user or from storage is never refused |
| Routes.ProtectedRoute | frontend/src/App.jsx:13-17 | the loading screen exactly while loading; the page iff not loading and a user is set; otherwise a redirect to /login |
| Routes.PublicRoute | frontend/src/App.jsx:20-24 | the loading screen exactly while loading; the page iff not loading and no user; otherwise a redirect to /dashboard |
| Routes.RouteFor | frontend/src/App.jsx:32-66 | / shows the landing page unguarded; /login and /register show the login and register pages behind the public guard; /dashboard and /checkout show the dashboard and checkout pages behind the protected guard; nothing else is routed; a match ignores ASCII case and trailing slashes |
| Routes.RouteIgnoresCaseAndTrailingSlash | frontend/src/App.jsx:32-66 | pathnames that differ in letter case, or by one trailing slash, route to the same page and guard |
| Routes.Navigate | frontend/src/App.jsx:30-67 | a pathname renders something exactly when it is routed; a shown page is the routed one; redirects go only to /login or /dashboard |
| Routes.GuardsComplementary | frontend/src/App.jsx:16-23 | when not loading, exactly one of the two guards shows its page |
| Routes.NavigationGuarded | frontend/src/App.jsx:13-66 | protected pages show only with a user, public ones only without, the landing page always; only guarded routes show the loading screen |
| Routes.RedirectsConverge | frontend/src/App.jsx:16-57 | a signed-in visitor of /login is sent to /dashboard, which shows; a signed-out visitor of /dashboard is sent to /login, which shows |
| NearestMachine.FindNearest | smart-vending/backend/routers/machine.py:32-47 | the error exactly for no machines; a row without coordinates stops the scan; otherwise the chosen machine is no farther than every machine and strictly nearer than every earlier one |
| NearestMachine.ResponseOf | smart-vending/backend/routers/machine.py:46-53 | the error body exactly when no machine was found; a chosen machine fails on the `location` read; a missing coordinate fails at its row |
| NearestMachine.NearestMachineEndpoint | smart-vending/backend/routers/machine.py:32-53 | only an empty table gets the error body; any other table ends in an internal server error, at the first row without coordinates or, with all rows complete, at the `location` read |
| NearestMachine.FirstMinimumUnique | smart-vending/backend/routers/machine.py:42 | there is only one first machine of least distance |
| NearestMachine.TieGoesToEarlier | smart-vending/backend/routers/machine.py:42 | with equal distances the earlier machine is chosen, because the test is a strict `<` |

## Left out

- The haversine formula is a parameter in both the client and the backend: trigonometry and the rounding by `toFixed(0)` and `round(…, 2)`. The client's distance is whole metres and the backend's a non-negative real.
- Catalog.CalculateDistance: states the null guard and hands the four coordinates to the abstract haversine. It does not state that the distance is a great-circle distance.
- Floating point is not modelled. There is no `NaN` coordinate. A comparator verdict of `NaN` is modelled as the tie the sort makes of it.
- `toLowerCase` lowers ASCII letters only. `trim` covers the whitespace and line-terminator code points of ECMAScript.
- All network I/O (axios calls, the IP lookup, the WebSocket transport, geolocation) becomes its outcome, given as a parameter or an event. `JSON.parse` of a frame is the `Message` datatype. `JSON.stringify` is a parameter.
- The shared `loading` flag of the dashboard is not modelled. Neither is the interleaving of overlapping fetches. Events apply in the order given, so a late inventory reply overwrites earlier deductions (last applied wins).
- Time is not modelled. The 300 ms debounce, the 3000 ms reconnect delay, the GPS timeout and the 2000 ms and 1800 ms checkout delays are discrete events.
- `handleBuy`, `handleRequestRefill`, `handleSimulatePhysicalPurchase`, Razorpay script loading and the toast element are not modelled. `handleBuy` navigates to `/checkout` with the navigation state that `Checkout.Enter` reads; that state is a parameter here. The search result buttons also select a stand-in machine built from the product's `machine_id` and `machine_name` before they call these handlers. That selection is not modelled either.
- The random `payment_id` of the simulated checkout is not part of `Checkout.BuyRequest`.
- Checkout.CheckoutPage.AfterDelayElapsed: the alert text and the navigation to `/` are returned as an outcome. The page's fields stay as they were, so the status stays processing and loading stays set.
- User ids are strings in storage and `JsVal` values in `user`. A numeric id from a backend that did send one is not modelled.
- Rendering, styling, the landing, login, register and profile pages, and the backend's database, payment, notification and user routers are not modelled.
- The rounded `distance_km` of the `/nearest-machine` payload is not modelled. The payload is never sent, because reading `location` raises first.
- Rankings.SortSearchResults: for the search comparator, which is not transitive, ECMAScript leaves the order of `Array.prototype.sort` implementation-defined. The model fixes the order that linear insertion sort gives. It proves only what holds for that order: a permutation whose neighbours never compare positive.
