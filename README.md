# Ride-sharing front end: decision rules

This project models the decision rules of the ride-sharing service's browser
front end, `web/app.js`, and proves properties of them. The front end talks to
a REST API for rides, users, drivers, vehicles and transactions. Around its
DOM code it makes a few decisions of its own, and those are what the model
covers:

- the page gate (`PAGE_ACCESS`, `checkPageAccess`) and the navigation rule
  that hides links a role may not follow (module `Access`);
- the ride status sequence and `getNextStatus` (module `Status`);
- the three driver buttons (accept, start, complete), the updates they send,
  and the passenger's cancel button (module `DriverActions`);
- the passenger's own-rides filter, the search box and status drop-down of
  the three ride lists, and the passenger-name dictionary they read (module
  `RideFilters`);
- the administrator's ride page as an object with state: the loaded rides,
  the name dictionary filled in a loop, and the card or table view (class
  `RidesPageState.RidesPage`);
- the dashboard counters and the analytics chart counts (module `Counts`);
- the payment form's formatters for card number, expiry date and CVV
  (module `Formatters`).

JavaScript values that may be missing are modelled by `JsValues.Value`:
`undefined`, `null` or a string. `JsValues.ToStr` is `String(x)`, and
`JsValues.Truthy` is JavaScript truthiness on such a value. `Seqs` models
`Array.prototype.filter` and `filter(...).length`, with the facts every list
and counter relies on: the multiplicity of each element, order, membership
and length.

The token, stored role and stored user id are the values the page reads from
browser storage. The model takes them as parameters. API responses are
parameters too, with `None` standing for a failed request.

`Access.CheckPage` differs from the code on purpose. A denied visitor is sent
to the home page only when the home page admits them; otherwise they are sent
to the login page. The code as written is `Access.CheckPageAsWritten`. See
"## Findings".

## Model

| member | source | states |
|---|---|---|
| Access.LastSegment | web/app.js:64 | `split('/').pop()` is a suffix of the path that contains no '/' |
| Access.LastSegmentFollowsSlash | web/app.js:64 | the segment is the whole path or directly follows a '/', so it is the longest '/'-free suffix |
| Access.CurrentPage | web/app.js:64 | the page name is never empty and has no '/'; an empty last segment gives `index.html`, otherwise the page is the segment |
| Access.LinkPathNamesPage | web/app.js:64 | a path `dir/page` names exactly `page` |
| Access.RoleTable | web/app.js:49-61 | every role may open the home and profile pages; the five administration pages admit the administrator alone |
| Access.CheckPageAsWritten | web/app.js:63-79 | login and registration always run; any denial sends the visitor to `index.html` |
| Access.HomeDenialLoopsAsWritten | web/app.js:74-78 | with a token and a role other than admin/user/driver, the home page denies and redirects to itself |
| Access.DenialTarget | web/app.js:74-78 | a denial goes to the home page when the home page admits the visitor, and to the login page when it does not |
| Access.Forbidden | web/app.js:74-75 | the denial condition: the page is in the table and the stored role is not among its names (an absent role, or any other text, is listed nowhere) |
| Access.CheckPage | web/app.js:63-79 | public pages run; without a token the visitor goes to login; denial happens exactly when the page is listed and the role is not, with a token; otherwise the page runs |
| Access.RedirectsSettle | web/app.js:74-78 | the page a denial or login redirect leads to lets the visitor stay, so no redirect follows another |
| Access.CheckPageRefinesAsWritten | web/app.js:63-79 | the corrected gate denies exactly when the written gate does, and agrees with it everywhere except where a denial goes |
| Access.CheckPageAccess | web/app.js:63-79 | the corrected gate on a path: it denies on exactly the paths where the written gate denies; a path ending in '/' is judged as `index.html`; the login and registration pages always run |
| Access.NavLinkHidden | web/app.js:95-97 | the hiding rule: a link is hidden when its href is present, in the table, and its list lacks the stored role |
| Access.NavAgreesWithGate | web/app.js:92-100 | for a token holder, a link to a listed page is hidden exactly when that page's gate denies, and every visible link leads to a page that runs |
| JsValues.StringEqualIsStrictForOrdinaryText | web/app.js:945 | against a string other than "null" or "undefined", string equality and strict equality agree |
| JsValues.StringEqualIsLooserThanStrict | web/app.js:945 | `undefined` and `null` equal the strings "undefined" and "null" under `String()`, but not strictly |
| Status.IndexOf | web/app.js:116 | `indexOf` gives -1 exactly for an absent status, otherwise the first position holding it |
| Status.NextStatus | web/app.js:113-118 | each status moves to the next one in the sequence, `completed` is a fixed point, an unknown status moves to `requested`, and the result is always in the sequence |
| Status.StepsToCompleted | web/app.js:113-118 | at most four presses from any status, fewer than four from one in the sequence |
| Status.NextAdvancesOne | web/app.js:115-118 | before `completed`, one press advances exactly one position and one step closer |
| Status.ReachesCompleted | web/app.js:113-118 | `StepsToCompleted` presses reach `completed` and stay there, and fewer presses do not reach it |
| Status.AdminNextStatus | web/app.js:576 | the administrator's button always patches to a status in the sequence; a ride without a status goes to `accepted`; each press moves one step towards `completed` |
| DriverActions.IsMyRide | web/app.js:662 | ownership: the ride has a driver id and it equals the visitor's id as strings |
| DriverActions.OfferedActions | web/app.js:701-709 | at most one button is offered; accept iff no driver and status requested or accepted; start iff the driver's own ride is accepted; complete iff the driver's own ride is ongoing (ownership is `String` equality, line 662) |
| DriverActions.OthersRidesOfferNothing | web/app.js:701-709 | a ride held by another driver offers no button |
| DriverActions.FindVehicle | web/app.js:758 | `find` with `===` gives nothing exactly when no vehicle matches, otherwise the first match |
| DriverActions.ActionOutcome | web/app.js:754-809 | accept without a vehicle sends the driver to register one; accept otherwise patches this driver, one of their vehicles and `accepted`; start and complete patch only the status |
| DriverActions.ApplyPatch | web/app.js:766-806 | the ride after a patch the API applies in full: the status becomes the one sent, the driver becomes the one sent when one is sent, and id, passenger, pickup and destination are kept |
| DriverActions.ActionsFollowSequence | web/app.js:754-809 | a patch from an offered button moves the ride to `getNextStatus` of its status, except for accepting an already `accepted` ride |
| DriverActions.DriverFlow | web/app.js:701-809 | a driver with a vehicle takes a requested ride through accepted, ongoing and completed, offered exactly start, then complete, then nothing |
| DriverActions.CanCancel | web/app.js:910 | the cancel button's condition: status requested or accepted |
| DriverActions.CancelExcludesComplete | web/app.js:910 | a cancellable ride is never offered "complete", and the reverse holds too |
| RideFilters.ContainsEmpty | web/app.js:502 | every text includes the empty search term |
| RideFilters.DisplayName | web/app.js:388 | a user's stored name is never empty, and it is their name when they have one |
| RideFilters.WithUsers | web/app.js:387-389 | the dictionary after the `forEach`, each user written in list order |
| RideFilters.WithUsersSpec | web/app.js:387-389 | after loading, the dictionary holds the old and the loaded ids; ids that were not loaded keep their names; each loaded id names the last user with that id |
| RideFilters.WithUsersNamesNonEmpty | web/app.js:387-389 | loading never stores an empty name |
| RideFilters.UserName | web/app.js:395-397 | the dictionary's name when it has a non-empty one, "User id" for an unknown id; never empty, so `'N/A'` is never reached |
| RideFilters.OwnedAndActive | web/app.js:946-948 | the own-rides rule: passenger id equal to the visitor's as strings, and not cancelled |
| RideFilters.MyRides | web/app.js:945-949 | exactly the rides whose passenger id equals the visitor's as strings and that are not cancelled, each as often as it occurs, in order |
| RideFilters.CancelledNeverListed | web/app.js:948 | a cancelled ride is never in the own-rides list |
| RideFilters.DashboardOwnershipAgrees | web/app.js:945-949 | for an ordinary stored id, the own-rides rule (`String` equality) selects what the dashboard rule (`===`, line 319) selects, minus the cancelled rides |
| RideFilters.OwnRidesAdmitMissingOwner | web/app.js:945-948 | with the stored id "undefined", a ride without a passenger is listed as the visitor's own, though the dashboard does not count it |
| RideFilters.AdminSearchMatches | web/app.js:502-513 | the administrator's search: passenger name, pickup or destination lower-cased include the term, or the passenger id (not lower-cased) does; and the status drop-down |
| RideFilters.DriverSearchMatches | web/app.js:720-730 | the driver's search: passenger name, pickup or destination lower-cased include the term |
| RideFilters.MyRidesSearchMatches | web/app.js:923-931 | the passenger's search: pickup or destination lower-cased include the term |
| RideFilters.Matches | web/app.js:502-513 | a ride matches on a page when that page's search finds the lower-cased term and the status drop-down is "all" or the ride's status (same for lines 720-730 and 923-931) |
| RideFilters.SearchesNest | web/app.js:502-513 | whatever the passenger's search finds the driver's finds, and whatever the driver's finds the administrator's finds |
| RideFilters.Visible | web/app.js:498-516 | the filtered list holds every matching loaded ride, each as often as it is loaded, in order, and nothing else; never more than loaded; a chosen status shows only that status (same for lines 716-729 and 919-931) |
| RideFilters.EmptySearchShowsAll | web/app.js:498-516 | on the administrator's and driver's lists an empty search with "all" shows every ride |
| RideFilters.PassengerEmptySearchNeedsPlace | web/app.js:919-931 | on the passenger's list an empty search shows a ride exactly when it has a pickup or a destination |
| RidesPageState.RidesPage.constructor | web/app.js:372-374 | the page starts with no rides, no names and the card view |
| RidesPageState.RidesPage.LoadUsers | web/app.js:384-393 | a successful load stores each user's name under their id in list order; a failed one changes nothing; names stay non-empty |
| RidesPageState.RidesPage.LoadRides | web/app.js:524-534 | names are loaded first; the rides are replaced on success and kept on failure |
| RidesPageState.RidesPage.SetView | web/app.js:537-557 | the view becomes the one chosen |
| RidesPageState.RidesPage.Shown | web/app.js:498-521 | the shown list is the loaded rides that match, each as often as loaded, in order, never more than are loaded ("Showing n of m") |
| RidesPageState.RidesPage.NameShownForLoadedUser | web/app.js:395-397 | a loaded passenger's stored name is the name shown |
| Counts.RideStatusCountsOf | web/app.js:1327-1332 | the four status counts plus the rides of any other status make up all rides |
| Counts.FourStatusesPartition | web/app.js:1327-1332 | the four status counts and the count of rides of any other status add up to the number of rides |
| Counts.AvailableDriver | web/app.js:1353 | the chart's availability rule: status `available`, or no status and the flag set |
| Counts.BusyDriver | web/app.js:1354 | the chart's busy rule: status `busy` |
| Counts.AvailableAndBusyDisjoint | web/app.js:1353-1354 | no driver is both available and busy |
| Counts.AvailabilityOf | web/app.js:1353-1355 | the unavailable count is never negative, counts exactly the drivers that are neither available nor busy, and the three slices sum to the drivers |
| Counts.AvailabilityPartition | web/app.js:1353-1355 | available, busy and neither partition the drivers |
| Counts.DashboardAndChartDisagree | web/app.js:275 | the dashboard's flag-only availability disagrees with the chart's rule both ways |
| Counts.TransactionCountsOf | web/app.js:1376-1380 | the three transaction counts sum to at most the number of transactions |
| Counts.ThreeStatusesBound | web/app.js:1376-1380 | the pending, completed and failed counts sum to at most the number of transactions |
| Counts.DriverCountersDisjoint | web/app.js:286-305 | for a driver with an id, accepted and available rides are disjoint, and in-progress plus completed fit within accepted |
| Counts.NullDriverCountsOpenRideTwice | web/app.js:286-287 | a driver whose stored id is `null` has an open unassigned ride counted as both accepted and available |
| Counts.PassengerCountersBound | web/app.js:319-337 | pending, in progress and completed together are at most the passenger's total, which is at most all rides |
| Counts.PassengerCountersSplit | web/app.js:329-333 | the pending and in-progress counters together count the rides in either status |
| Formatters.StripWhitespace | web/app.js:1839 | `replace(/\s/g, '')` keeps every non-whitespace character, each as often as it occurs, in order, and nothing else |
| Formatters.FormatCardNumber | web/app.js:1838-1842 | the handler: strip whitespace, group in fours, join with spaces, empty text stays empty; its properties are `CardNumberShape` and `CardNumberIdempotent` |
| Formatters.Chunks | web/app.js:1840 | `match(/.{1,4}/g)` cuts the text into pieces of one to four characters, all but the last of four, that concatenate to the text |
| Formatters.GroupsUnfold | web/app.js:1840 | past four characters, the grouped text is four characters, a space, then the rest grouped |
| Formatters.GroupLength | web/app.js:1840 | the grouped text is one space longer per full group of four after the first |
| Formatters.GroupAt | web/app.js:1840 | position i holds a space iff i mod 5 is 4, and otherwise holds character i - i/5 of the text |
| Formatters.GroupLayout | web/app.js:1840 | the grouped text has spaces exactly at positions 4, 9, 14, …, with the text's characters in order between them |
| Formatters.StripGroups | web/app.js:1839-1840 | removing the whitespace from the grouped text gives the text back |
| Formatters.StripNothing | web/app.js:1839 | stripping text that has no whitespace leaves it unchanged |
| Formatters.CardNumberShape | web/app.js:1838-1842 | removing the whitespace from the formatted card number gives the stripped input; the layout is groups of four separated by single spaces |
| Formatters.CardNumberIdempotent | web/app.js:1838-1842 | formatting twice is formatting once |
| Formatters.FormatExpiry | web/app.js:1845-1851 | the handler: the digits, and from two digits on the first two, '/', and at most two more; its properties are `ExpiryShape` and `ExpiryIdempotent` |
| Formatters.Digits | web/app.js:1846 | `replace(/\D/g, '')` as a filter on ASCII digits; its properties are stated by `FormatCvv`, which is this filter |
| Formatters.DigitsNothing | web/app.js:1846 | removing non-digits from all-digit text leaves it unchanged |
| Formatters.ExpiryShape | web/app.js:1845-1851 | at most five characters; its digits are the input's first four; from two digits on, the third character is '/' and all others are digits; below two digits, the digits alone |
| Formatters.ExpiryIdempotent | web/app.js:1845-1851 | formatting twice is formatting once |
| Formatters.FormatCvv | web/app.js:1854-1856 | exactly the input's digits, each as often as it occurs, in order |
| Formatters.CvvIdempotent | web/app.js:1854-1856 | formatting twice is formatting once |

## Left out

- DOM construction and rendering: `innerHTML` templates, `renderCards`, `renderTable`, `renderDriverRides`, `renderMyRides`, Chart.js calls, the role badge's `toUpperCase`. These are UI.
- Browser dialogs and navigation (`alert`, `confirm`, `prompt`, `window.location`). A redirect is modelled only as the `Access.Access` decision.
- `api`, `fetch` and `localStorage` (web/app.js:2-41). These are network and storage I/O. The token, role and user id are parameters.
- The server's side of each PATCH. DriverActions.ApplyPatch and DriverActions.DriverFlow describe a server that sets every field the front end sends. The only server shown, Week 3/index.js:60-65, `$set`s the status alone. Under that server, accepting keeps the ride without a driver, so the "start" button is never offered afterwards and `DriverFlow` does not describe what happens.
- The `acceptedAt`/`startedAt`/`completedAt` timestamps in the driver patches. Clocks are not modelled, and no rule reads these fields back. The `vehicleID` is modelled as the `vehicleId` of `DriverActions.Outcome`, but no rule reads it back either.
- A redirect does not stop the page's script. After `window.location.href = …` (web/app.js:70, 77), `setupNavigation` (web/app.js:122-124) and the page's own block still run until the browser leaves, and they may send API requests (for example `loadRides()` at web/app.js:597). The model treats `Access.Access` values other than `Allow` as ending the page at once.
- RidesPageState.RidesPage.LoadRides is one atomic step. In the source, `loadRides()` is called without `await` after each action (web/app.js:582, 590), so two loads can interleave. A late, older response can overwrite a newer one. The model does not capture that interleaving or that order.
- Login-time decoding of the JWT payload with `atob` and `JSON.parse` (web/app.js:159-160). This is a foreign call; the decoded role and id reach the model only as the stored values.
- `getRideDate` (web/app.js:399-409). It depends on `Date` and locale formatting.
- Revenue sums, `parseFloat`/`toFixed` amounts and averages in the analytics (web/app.js:1433-1510, 1214). They use floating point.
- The `Math.random` monthly trend (web/app.js:1406). It is random simulated data.
- The driver page's `status-btn` branch (web/app.js:811-826), which no card renders. Its `getNextStatus(ride.status || 'accepted')` is `Status.NextStatus` on that fallback.
- The driver page's `loadUsers`/`getUserName` (web/app.js:621-634) and the other pages' loaders. They repeat the administrator page's code, which `RidesPageState` and `RideFilters` model once.
- `dep_index.js` and `index.js`. They are MongoDB scripts that only do database I/O.
- Keys inherited from `Object.prototype` (such as `constructor`) when `PAGE_ACCESS` or `allUsers` is indexed. The model's maps hold only their own entries.
- RideFilters.Lower: `toLowerCase` is modelled on the ASCII letters only, without Unicode case mapping.
- Formatters.FormatCardNumber and Formatters.Chunks group Unicode scalar values, while `match(/.{1,4}/g)` (no `u` flag) groups UTF-16 code units. For text with characters outside the basic plane the two differ: for three emoji, JavaScript gives two emoji, a space and one emoji, and it can split a surrogate pair, while the model gives a single group. For text made of basic-plane characters, card digits among them, the two agree.
- Strings elsewhere are sequences of Unicode scalar values, not UTF-16 code units. `\s` and `\d` match only basic-plane characters, so stripping whitespace and keeping digits agree with JavaScript on every input.
- Values of the ride fields other than strings, `null` and `undefined` (numbers, ObjectId objects) are not modelled; they reach the rules only through `String()`.

## Findings

| source | as written | input that shows it | evidently intended | confidence | as-written member | corrected member |
|---|---|---|---|---|---|---|
| web/app.js:74-78 | a denied visitor is always sent to `index.html`, which is itself in the table | a token stored with the role "undefined" (what `setItem` stores for a payload without a role, web/app.js:33 and 162), a role key absent from storage (`null`), or any name other than admin/user/driver, loading `index.html`: denied, redirected to `index.html`, denied again, forever | a denial leads to a page that lets the visitor stay | not executed | Access.HomeDenialLoopsAsWritten | Access.RedirectsSettle |
