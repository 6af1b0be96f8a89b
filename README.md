# TRW Countdown: service worker, installability, user ID and countdown arithmetic

This project is a Dafny model of the offline and installation core of the TRW
Countdown progressive web app, a savings countdown that runs in the browser.
It covers five pieces:

- **The cache controller** of the service worker (`public/sw.js`), file
  `service_worker.dfy`. The browser's CacheStorage is a list of named caches
  in creation order. Each cache maps a request URL to a stored response.
  - The `install` handler opens the cache `trw-countdown-v1` and `addAll`s the
    five static assets. It calls `skipWaiting` only if that succeeded.
  - The `activate` handler deletes every other cache and claims the pages.
  - The `fetch` handler passes non-GET requests and Firebase/Google traffic to
    the browser. Everything else is cache first, then network, with a
    write-behind of same-origin 200 responses. A navigation that fails offline
    gets the cached `/index.html`.
  - The CacheStorage operations the handlers use are the class `CacheStorage`,
    proved against pure functions of the storage's value:
    - `open` creates a missing cache;
    - `delete` removes a cache;
    - `put` replaces an entry;
    - `addAll` is all or nothing;
    - `match` takes the first cache that holds the URL.
- **The installability tracker** (`src/services/pwaService.ts`), file
  `pwa_service.dfy`. It is a class holding the deferred install prompt and the
  installed flag. A pure transition function over the same state carries the
  trace lemmas. The window's event listeners are a small `Window` class, used
  to state what the connection-change subscription and its cleanup do.
- **The user-ID holder and validator** (`src/services/userIdService.ts`), file
  `user_id_service.dfy`. It models the following:
  - JavaScript `trim` over ECMAScript white space and line terminators;
  - `length` in UTF-16 code units;
  - the 3..20 bound;
  - the `localStorage` slot, as a field.
- **`calculateDaysRemaining` and `calculateProgress`**
  (`src/utils/calculations.ts`), file `calculations.dfy`.
- **The countdown split** of `ContentView.tsx` into days, hours, minutes and
  seconds, file `countdown.dfy`.

`wrappers.dfy` holds the `Option` type.

Things the model cannot observe are parameters:

- what the network returns for a URL;
- whether a write-behind `put` goes through;
- the display-mode query and `navigator.standalone`;
- `navigator.onLine`;
- whether `serviceWorker` is in `navigator`;
- the user's answer to the install prompt;
- the value found in `localStorage` at start-up;
- the current time.

## Behaviour as written

The model follows the code in these places, where the documented design
describes something else:

- **`caches.match` searches every cache.** Under the documented design, the
  fetch handler looks only in the current cache. The code calls
  `caches.match`, which searches every cache in creation order, so that is
  what `MatchIn` models. Between installing a new generation and activating
  it, an older cache that still holds a URL shadows the new one
  (`OlderGenerationShadows`). After activation only the current cache is
  left, and `ActivateEffect` shows the two lookups then agree.
- **An install failure is swallowed.** The `catch` in the install handler logs
  the error, so the install step completes without `skipWaiting`. The cache
  `trw-countdown-v1` is created by `caches.open` even when `addAll` fails
  (`InstallKeepsOtherCaches`, `InstallFailureAddsNothing`).
- **An accepted install prompt does not set the installed flag.** Only the
  `appinstalled` event does (`RunInstalledIff`).
- **The deferred prompt is kept when `prompt()` or `userChoice` throws.** It is
  cleared only after an answer arrives (`PromptInstall`).
- **The user-ID service is modelled.** The design calls user-ID validation
  outside the core, but the service is small and self-contained.
  - The saved ID is loaded without trimming. A stored value that is valid once
    trimmed is therefore held with its padding.
  - An empty stored string is never loaded. It is still what `getLastUsedId`
    returns (`LastUsedIdMayDifferFromUserId`).

## Model

| member | source | states |
|---|---|---|
| `Calculations.CeilDiv` | src/utils/calculations.ts:22 | `Math.ceil(a / b)` for a positive divisor is the least integer `q` with `q * b >= a` |
| `Calculations.DaysRemaining` | src/utils/calculations.ts:19-23 | the result is never negative; it is 0 when the target is not after now; otherwise it is the number of days `d` with `(d - 1)` days `<` the difference `<=` `d` days |
| `Calculations.DaysRemainingIsLeast` | src/utils/calculations.ts:22 | no non-negative whole number of days that covers the difference is smaller than the result |
| `Calculations.DaysRemainingMonotone` | src/utils/calculations.ts:19-23 | a later target never has fewer days remaining |
| `Calculations.Progress` | src/utils/calculations.ts:15-17 | the result is the smaller of the ratio and 1: it is at most both and equals one of them; with a positive target it is the ratio exactly when current does not exceed target, and 1 once the target is reached |
| `Calculations.ProgressMonotone` | src/utils/calculations.ts:15-17 | more savings never show less progress |
| `Countdown.FromDifference` | src/components/ContentView.tsx:56-75 | every field is in its clock range; a non-positive difference shows all zeros; otherwise the display is within one second below the difference |
| `Countdown.FromDifferenceParts` | src/components/ContentView.tsx:61-68 | the remainders by an hour and by a minute give normalized fields whose total lies within a second below the difference |
| `Countdown.FromDifferenceUnique` | src/components/ContentView.tsx:60-70 | any normalized countdown within a second below a positive difference is the one displayed |
| `Countdown.FromDifferenceOfMillis` | src/components/ContentView.tsx:60-70 | a countdown with some time left survives the round trip through its milliseconds: the display of its total is itself |
| `Countdown.DaysAgainstDaysRemaining` | src/components/ContentView.tsx:61 | the countdown's floored days equal the rounded-up days remaining when the difference is a whole number of days, and are one less otherwise |
| `UserIdService.JsLength` | src/services/userIdService.ts:36 | the length in UTF-16 code units is between the number of characters and twice it, and equals it when every character is in the Basic Multilingual Plane |
| `UserIdService.Trim` | src/services/userIdService.ts:15 | the result is a slice of the input with only white space cut off either side, and it neither starts nor ends with white space |
| `UserIdService.TrimOfPadded` | src/services/userIdService.ts:35 | trimming white space added around an already trimmed string gives that string back |
| `UserIdService.TrimIdempotent` | src/services/userIdService.ts:15-16 | trimming twice is trimming once, so saving validates the same string it stores |
| `UserIdService.ValidityIgnoresPadding` | src/services/userIdService.ts:34-37 | an ID is valid exactly when its trimmed form is |
| `UserIdService.UserIdService.constructor` | src/services/userIdService.ts:6-8 | the service starts holding the stored value exactly when it is a non-empty valid ID |
| `UserIdService.UserIdService.GetUserId` | src/services/userIdService.ts:10-12 | a held ID is always valid |
| `UserIdService.UserIdService.SaveUserId` | src/services/userIdService.ts:14-20 | a valid ID is held and stored trimmed; an invalid one changes nothing |
| `UserIdService.UserIdService.LoadSavedUserId` | src/services/userIdService.ts:22-27 | a non-empty valid stored value becomes the held ID; otherwise the held ID is kept |
| `UserIdService.UserIdService.ClearUserId` | src/services/userIdService.ts:29-32 | nothing is held or stored afterwards |
| `UserIdService.UserIdService.GetLastUsedId` | src/services/userIdService.ts:39-41 | the result is the stored value, valid or not |
| `UserIdService.LastUsedIdMayDifferFromUserId` | src/services/userIdService.ts:24 | with an empty string stored, nothing is held but the last used ID is that empty string |
| `PwaService.RunInstalledIff` | src/services/pwaService.ts:32-37 | after any sequence of events, the app counts as installed exactly when it already did or `appinstalled` occurred |
| `PwaService.InstalledNeverInstallable` | src/services/pwaService.ts:93-95 | once installed, it stays installed and is never offered for installation |
| `PwaService.RunKeepsHeldPromptPrevented` | src/services/pwaService.ts:21-29 | every held prompt has had its default (the mini-infobar) prevented |
| `PwaService.InstallHiddenIff` | src/services/pwaService.ts:32-37 | "pwa-install-hidden" is dispatched exactly when `appinstalled` occurs |
| `PwaService.AnsweredPromptIsConsumed` | src/services/pwaService.ts:67-90 | an answered prompt is cleared, so a second prompt returns false without asking |
| `PwaService.Without` | src/services/pwaService.ts:140-141 | removing a listener keeps exactly the listeners of other types or other handlers |
| `PwaService.Window.AddListener` | src/services/pwaService.ts:135-136 | the listener is appended with a fresh handler |
| `PwaService.Window.RemoveListener` | src/services/pwaService.ts:140-141 | exactly that type's listener with that handler is removed |
| `PwaService.SubscribeAddsCalls` | src/services/pwaService.ts:131-136 | after subscribing, going online calls back with true and going offline with false, after the existing listeners |
| `PwaService.ReleaseUndoesSubscribe` | src/services/pwaService.ts:139-142 | the cleanup restores the listeners exactly as they were before subscribing |
| `PwaService.PwaService.constructor` | src/services/pwaService.ts:14-17 | the service starts with no prompt, nothing dispatched, and installed exactly when the display mode is standalone or `navigator.standalone` is `true` |
| `PwaService.PwaService.CheckInstallationStatus` | src/services/pwaService.ts:41-53 | the installed flag is set when either probe says standalone and never cleared |
| `PwaService.PwaService.OnBeforeInstallPrompt` | src/services/pwaService.ts:21-29 | the event is held with its default prevented and "pwa-install-available" is dispatched; the installed flag is kept |
| `PwaService.PwaService.OnAppInstalled` | src/services/pwaService.ts:32-37 | the app is installed, the prompt is dropped and "pwa-install-hidden" is dispatched |
| `PwaService.PwaService.PromptInstall` | src/services/pwaService.ts:67-90 | the result is true exactly when a prompt was held and the user accepted; an answer of either kind clears the prompt, and a throw keeps it |
| `PwaService.PwaService.CanInstallNow` | src/services/pwaService.ts:93-95 | installable exactly when a prompt is held and the app is not installed |
| `PwaService.PwaService.IsAppInstalled` | src/services/pwaService.ts:98-100 | the result is the installed flag |
| `PwaService.PwaService.GetInstallationInfo` | src/services/pwaService.ts:146-158 | the snapshot agrees with `canInstall`, the installed flag, the negated online probe and the service-worker probe |
| `PwaService.PwaService.OnConnectionChange` | src/services/pwaService.ts:131-143 | one online and one offline callback are added, and the returned cleanup removes exactly them |
| `PwaService.PwaService.ReleaseConnectionListeners` | src/services/pwaService.ts:139-142 | both listeners of the subscription are removed and no other |
| `ServiceWorker.Opened` | public/sw.js:17 | the named cache exists afterwards; well-formedness is kept |
| `ServiceWorker.Remove` | public/sw.js:43 | the result holds exactly the other names, still distinct |
| `ServiceWorker.Deleted` | public/sw.js:43 | the named cache is gone; well-formedness is kept |
| `ServiceWorker.WithEntry` | public/sw.js:96 | a put keeps the storage well formed |
| `ServiceWorker.WithEntries` | public/sw.js:20 | an `addAll` batch keeps the storage well formed |
| `ServiceWorker.MatchIn` | public/sw.js:72 | a match misses exactly when no cache holds the URL; a hit is the entry of the first cache, in creation order, that holds it |
| `ServiceWorker.OlderGenerationShadows` | public/sw.js:72 | with an older cache created before the current one and both holding the URL, the older cache's entry is served |
| `ServiceWorker.MatchSingleCache` | public/sw.js:72 | with only the current cache left, matching is a lookup in it |
| `ServiceWorker.Responses` | public/sw.js:20 | the `addAll` batch has exactly the requested URLs as keys, each with its response |
| `ServiceWorker.FetchAll` | public/sw.js:20 | `addAll`'s fetches succeed exactly when the URLs are distinct and every response is accepted, and then yield the whole batch |
| `ServiceWorker.ContainsFrom` | public/sw.js:64-66 | `includes` holds exactly when the substring occurs at some index |
| `ServiceWorker.BypassedRequestsUntouched` | public/sw.js:57-69 | a non-GET or Firebase/Google request is not answered, fetched or cached |
| `ServiceWorker.CacheHitSkipsNetwork` | public/sw.js:72-77 | a cache hit is served as stored, with no network use and no write, whatever the network would do |
| `ServiceWorker.MissServesNetworkResponse` | public/sw.js:81-99 | on a miss the page gets the network response; the storage changes exactly when the response is cacheable and the write goes through |
| `ServiceWorker.OnlyCacheableMissesAreWritten` | public/sw.js:84-97 | any change to the storage comes from an intercepted miss with a 200 same-origin response |
| `ServiceWorker.NetworkFailureFallback` | public/sw.js:101-110 | offline, a navigation is answered with the cached `/index.html`, or with `undefined` when it is not cached, which the page sees as a network error like the rejection any other request gets; the storage is unchanged |
| `ServiceWorker.WriteBehindRoundTrip` | public/sw.js:72-99 | a written-behind response is what the next request for that URL is served, from the cache and without the network |
| `ServiceWorker.Manifest` | public/sw.js:3-10 | one request URL per static asset |
| `ServiceWorker.ManifestDistinct` | public/sw.js:3-10 | the asset URLs are pairwise distinct, so `addAll` never refuses them as duplicates |
| `ServiceWorker.ManifestAssets` | public/sw.js:3-10 | the manifest holds exactly the assets resolved against the origin |
| `ServiceWorker.AfterInstall` | public/sw.js:13-30 | install keeps the storage well formed and always leaves the current cache in place |
| `ServiceWorker.InstallSucceedsIff` | public/sw.js:15-25 | install succeeds, and calls `skipWaiting`, exactly when every asset fetch is accepted |
| `ServiceWorker.InstallKeepsOtherCaches` | public/sw.js:16-17 | install creates or keeps the current cache and touches no other |
| `ServiceWorker.InstallFailureAddsNothing` | public/sw.js:18-28 | a failed install leaves the current cache as it was, or new and empty |
| `ServiceWorker.InstallStoresEveryAsset` | public/sw.js:18-21 | a successful install stores every asset under its URL |
| `ServiceWorker.InstallIdempotent` | public/sw.js:13-30 | installing twice with the same network answers is installing once |
| `ServiceWorker.ActivateEffect` | public/sw.js:33-53 | after activation only the current cache remains, its entries unchanged; activating again changes nothing, and a match is a lookup in that cache |
| `ServiceWorker.ActivateStep` | public/sw.js:40-45 | each visited name is deleted when stale and kept when current, so the kept prefix grows by one |
| `ServiceWorker.CacheStorage.Open` | public/sw.js:17 | the storage becomes its opened value |
| `ServiceWorker.CacheStorage.Delete` | public/sw.js:43 | the cache is removed, and the result says whether it existed |
| `ServiceWorker.CacheStorage.Put` | public/sw.js:95-97 | the entry is written, replacing any entry for that URL |
| `ServiceWorker.CacheStorage.AddAll` | public/sw.js:20 | on success all the entries are written, and on failure none |
| `ServiceWorker.Install` | public/sw.js:13-30 | the storage becomes its installed value, and `skipWaiting` is called exactly when `addAll` succeeded |
| `ServiceWorker.Activate` | public/sw.js:33-53 | every stale cache is deleted, the current one is kept, and the pages are claimed |
| `ServiceWorker.DeleteIfStale` | public/sw.js:40-45 | one turn of the cleanup loop deletes the name if stale and keeps every remaining cache's entries |
| `ServiceWorker.OnFetch` | public/sw.js:56-113 | the outcome, the network use and the new storage are those of the fetch decision |

## Left out

- `UserIdService.UserIdService.SaveUserId`: `localStorage` calls are assumed
  to succeed. A `setItem` that throws, because of a full quota or disabled
  storage, would leave the ID held but not stored and throw to the caller.
  That path is not modelled. The same holds for `getItem` in the constructor
  and `LoadSavedUserId`, and for `removeItem` in `ClearUserId`.
- `ServiceWorker.Activate`: `caches.keys` and `caches.delete` are assumed to
  succeed. If either rejects, `Promise.all` rejects and `clients.claim` is
  never called. That path is not modelled, so the method always claims the
  pages.
- `ServiceWorker.OnFetch`: `caches.match` is assumed to succeed. Its rejection
  would reject the `respondWith` promise. Only the network fetch and the
  write-behind `put` may fail in the model.
- `ServiceWorker.Install`: `caches.open` is assumed to succeed. Only `addAll`
  may fail.
- Asynchrony is not modelled. Each handler runs as one step, and promise
  interleavings between handlers are not represented.
- `ServiceWorker.OnFetch`: the write-behind runs after the response is
  returned. The model reduces it to the boolean `persisted` and writes at once.
- URL resolution is simplified. Request URLs are absolute strings, and assets
  resolve as origin plus path. Fragments, `Vary` headers and request
  variations of `caches.match` are ignored.
- `ServiceWorker.CacheStorage.AddAll`: it fetches the URLs in order before
  writing. Whether the browser fetches in parallel is not represented.
- The `sync`, `push` and `notificationclick` handlers of the service worker
  are outside the core.
- `registerServiceWorker`, `isServiceWorkerSupported` and `isOffline` are
  browser probes: their results are the parameters of `GetInstallationInfo`.
  Registration itself is not modelled.
- The `getInstance` singletons are not modelled: each model service is one
  object.
- `console` logging is left out.
- `Calculations.Progress`: it uses exact reals, not IEEE doubles. A zero
  target, which gives an infinite or undefined ratio in floating point, is
  excluded.
- `Calculations.DaysRemaining` and `Countdown.FromDifference` use exact
  integer milliseconds. Doubles represent these exactly in the range dates
  use.
- `formatCurrency`, `formatDate`, `formatDateRelative` and the React
  components are outside the core.
- The React components' percentage display and timers are outside the core.
- Firebase and `useUserID`'s own state handling are outside the core.
