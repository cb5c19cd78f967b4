# Smart-home client: the API dispatcher and the screens that use it

A Dafny model of the networking core of a React Native smart-home app. It
covers six pieces:

- **`apiRequest` dispatcher.** It finds a reachable backend among a list
  of base URLs. The process-wide "last successful URL" cell decides where
  it starts. Every attempt of one call races a single shared 15 s timeout.
- **Probe.** `checkServerAvailability` runs a `/api/ping` probe with its
  own 5 s timeout.
- **Error classifier.** `handleApiError` turns a thrown message into an
  alert title.
- **Device wrappers.** These convert the backend's light and door records
  (`{id, ubicacion, status}`) into the screens' shape, and encode switch
  flips as `{status: 0|1}` posts.
- **Screens.**
  - The lights and doors screens: load with fallbacks, then optimistic
    update, confirmation or rollback.
  - The account-creation and login screens: validation order, the e-mail
    pattern, and the login flag.
- **Users context.** It loads the user list and deletes a user after
  confirmation.

The network, the clock and the memory cell are explicit:

- **Network.** The network is a total function from a fetch to its reply.
  A fetch is its serial number within the call (pings included, from 0)
  and the request it sends. A host listed twice is therefore asked twice,
  and may answer differently each time. Each reply carries the
  milliseconds it takes to settle.
- **Clock.** Time is a natural number that starts at 0 when a call begins.
- **Races.** A fetch wins its race iff it settles strictly before the
  deadline.
- **Memory cell.** The cell is an `Option<string>`. It counts as set only
  when it holds a non-empty (truthy) URL.

JavaScript values, their truthiness, `a || b`, property reads and
template-literal rendering are a datatype with functions
(`JsValue`).

Modules follow the source files:

| module | source |
|---|---|
| `ApiConfig` | `apiConfig.js` and the `BASE_URLS` table |
| `Dispatcher` | `tryFetch`, `checkServerAvailability`, `apiRequest` |
| `ErrorClassifier` | `handleApiError` |
| `DeviceApi` | the light and door wrappers |
| `DeviceLists` | the map-by-id update both device screens use |
| `LightsScreen`, `DoorsScreen`, `SignUpScreen`, `LoginScreen`, `UsersContext` | one per screen or context |

`Wrappers`, `Lists`, `Text` and `JsValue` are helpers.

Two behaviours of the code worth noting:

- **Non-array payloads.** A non-array payload from `getAllLights` /
  `getAllDoors` is handed back unchanged (`DeviceApi.Normalize`).
  It is not rejected as malformed.
- **Duplicate hosts.** The attempt order keeps duplicates. An unconfigured
  build lists its default URL twice (`ApiConfig.UnconfiguredDefaultListedTwice`),
  and `Dispatcher.OrderShape` shows that such a host is tried twice;
  `Dispatcher.ProbeRetriesDuplicate` and `Dispatcher.WalkRetriesDuplicate`
  show the probe and the loop asking it twice, the second copy answering.

## Model

| member | source | states |
|---|---|---|
| ApiConfig.ApiUrl | src/utils/apiConfig.js:5-21 | a truthy configured URL wins; otherwise Android gets the emulator host and iOS and web both get localhost |
| ApiConfig.UnconfiguredDefaultListedTwice | src/utils/api.js:5-21 | without configuration the default URL occurs exactly twice in `BASE_URLS`, again as the first fallback (Android) or the third (iOS/web) |
| ApiConfig.FallbacksDistinct | src/utils/api.js:10-20 | the first and third fallbacks differ from every other fallback |
| ApiConfig.BaseUrls | src/utils/api.js:5-21 | `BASE_URLS` is the configured URL followed by the eleven fallbacks, in order |
| Dispatcher.TryFetch | src/utils/api.js:124-154 | an attempt succeeds iff an ok (2xx) answer with a parsable body arrives strictly before the deadline, and then yields the parsed body; a late reply fails with "Tiempo de espera agotado"; past the deadline it fails at once without advancing the clock |
| Dispatcher.TryFetchErrors | src/utils/api.js:134-149 | an in-time non-ok answer fails with "Error HTTP <status>: <body text>"; an ok answer whose body does not parse fails with the invalid-format message |
| Dispatcher.Walk | src/utils/api.js:78-94 | a successful walk names the host that answered and it is the `attempts`-th host; a failed walk tried every host; time never goes back |
| Dispatcher.WalkAppend | src/utils/api.js:66-94 | trying the remembered URL then the loop is one walk: hosts after a success are never tried, and after a failure the rest start at the clock and with the error it left |
| Dispatcher.WalkShortCircuit | src/utils/api.js:85-89 | the first success returns; appending hosts after it changes nothing |
| Dispatcher.WalkWinnerIsFirstSuccess | src/utils/api.js:78-94 | a successful walk of k attempts failed on its first k-1 hosts and depends on nothing after the k-th |
| Dispatcher.WalkPrefixSuccess | src/utils/api.js:85-89 | a walk that succeeds within its first j hosts fires at most j requests and ignores the rest |
| Dispatcher.WalkPrefix | src/utils/api.js:78-94 | a walk splits at any index into the walk of the prefix and, only if that failed, the walk of the rest |
| Dispatcher.WalkReportsLastError | src/utils/api.js:90-96 | when all hosts fail, the error thrown is the last attempt's; the "No se pudo conectar a ningún servidor" default survives only if nothing was tried |
| Dispatcher.WalkAfterDeadline | src/utils/api.js:49-51 | once the shared timeout has fired every remaining host fails immediately with the timeout message |
| Dispatcher.WalkRetriesDuplicate | src/utils/api.js:77-92 | a base URL listed twice is fetched twice: a refused first fetch does not stop the second copy from answering, and the call returns that answer after two attempts |
| Dispatcher.SharedDeadline | src/utils/api.js:49-94 | the 15 s budget is per call, not per attempt: a first host failing after 8 s leaves a second host answering in 8 s timed out |
| Dispatcher.Probe | src/utils/api.js:525-560 | the probe fires one fresh ping per host until one is found; a found host is the host of its last ping, and a probe finding nothing pinged every host |
| Dispatcher.ProbeAppend | src/utils/api.js:531-556 | probing h1+h2 is probing h1 and, only if nothing was found, h2 from where it stopped |
| Dispatcher.ProbeFindsFirstReachable | src/utils/api.js:531-556 | after nothing was found among the first k hosts, the probe ends with its (k+1)-th ping, returning host k, iff that ping answers below 500 in time |
| Dispatcher.ProbeFirst | src/utils/api.js:533-552 | the probe ends after one ping, on the first host, iff that ping answers below 500 in time |
| Dispatcher.ProbeNothingReachable | src/utils/api.js:558-559 | a probe returning null passed over every host at its turn |
| Dispatcher.ProbeRetriesDuplicate | src/utils/api.js:531-545 | a host listed twice is pinged twice: a failed first ping does not stop the second copy from being found |
| Dispatcher.ProbeAfterDeadline | src/utils/api.js:526-528 | once the 5 s probe timeout has fired no host can be found |
| Dispatcher.Order | src/utils/api.js:66-80 | a set cell's URL is tried first and never again; every other host tried is a base URL; at most one more host than the base list |
| Dispatcher.OrderShape | src/utils/api.js:66-80 | the attempt order starts with the remembered URL and holds it once; every other base URL keeps its multiplicity; its length follows |
| Dispatcher.Resolve | src/utils/api.js:57-63 | a set cell is kept and no ping is fired; otherwise the cell becomes the host the probe found or, when it found nothing, stays as it was, and the clock and ping count are the probe's |
| Dispatcher.Request | src/utils/api.js:57-96 | after a call the cell holds what it held before or one of the base URLs; at most one request per base URL plus the remembered one |
| Dispatcher.RequestMemory | src/utils/api.js:57-94 | after a success the cell holds the host that answered (unchanged if it was the remembered one); after a failure it is as the probe step left it and every host in the order was tried |
| Dispatcher.RememberedTriedFirst | src/utils/api.js:66-70 | with a set cell whose URL answers, the call returns that answer after one request and leaves the cell unchanged |
| Dispatcher.Reconnect | src/utils/api.js:579-581 | clearing the cell and probing again leaves a base URL in it, or nothing when every host was passed over at its turn |
| Dispatcher.ApiRequest | src/utils/api.js:33-119 | the imperative dispatcher (probe, remembered URL, loop skipping it) computes exactly the reference definition `Request`: same result, same cell, same number of requests |
| Dispatcher.TryBases | src/utils/api.js:78-94 | the loop over `BASE_URLS` is the walk over the base list with every entry `===` the cell removed |
| Dispatcher.BasesFromIsWalk | src/utils/api.js:78-94 | the loop from entry i on equals the walk over the remaining entries with the cell's entries removed |
| ErrorClassifier.Classify | src/utils/api.js:217-255 | each category holds iff its marker is present and every earlier marker is absent, in the order network, JSON, 404, HTTP, "agotado", "Failed to fetch" |
| ErrorClassifier.HttpMarkerInNotFound | src/utils/api.js:236-244 | a message with "Error HTTP 404" also has "Error HTTP", so the 404 branch must come first |
| ErrorClassifier.Title | src/utils/api.js:214-246 | the two HTTP branches get "Error del servidor", JSON gets "Error en respuesta", everything else keeps "Error de conexión" |
| ErrorClassifier.HandleApiError | src/utils/api.js:211-265 | the title is the server-error one iff the message holds "Error HTTP" and neither the network nor the JSON marker, the response-error one iff it holds "JSON" but not the network marker, and the connection-error one otherwise |
| ErrorClassifier.TimeoutIsTimedOut | src/utils/api.js:247-252 | the dispatcher's timeout error reaches the timeout branch, with the connection-error title |
| ErrorClassifier.NoServerIsUnclassified | src/utils/api.js:96 | the all-hosts-failed default error matches no marker and gets the connection-error title |
| ErrorClassifier.InvalidFormatIsUnclassified | src/utils/api.js:145-148 | the unparsable-body error does not contain "JSON" and falls through every branch |
| ErrorClassifier.HttpErrorClassification | src/utils/api.js:236-246 | an HTTP error is a server error and a 404 the missing-endpoint one, unless the server's body text holds an earlier marker or the 404 marker |
| ErrorClassifier.HttpErrorEarlyMarkers | src/utils/api.js:137 | "Network request failed" and "JSON" occur in an HTTP error message iff they occur in the body text |
| ErrorClassifier.HttpErrorNotFound | src/utils/api.js:137 | "Error HTTP 404" occurs in an HTTP error message iff the status is 404 or the body text holds it; "Error HTTP" always does |
| DeviceApi.Payload | src/utils/api.js:284 | the `body` member when truthy, else the response; a truthy response has a truthy payload |
| DeviceApi.MapItems | src/utils/api.js:288-292 | conversion succeeds iff no record is null/undefined and then converts each record in place; otherwise it throws at the first such record |
| DeviceApi.View | src/utils/api.js:393-398 | a converted record has exactly the frontend's keys, keeps the id, takes `ubicacion` as name, and is on iff status 1 (lights), closed and locked iff status 0 (doors) |
| DeviceApi.NormalizeArray | src/utils/api.js:282-294 | an array payload, bare or in `body`, becomes `{status: true, data}` with one converted record per backend record, in order |
| DeviceApi.Normalize | src/utils/api.js:282-297 | the normaliser throws iff the payload is an array holding a null or undefined record, with the message reading a property of one of them; otherwise an array payload becomes `{status: true, data}` with one converted record per backend record, in order, and a falsy response or a non-array payload is returned unchanged |
| DeviceApi.NormalizeOne | src/utils/api.js:318-331 | a truthy single-record response is always wrapped as `{status: true, data}` around the converted payload; a falsy one is returned as it is |
| DeviceApi.CodesRoundTrip | src/utils/api.js:455-458 | the door code (close = 0) and light code (on = 1) decode back to the boolean sent, and are complementary |
| DeviceApi.LockCall | src/utils/api.js:480-481 | `lockDoor` posts status 0 and `unlockDoor` status 1 |
| DeviceApi.ToggleCall | src/utils/api.js:348-361 | a toggle is a POST to the device's status endpoint whose status reads back, through the normaliser's decoding, as the requested state |
| DeviceApi.ToggleLightThreeOn | src/utils/api.js:356-361 | turning light 3 on posts `{"status": 1}` to `/api/luces/estado/3` |
| DeviceApi.GetAll | src/utils/api.js:274-303 | the collection GET is sent; a failed request is rethrown unchanged, an answer normalised; an array answer without null records comes back as `{status: true, data}` with one converted record per backend record and raises no alert; an alert is raised iff the wrapper throws, with that error's classification; the cell is the dispatcher's |
| DeviceApi.GetOne | src/utils/api.js:310-340 | the by-id GET is sent; the wrapper throws iff the request failed, rethrowing it after one alert; a truthy answer becomes `{status: true, data}` around its converted payload, a falsy one is returned as it is |
| DeviceApi.Toggle | src/utils/api.js:348-370 | the POST for the requested state is sent; the server's raw answer is returned unconverted; an alert is raised iff the request failed, and the error is rethrown unchanged |
| DeviceLists.UpdateById | src/screen/home/LucesCasa.tsx:65-67 | length is kept; entries with the id get the changes spread over their fields; every other entry is untouched |
| DeviceLists.UpdateByIdNoChange | src/screen/home/LucesCasa.tsx:89-91 | writing back values the targeted entries already hold returns the same list |
| DeviceLists.UpdateByIdOverwrite | src/screen/home/LucesCasa.tsx:79-81 | a second update covering every field of the first (and not the id) makes the first irrelevant |
| LightsScreen.CargarLuces | src/screen/home/LucesCasa.tsx:20-56 | error banner iff loading threw, then the two fallback lights and the thrown message; an accepted answer shows its `data` (or nothing); any other answer the eight sample lights |
| LightsScreen.ServerLightsListed | src/screen/home/LucesCasa.tsx:24-26 | a normalised record array is shown as is: one light per record, in order, on iff its stored status is 1 |
| LightsScreen.LoadShowsServerLights | src/screen/home/LucesCasa.tsx:20-56 | end to end through the dispatcher: server records appear in order with their id and on/off state; a dispatcher failure shows the fallback lights and its message |
| LightsScreen.CambiarEstadoLuz | src/screen/home/LucesCasa.tsx:59-100 | posts the negated state; the optimistic list flips only the lights with that id; other lights never change; an alert with the id and message iff the request threw |
| LightsScreen.FailureRollsBack | src/screen/home/LucesCasa.tsx:85-91 | a failed request gives back exactly the list the user saw |
| LightsScreen.ConfirmationOverridesOptimistic | src/screen/home/LucesCasa.tsx:76-83 | a confirmed `data.estado` is written over the optimistic list and ends as the light's state |
| LightsScreen.UnconfirmedKeepsOptimistic | src/screen/home/LucesCasa.tsx:74-83 | an answer without a confirmed value keeps the optimistic list |
| LightsScreen.FlipTwiceRestores | src/screen/home/LucesCasa.tsx:162-164 | flipping a light and flipping it back (unconfirmed) restores the original list |
| DoorsScreen.CargarPuertas | src/screen/home/PuertaCasa.tsx:18-54 | error iff loading threw, and then always the fixed "Error al cargar las puertas." with the two fallback doors; otherwise as for lights |
| DoorsScreen.Render | src/screen/home/PuertaCasa.tsx:157-170 | the error panel is shown iff there is an error |
| DoorsScreen.ServerDoorsListed | src/screen/home/PuertaCasa.tsx:22-24 | a normalised record array is listed as is: one door per record, closed iff its stored status is 0 |
| DoorsScreen.LoadShowsServerDoors | src/screen/home/PuertaCasa.tsx:18-54 | end to end: a dispatcher failure shows the fixed error panel whatever the message, never the stored fallback doors; server records are listed in order |
| DoorsScreen.CambiarEstadoPuerta | src/screen/home/PuertaCasa.tsx:57-102 | posts the negated `cerrada`; only doors with that id change; alert with id and message iff the request threw |
| DoorsScreen.SwitchClosesOpenDoor | src/screen/home/PuertaCasa.tsx:184-186 | flipping an open door posts status 0 (close), a closed one status 1 |
| DoorsScreen.FailureRollsBack | src/screen/home/PuertaCasa.tsx:87-93 | a failed request gives back exactly the list the user saw |
| DoorsScreen.ConfirmationOverridesOptimistic | src/screen/home/PuertaCasa.tsx:74-85 | a confirmed `data.cerrada` is written over the optimistic list, and `bloqueada` equals `cerrada` afterwards |
| DoorsScreen.FlipTwiceRestores | src/screen/home/PuertaCasa.tsx:57-85 | closing and reopening a door (unconfirmed) restores the original list |
| SignUpScreen.TestEmail | src/screen/login/ScreenCrearCuenta.tsx:36-37 | the scan answers true iff the text contains non-space, "@", non-space run, ".", non-space somewhere |
| SignUpScreen.EmailExamples | src/screen/login/ScreenCrearCuenta.tsx:36 | "ana@casa.mx" matches the pattern and "ana@casa" does not |
| SignUpScreen.Validate | src/screen/login/ScreenCrearCuenta.tsx:26-46 | each rejection holds iff its check fails and every earlier check passed: empty field, password mismatch, e-mail pattern, fewer than 6 UTF-16 code units |
| SignUpScreen.ReadyExactlyWhenValid | src/screen/login/ScreenCrearCuenta.tsx:26-53 | the form is sent iff name and e-mail are filled, the passwords agree, the e-mail matches and the password is 6+ UTF-16 code units long; the body carries the form's values and status "activo" |
| SignUpScreen.ThreeEmojiPassword | src/screen/login/ScreenCrearCuenta.tsx:43 | a password of three emoji outside the Basic Multilingual Plane has length 6 and passes the length check |
| Text.Utf16Length | src/screen/login/ScreenCrearCuenta.tsx:43 | `length` counts one unit per character of the Basic Multilingual Plane and two for any other: between the character count and twice it, and equal to it for BMP-only text |
| SignUpScreen.OnCrearCuenta | src/screen/login/ScreenCrearCuenta.tsx:24-89 | a request is sent iff validation passes; the success alert ("La cuenta para <nombre> ha sido creada exitosamente.", carrying the registered e-mail and password) iff the answer has a truthy status; any other answer warns with its `mensaje` or "Error al crear la cuenta"; the API alert iff the request threw |
| LoginScreen.OnLogin | src/screen/login/ScreenLogin.tsx:37-68 | a request is sent iff both fields are filled; the user is logged in afterwards iff already logged in or the answer has a truthy status; a rejected answer shows its `mensaje` or "Credenciales incorrectas" |
| LoginScreen.NeverLogsOut | src/screen/login/ScreenLogin.tsx:55-57 | a logged-in user stays logged in whatever the answer |
| LoginScreen.RegisteredCredentialsLogIn | src/screen/login/ScreenLogin.tsx:25-51 | after account creation, the pre-filled login posts exactly the registered e-mail and password |
| UsersContext.Unwrap | src/context/EstadoGloblaUser.tsx:70-72 | an array body is the list; otherwise its truthy `data`, else the body itself |
| UsersContext.CargarUsuarios | src/context/EstadoGloblaUser.tsx:56-86 | no error iff the answer has a truthy `body`, then the unwrapped list; otherwise the previous list stays with "No se pudieron cargar los usuarios" or, when it threw, "Error al cargar usuarios" |
| UsersContext.EnvelopesAgree | src/context/EstadoGloblaUser.tsx:68-74 | `{body: list}` and `{body: {data: list}}` load the same list |
| UsersContext.FailedLoadKeepsList | src/context/EstadoGloblaUser.tsx:76-82 | a failed load never replaces the list on screen |
| UsersContext.EliminarUsuario | src/context/EstadoGloblaUser.tsx:89-130 | a request with the id is sent iff confirmed; the list is reloaded iff the answer is truthy without `error`; otherwise the refusal text with `mensaje` or the fixed failure text, and loading is cleared |

## Left out

- **Transport details.** Headers, request-option merging and `JSON.stringify` are not modelled. A request carries its body as a value. Parsing is part of the network's reply: the parsed value, or None when it would not parse.
- **Timers and concurrency.** These are a clock and a fixed order of events. The time to read a response body is not raced against the timeout. A fetch still running after losing its race has no later effect.
- **Console output.** It is not modelled. Neither are the `ERROR_ALERT_ACTIVE` flag and the advice alert `apiRequest` shows before rethrowing (api.js lines 99-116).
- **Alert wording.** The advice texts of `handleApiError` and its Android/iOS extras are not modelled. An alert is its category and title only.
- **Loading indicators.** The `loading`/`refreshing` flags of the two device screens, the login screen (ScreenLogin.tsx lines 43 and 66), the sign-up screen (ScreenCrearCuenta.tsx lines 55 and 87) and the users context's load (EstadoGloblaUser.tsx `cargarUsuarios`) are not modelled, because their `finally` blocks always clear them. Only `UsersContext.EliminarUsuario` models its flag, which ends cleared.
- **Numbers.** They are integers, and ids are integers. Every number the client inspects is a 0/1 status code, an HTTP status or an id.
- **Query and diagnostic helpers.** `getLightsByLocation` and `getDoorsByType` only forward to `apiRequest` with `handleApiError`. `showApiEndpointsInfo` and the debug alert show fixed text. Only the "Reintentar Conexión" reset is modelled, as `Dispatcher.Reconnect`.
- **Unused config.** The `TEST`, `TOGGLE`, `UPDATE`, `LOCK` and `UNLOCK` endpoint constants are not modelled, because no modelled code uses them. `DB_CONFIG` and `API_CONFIG` are left out for the same reason.
- **Login pre-fill.** The `useEffect` that fills the login fields appears only inside `LoginScreen.RegisteredCredentialsLogIn`. There the registered credentials are passed straight to `OnLogin`.
- LightsScreen.CambiarEstadoLuz: requires a list without `null`/`undefined` entries. On such an entry the source's `map` throws, and the rollback throws again outside the `try`. That uncaught rejection is not modelled.
- DoorsScreen.CambiarEstadoPuerta: requires a list without `null`/`undefined` entries, for the same reason.
- DeviceApi.MapItems: the TypeError's wording is engine-specific and is only approximated. It holds none of the classifier's markers, which is all the rest of the model depends on.
- ApiConfig.ApiUrl: a configured URL is a string or absent. A non-string truthy `extra.apiUrl` is not modelled.
- SignUpScreen.OnCrearCuenta: a non-string `mensaje` is shown through its template-literal rendering. The alert's own conversion of a non-string message is not modelled. LoginScreen.OnLogin is approximated the same way.
