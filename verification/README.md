# Vendor dashboard: session handling and screen logic, modelled in Dafny

This project models the logic behind the vendor dashboard's screens. That
logic is the part of a React front end that runs after a user acts and
before or after the server answers:

- **Session store and shared HTTP client.** `login`, `register` and
  `logout` keep the two browser-storage entries `token` and `user`.
  `getCurrentUser`, `getToken` and `isAuthenticated` read them. The
  client's request interceptor attaches the bearer token, and its
  response interceptor signs the caller out on a 401.
- **Add-service dialog.** Its draft, and error messages that clear as the
  user types. The image picker with its type and size checks. The
  validation run on submit, and the multipart body it hands to the
  services screen.
- **Services screen.** Opening and closing the dialog, and which service
  is being edited. Saving with `PUT` while editing and `POST` otherwise.
  Deleting behind a confirmation. Refetching the list after each
  successful change.
- **Orders screen.** The per-row "Start" and "Complete" buttons, the
  status chip's colour and label, the status `PATCH`, and the refetch
  after it.
- **Registration and profile screens.** How an input's `name` picks the
  member of the form state it writes. The body each screen sends, and
  what each response leaves in storage and on screen.

Every step is a pure function. The server is never called:
- A step returns the requests it would issue.
- The server's answer is an input to the step.
- Browser storage is a `map<string, string>`.
- `Number(...)`/`isNaN` is a parameter `parse: string -> Option<real>`, where `None` stands for NaN.
- Toasts and navigation are output values.

Modules follow the source files:

| module | file |
|---|---|
| `Common` | `Option`, storage, the string helpers the screens use |
| `Http` | base URL, methods, requests |
| `ApiClient` | `apiClient.ts` |
| `AuthService` | `auth.service.ts` |
| `ServiceForm` | `AddServiceDialog.tsx` |
| `ServicesScreen` | `Services.tsx` |
| `OrdersScreen` | `Orders.tsx` |
| `Vendor` | the business fields shared by `Register.tsx` and `Profile.tsx` |
| `RegisterForm` | `Register.tsx` |
| `ProfileForm` | `Profile.tsx` |

Four behaviours of the code are easy to miss. The model follows the code,
and the lemmas below state each one:

- **A 401 is only half a sign-out.** It removes `token` but leaves `user`
  behind (`AuthService.UnauthorizedLeavesStaleUser`).
- **The registration screen stores only the token.** It calls `fetch`
  itself instead of the session store's `register`, so it writes `token`
  alone (`RegisterForm.ScreenRegistrationStoresOnlyToken`).
- **The services and orders screens bypass the shared client.** They call
  `fetch` directly, so the 401 handler never runs for them. They also build
  the header by hand, which sends `Bearer null` when no token is stored
  (`Http.RawBearer`, `ApiClient.RawBearerAgreesWithInterceptor`). The
  registration screen sends no `Authorization` header at all. The profile
  screen goes through the shared client, so a 401 there does sign the
  caller out (`ProfileForm.UnauthorizedFetchSignsOut`).
- **The add-service dialog never forgets its state.** It stays mounted and
  is never given the service being edited. Opening it to edit shows
  whatever draft it already holds. Its first use shows a blank form, and a
  valid submit then goes to `PUT /services/{id}`
  (`ServicesScreen.EditOpensUnfilledForm`).

## Model

| member | source | states |
|---|---|---|
| Http.RawBearer | src/components/services/Services.tsx:80-84 | The hand-built header is `Bearer <token>` when a token is stored, and `Bearer null` when none is |
| ApiClient.AttachToken | src/services/api/apiClient.ts:22-29 | With a non-empty stored token, the request gains exactly one header, `Authorization: Bearer <token>`, and keeps its other headers. Otherwise the request is unchanged |
| ApiClient.OnResponse | src/services/api/apiClient.ts:36-46 | The caller always receives the original outcome. A 401 removes `token` and nothing else, and redirects to `/login`. Every other outcome leaves storage alone and does not redirect |
| ApiClient.RawBearerAgreesWithInterceptor | src/components/services/Services.tsx:80-84 | With a non-empty token, the hand-built header equals the one the shared interceptor adds. With no token, or an empty one, the interceptor adds nothing while the screens still send `Bearer null` or `Bearer ` |
| AuthService.ParseStringify | src/services/auth.service.ts:111-114 | The stored form of a user parses back to that user, and is never the empty (falsy) string |
| AuthService.Login | src/services/auth.service.ts:66-78 | Posts the credentials and hands back the server's answer. On success, `token` holds the token and `getCurrentUser` returns the user; exactly the two keys are added and every other entry keeps its value. On failure, storage is unchanged |
| AuthService.RegisterRequest | src/services/auth.service.ts:84-94 | The posted body carries every given member, and a missing description becomes the empty string |
| AuthService.RegisterRequestLosesOnlyMissingDescription | src/services/auth.service.ts:84-94 | Two registrations post the same body exactly when they agree once a missing description is read as "". Nothing else is dropped or merged |
| AuthService.Register | src/services/auth.service.ts:80-104 | Posts the registration body. On success, it writes the two entries as `login` does and every other entry keeps its value. On failure, storage is untouched |
| AuthService.Logout | src/services/auth.service.ts:106-109 | Removes `token` and `user`, and keeps every other entry |
| AuthService.GetCurrentUser | src/services/auth.service.ts:111-114 | Returns no user exactly when `user` is missing or empty. A stored user is read back as that user, and a user it returns re-serialises to the stored text. It reports a malformed entry exactly when a non-empty text does not parse |
| AuthService.GetToken | src/services/auth.service.ts:116-118 | Returns the stored token exactly when one is stored, and null otherwise |
| AuthService.IsAuthenticated | src/services/auth.service.ts:120-122 | True exactly when a non-empty token is stored |
| AuthService.LoginStartsSession | src/services/auth.service.ts:66-78 | After a successful login, the caller is authenticated exactly when the token is non-empty, the user reads back unchanged, and both entries are present |
| AuthService.LogoutEndsSession | src/services/auth.service.ts:106-122 | After logout, the caller is not authenticated and no user is read back |
| AuthService.SessionOperationsKeepConsistency | src/services/auth.service.ts:66-109 | Login, register and logout each keep `token` and `user` present together or absent together |
| AuthService.UnauthorizedLeavesStaleUser | src/services/api/apiClient.ts:38-43 | After a 401 on a signed-in store, the caller is signed out, `getCurrentUser` still returns the old user, and the two entries are out of step |
| AuthService.InterceptorFollowsIsAuthenticated | src/services/auth.service.ts:15-26 | The session store's interceptor adds the bearer header exactly when `isAuthenticated` holds |
| ServiceForm.ClearError | src/components/services/AddServiceDialog.tsx:62-65 | Blanks only a message that is currently shown. Every other key keeps its message, and the set of keys does not change |
| ServiceForm.HandleChange | src/components/services/AddServiceDialog.tsx:56-66 | The typed input takes the value and its error is hidden. Every other input, error, the file and loading stay as they were |
| ServiceForm.HandleCategoryChange | src/components/services/AddServiceDialog.tsx:68-76 | Sets only the category and hides only the category error |
| ServiceForm.HandleAvailabilityChange | src/components/services/AddServiceDialog.tsx:78-87 | Sets only the day list and hides only the availability error |
| ServiceForm.HandleFileSelect | src/components/services/AddServiceDialog.tsx:89-109 | An image of at most 5 MiB replaces the selected file. Any other pick, or no pick, changes nothing |
| ServiceForm.Acceptable | src/components/services/AddServiceDialog.tsx:93-101 | A file is accepted when its type starts with `image/` and it is at most 5 MiB. Its boundaries are stated by `ServiceForm.FileSizeBoundary` |
| ServiceForm.HandleRemoveImage | src/components/services/AddServiceDialog.tsx:111-114 | Clears the file and leaves the draft, errors and loading alone |
| ServiceForm.RequiredInputsReported | src/components/services/AddServiceDialog.tsx:119-127 | Name, description, image, category and days are reported exactly when missing, each with its own message |
| ServiceForm.NumericInputsReported | src/components/services/AddServiceDialog.tsx:124-138 | Price and duration are reported when empty ("required") or not a number in range ("invalid", which overrides). Discount is reported only when it is non-empty and outside 0..100 |
| ServiceForm.ReportedErrorsShown | src/components/services/AddServiceDialog.tsx:119-143 | Every reported error carries a non-empty message, so all of them are shown |
| ServiceForm.Validate | src/components/services/AddServiceDialog.tsx:119-138 | The submit-time checks in source order, with later messages overwriting earlier ones for the same key. Its meaning is stated by `ServiceForm.RequiredInputsReported`, `ServiceForm.NumericInputsReported` and `ServiceForm.ValidExactlyWhenNoErrors` |
| ServiceForm.ValidExactlyWhenNoErrors | src/components/services/AddServiceDialog.tsx:119-143 | Submit finds no error exactly when all of these hold: the required inputs are present, price and duration are numbers in range, and discount is empty or in range |
| ServiceForm.TypingSettlesCheck | src/components/services/AddServiceDialog.tsx:56-66 | Typing hides that input's error. The next submit reports the input again exactly when the typed value fails that input's own check |
| ServiceForm.CategoryPickSettlesCheck | src/components/services/AddServiceDialog.tsx:68-76 | Picking a category hides its error. The next submit reports the category again exactly when the pick is empty |
| ServiceForm.DaysPickSettlesCheck | src/components/services/AddServiceDialog.tsx:78-87 | Choosing days hides their error. The next submit reports them again exactly when no day is chosen |
| ServiceForm.DayParts | src/components/services/AddServiceDialog.tsx:154-156 | One `availability[]` entry per selected day, in selection order |
| ServiceForm.Pack | src/components/services/AddServiceDialog.tsx:147-159 | The six text fields in their fixed order, then the days, then the image (when present) as the last entry |
| ServiceForm.Submit | src/components/services/AddServiceDialog.tsx:116-169 | Invalid input replaces the errors and sends nothing. Valid input sends the packed form, closes only if the parent's save resolved, and ends with loading off. The draft and file are always kept |
| ServiceForm.SplitDayParts | src/components/services/AddServiceDialog.tsx:154-156 | The day entries read back as exactly the selected days, and what follows them is left intact |
| ServiceForm.UnpackPack | src/components/services/AddServiceDialog.tsx:147-159 | The multipart body reads back as exactly the draft and file it was packed from |
| ServiceForm.ValidSubmissionCarriesImage | src/components/services/AddServiceDialog.tsx:123-159 | Whenever something is sent, an image was selected and it is the last entry |
| ServiceForm.RemovedImageBlocksSubmit | src/components/services/AddServiceDialog.tsx:111-127 | After the image is removed, the next submit sends nothing and reports "Image is required" |
| ServiceForm.NumericBoundaries | src/components/services/AddServiceDialog.tsx:130-138 | A price of 0 and a duration of 1 pass. Discounts 0, 100 and "" pass. A price of -1 and a discount of 150 fail |
| ServiceForm.FilePickSettlesCheck | src/components/services/AddServiceDialog.tsx:89-109 | After a pick, the next submit passes the image check exactly when the pick was accepted or a file was already selected. The pick leaves the errors alone, so a shown "Image is required" stays shown |
| ServiceForm.FileSizeBoundary | src/components/services/AddServiceDialog.tsx:93-101 | An image of exactly 5 MiB is accepted. One byte more is refused, and so is a non-image type |
| ServicesScreen.FetchServices | src/components/services/Services.tsx:78-98 | Success replaces the list and failure keeps it. Loading ends either way, and the dialog state is untouched |
| ServicesScreen.OpenDialog | src/components/services/Services.tsx:120-127 | Opens the dialog and remembers exactly the given service (or none). The dialog's own draft is not reset |
| ServicesScreen.CloseDialog | src/components/services/Services.tsx:129-132 | Closes the dialog and forgets the edited service |
| ServicesScreen.SaveRequest | src/components/services/Services.tsx:136-147 | `PUT /services/{id}` exactly while editing, `POST /services` exactly otherwise. The body is the multipart payload |
| ServicesScreen.HandleSubmit | src/components/services/Services.tsx:134-159 | A successful save closes the dialog, then refetches. A failed one is rethrown with no close and no refetch |
| ServicesScreen.HandleDelete | src/components/services/Services.tsx:161-184 | Without confirmation nothing is sent. Otherwise it sends `DELETE /services/{id}`, plus a refetch only if the delete succeeded |
| ServicesScreen.DeleteTargetsOneService | src/components/services/Services.tsx:161-173 | A confirmed delete targets the address an edit of that service saves to. Different identifiers give different addresses |
| ServicesScreen.SubmitDialog | src/components/services/AddServiceDialog.tsx:140-168 | A dialog submit followed through the parent. Invalid input issues no request. Valid input issues the save, then a refetch only on success, and closes the dialog only on success |
| ServicesScreen.Step | src/components/services/Services.tsx:120-192 | An action whose control is not on screen (anything before the first list answer, dialog input while it is closed, list buttons while the modal dialog is open) changes nothing and sends nothing. Only a submit or a confirmed delete sends a request |
| ServicesScreen.StepSendsHandBuiltHeader | src/components/services/Services.tsx:80-84 | Every request a single action sends carries the hand-built `Bearer` header |
| ServicesScreen.RunSendsHandBuiltHeader | src/components/services/Services.tsx:134-184 | Over any sequence of actions and answers, every request sent carries the hand-built header, and a sequence with no submit and no confirmed delete sends nothing |
| ServicesScreen.StepKeepsEditingOnlyWhileOpen | src/components/services/Services.tsx:120-159 | No single action or answer leaves a service being edited while the dialog is closed |
| ServicesScreen.RunKeepsEditingOnlyWhileOpen | src/components/services/Services.tsx:120-159 | Any sequence of actions and answers keeps that invariant |
| ServicesScreen.FirstLoadGatesTheScreen | src/components/services/Services.tsx:186-192 | Until the first list answer, no user action changes the screen. That answer ends loading with the dialog closed and in its first state |
| ServicesScreen.EditOpensUnfilledForm | src/components/services/Services.tsx:266-271 | Opening for edit shows exactly what opening for create shows. A sent edit goes to `PUT /services/{id}`. Once the list has first loaded, the form is blank and cannot be submitted |
| ServicesScreen.ValidCreateThenRefresh | src/components/services/Services.tsx:134-159 | A valid create issues exactly one `POST /services` with the packed form, then exactly one list fetch |
| OrdersScreen.ParseStatusName | src/components/orders/Orders.tsx:19-26 | Each status's wire text reads back as that status |
| OrdersScreen.ParseStatus | src/components/orders/Orders.tsx:23 | Reads the four status texts. A status it returns has exactly the given text as its name |
| OrdersScreen.Actions | src/components/orders/Orders.tsx:140-159 | A row offers at most one button. A button appears only for a known status, and never leads to `cancelled` |
| OrdersScreen.ActionsPerStatus | src/components/orders/Orders.tsx:140-159 | "Start" appears only for `pending` and "Complete" only for `in_progress`. A row has at most one button |
| OrdersScreen.ActionsMoveForward | src/components/orders/Orders.tsx:140-159 | Every offered button moves one step forward, never back and never to `cancelled` |
| OrdersScreen.PathsMoveForward | src/components/orders/Orders.tsx:140-159 | Along any sequence of button presses, each press moves one step forward. Nothing leaves `completed` or `cancelled`, and at most two presses are possible |
| OrdersScreen.StatusColorDistinguishes | src/components/orders/Orders.tsx:81-94 | The four statuses get four different colours. Only unknown text gets the default colour |
| OrdersScreen.StatusColor | src/components/orders/Orders.tsx:81-94 | The default colour is given exactly to text that is not one of the four statuses |
| OrdersScreen.ReplaceFirstChangesOnlyFirst | src/components/orders/Orders.tsx:131 | A one-character `replace` changes only the first occurrence and keeps the length |
| OrdersScreen.StatusLabelChangesFirstUnderscore | src/components/orders/Orders.tsx:131 | The chip label differs from the status only at its first underscore, which becomes a space |
| OrdersScreen.StatusLabelExamples | src/components/orders/Orders.tsx:131 | `in_progress` reads "in progress", and only the first of several underscores changes |
| OrdersScreen.StatusLabel | src/components/orders/Orders.tsx:131 | The chip label: the status with its first underscore replaced by a space. Its meaning is stated by `OrdersScreen.StatusLabelChangesFirstUnderscore` |
| OrdersScreen.FetchOrders | src/components/orders/Orders.tsx:36-56 | Success replaces the list and failure keeps it. Loading ends either way |
| OrdersScreen.LastSuccessfulFetchWins | src/components/orders/Orders.tsx:36-56 | However a run of fetches settles, the list shown is the one carried by the last successful answer, or the earlier list if none succeeded. Loading ends with the first settled answer |
| OrdersScreen.FailedFetchesShowNothing | src/components/orders/Orders.tsx:29-30 | The screen starts empty and loading, and stays empty while every fetch fails |
| OrdersScreen.HandleStatusUpdate | src/components/orders/Orders.tsx:58-79 | Sends one `PATCH .../orders/{id}/status` with the hand-built header, carrying the new status. Success brings exactly one refetch and the toast "Order status updated successfully". Failure brings no refetch and the toast "Failed to update order status" |
| OrdersScreen.ButtonRequestsNextStatus | src/components/orders/Orders.tsx:140-159 | A row's button asks, for that order, for the next status on the normal path, in text that reads back as that status |
| Vendor.FieldNameRoundTrip | src/services/api/vendorService.ts:15-22 | Each business member's input name reads back as that member, has no '.', and starts with "business" |
| RegisterForm.Initial | src/components/auth/Register.tsx:25-38 | The initial role is `vendor`. The initial category is `restaurant`, one of the offered categories. The two passwords match |
| RegisterForm.Route | src/components/auth/Register.tsx:42-56 | A name routed to a top-level member is that member's name. A name routed to a business member starts with `vendorInfo.`, and its segment up to the next dot is that member's name |
| RegisterForm.HandleChange | src/components/auth/Register.tsx:40-57 | The routed member takes the value and every other member keeps its value |
| RegisterForm.VendorNamesRoute | src/components/auth/Register.tsx:42-50 | Every `vendorInfo.<member>` input writes that business member |
| RegisterForm.TopNamesRoute | src/components/auth/Register.tsx:51-56 | Every top-level input writes its own member |
| RegisterForm.UpToDotWhole | src/components/auth/Register.tsx:43 | Splitting on '.' keeps a dot-free name whole |
| RegisterForm.RequestBody | src/components/auth/Register.tsx:73-79 | Sends name, email, password, role and the business members as entered |
| RegisterForm.BodyIgnoresConfirmation | src/components/auth/Register.tsx:73-79 | The confirmation never reaches the server |
| RegisterForm.HandleSubmit | src/components/auth/Register.tsx:59-94 | A mismatch shows "Passwords do not match" and sends nothing. Success stores the token, shows "Registration successful" and navigates to `/dashboard`. A rejection or error shows its message, or the matching fallback, and stores nothing |
| RegisterForm.ScreenRegistrationStoresOnlyToken | src/components/auth/Register.tsx:87-90 | After registering on this screen, the caller is authenticated but the stored user is whatever was there before. From empty storage the session is inconsistent |
| ProfileForm.SetBusiness | src/components/profile/Profile.tsx:43-49 | Writes one business member, and keeps the others and the verification flag |
| ProfileForm.Route | src/components/profile/Profile.tsx:42-55 | A name routed to a business member is that member's name. A name routed to a top-level member is `name` or `email` |
| ProfileForm.HandleChange | src/components/profile/Profile.tsx:39-57 | Does nothing before a profile is loaded. Afterwards, the routed member takes the value and everything else is kept, including id, role, verification flag and timestamps |
| ProfileForm.FormNamesRoute | src/components/profile/Profile.tsx:42-55 | The name, email and five business inputs each write their own member |
| ProfileForm.PayloadSendsOnlyEditableMembers | src/components/profile/Profile.tsx:66-73 | The payload depends only on the name and the business members, so an email edit never reaches the server |
| ProfileForm.PayloadReflectsForm | src/components/profile/Profile.tsx:66-73 | Each payload member is exactly what the form shows for it |
| ProfileForm.UpdatePayload | src/components/profile/Profile.tsx:66-73 | The name and the five business members, flattened. Its meaning is stated by `ProfileForm.PayloadReflectsForm` and `ProfileForm.PayloadSendsOnlyEditableMembers` |
| ProfileForm.FetchProfile | src/components/profile/Profile.tsx:25-37 | Success loads the profile and clears the error. Failure keeps the old profile and sets "Failed to fetch profile". Loading ends either way. A 401 also removes the token and redirects to `/login`; nothing else in storage changes |
| ProfileForm.HandleSubmit | src/components/profile/Profile.tsx:59-86 | Without a profile nothing happens. Otherwise the payload is sent. Success adopts the server's copy and toasts success. Failure keeps the draft and sets and toasts "Failed to update profile". A 401 also removes the token and redirects to `/login` |
| ProfileForm.NothingBeforeLoad | src/components/profile/Profile.tsx:39-61 | Before the profile has loaded, typing changes nothing and saving sends nothing and leaves storage alone |
| ProfileForm.RetryAfterFailedSaveSendsSamePayload | src/components/profile/Profile.tsx:79-85 | A failed save keeps the draft, so an immediate retry sends exactly the same payload |
| ProfileForm.UnauthorizedFetchSignsOut | src/services/api/apiClient.ts:38-43 | A 401 on loading the profile leaves the caller unauthenticated, redirects to `/login`, and keeps what the screen showed |
| ProfileForm.EditsKeepServerOwnedMembers | src/components/profile/Profile.tsx:39-57 | No sequence of edits changes the id, role, verification flag or timestamps, and edits never create a profile before one is loaded |

## Left out

- The network, `fetch`, axios, JSON bodies and status codes. A step returns the requests it would issue, and the server's answer is an argument of the step. Response shapes (`data.services`, `data.token`) are already decoded into the model's types.
- `JSON.stringify`/`JSON.parse` of the user record. The record is opaque text, and its stored form is that text in braces. Parsing inverts only that form: the model reads every stored text not of the form `{…}` as malformed. For such texts this differs from `JSON.parse`, which accepts `null`, `42` or `[]` (a stored `null` makes `getCurrentUser` return null) and rejects some texts in braces such as `{x}`.
- `Number(...)` and `isNaN`. These are the `parse` parameter, so the boundary properties hold for any `parse` that reads the texts involved as expected.
- Asynchrony: overlapping requests, effects that finish after unmount, and the short period while `loading` is true before a save settles. Each step is modelled from the click to the settled answer.
- Toasts, `console` logging, the image preview (`FileReader`, `previewUrl`), rendering, and the categories shown in the dialog's select. `window.confirm` is a boolean argument, and navigation and redirects are output values.
- `fetchCategories` on the services screen. It reads nothing the modelled logic uses.
- The `VITE_API_URL` override of the base URL. The model uses the default.
- The interceptors' error paths for request set-up, which only rethrow, and the clients' default `Content-Type`/`Accept` headers. The orders screen's explicit `Content-Type: application/json` on the status `PATCH` is not modelled either: a request carries only its method, address, `Authorization` header and body.
- `vendorService.ts` beyond its `VendorInfo`/`VendorProfile` shapes. The model keeps only the fact that `getProfile` and `updateProfile` go through the shared client; the profile steps receive the answer with `data.vendor` already unwrapped.
- `Dashboard.tsx`, `App.tsx` and the layout and header components. They are not part of this model.
- RegisterForm.HandleChange: a `name` that no input of the form uses leaves the draft unchanged. The source would add a new member under that name. Every name the form's inputs use is routed exactly.
- ProfileForm.HandleChange: the same restriction to the names the profile form's inputs use.
- RegisterForm.HandleSubmit: a success body without a `token` would store the text "undefined". The model takes the token as given.
- ServicesScreen.SubmitDialog: the dialog's "Failed to create service" toast on a rejected save is not modelled. The loading flag, the open state and the requests are.
