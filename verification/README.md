# Literary-submission site: state machines and validators

A Dafny model of the interaction logic of a small single-page literary
submission site: the story-file uploader with its media-type and size checks,
the sign-in / sign-up dialog and its submit protocol, the hamburger menu's
open state, the page router, the environment configuration reader, and the
contact form's field binding. Each component is one module:

| module | file | component |
|---|---|---|
| `StoryUpload` | story_upload.dfy | src/components/StoryUpload.tsx |
| `LoginWindow` | login_window.dfy | src/components/LoginWindow.tsx |
| `HamburgerNav` | hamburger_nav.dfy | src/components/HamburgerNav.tsx |
| `App` | app.dfy | src/App.tsx |
| `Config` | config.dfy | src/config.ts |
| `ContactForm` | contact_form.dfy | src/components/ContactForm.tsx |
| `Common` | common.dfy | `Option`, for `null` / `undefined` |

Components whose handlers update state are classes whose fields are the
component's state and whose methods are the event handlers; callbacks to the
parent, `alert`/`console.log` acknowledgements and focus moves are appended to
a trace field. Pure decisions (the upload verdict, the next `open` flag, the
next page, the rendered view, the configuration result) are functions, and
the properties about runs of events are lemmas over them.

A successful story submit does not clear the selection: `handleSubmit`
(src/components/StoryUpload.tsx:44-61) leaves the selection and the error as
they were, and so does `UploadForm.HandleSubmit`.

## Model

| member | source | states |
|---|---|---|
| `StoryUpload.DecimalString` | src/components/StoryUpload.tsx:36 | the printed ceiling is a non-empty digit string without leading zeros that reads back as the number printed |
| `StoryUpload.TooLargeMessage` | src/components/StoryUpload.tsx:36 | the too-large message is "File is too large. Max size is " + digits + " MB." where the digits, without leading zeros, read back as `maxSizeBytes div 1048576` |
| `StoryUpload.DefaultCeilingMessage` | src/components/StoryUpload.tsx:9 | with the default ceiling of 10 MiB the message says "10 MB" |
| `StoryUpload.Validate` | src/components/StoryUpload.tsx:15-41 | no file gives no selection and no error; a file is accepted (as itself) exactly when its type is one of the three allowed types and its size is within the ceiling; a disallowed type gives the invalid-type message whatever its size (type checked first); an allowed type over the ceiling gives the too-large message |
| `StoryUpload.UploadForm.constructor` | src/components/StoryUpload.tsx:9-12 | ceiling defaults to 10 MiB when not given; starts with no selection, no error, an empty picker and no submissions |
| `StoryUpload.UploadForm.HandleFileChange` | src/components/StoryUpload.tsx:14-42 | selection and error follow the verdict of `Validate`; keeps the invariant that a selection passed both checks, is the picker's first file and has no error beside it |
| `StoryUpload.UploadForm.HandleSubmit` | src/components/StoryUpload.tsx:44-61 | without a selection the error becomes "Please select a file to upload." and nothing is handed out; with one, exactly one submission of that file (to `onSubmit`, or acknowledged locally) and selection and error unchanged |
| `StoryUpload.UploadForm.HandleClear` | src/components/StoryUpload.tsx:63-69 | selection, error and the picker's file list are reset together |
| `StoryUpload.UploadForm.SubmitDisabled` | src/components/StoryUpload.tsx:97 | the upload button is disabled exactly when there is no selection; when enabled the selection is an acceptable file |
| `LoginWindow.SubmitLabel` | src/components/LoginWindow.tsx:116 | "Please wait…" while submitting, otherwise "Sign In" or "Create Account" by mode |
| `LoginWindow.SubmitLabelDistinguishes` | src/components/LoginWindow.tsx:116 | two button states have the same label exactly when both are submitting, or both idle in the same mode |
| `LoginWindow.ProviderCallFor` | src/components/LoginWindow.tsx:23-33 | sign-in mode calls the sign-in operation, sign-up mode the create-account operation, each with the form's email and password |
| `LoginWindow.SuccessCallbacks` | src/components/LoginWindow.tsx:35-36 | after success `onLoggedIn` runs before `onClose`, each exactly when supplied |
| `LoginWindow.LoginDialog.constructor` | src/components/LoginWindow.tsx:11-16 | starts in sign-in mode with empty email, password and confirmation, not submitting and without error |
| `LoginWindow.LoginDialog.SelectMode` | src/components/LoginWindow.tsx:60-68 | a tab click sets the mode |
| `LoginWindow.LoginDialog.SetEmail` | src/components/LoginWindow.tsx:83 | typing sets the email |
| `LoginWindow.LoginDialog.SetPassword` | src/components/LoginWindow.tsx:95 | typing sets the password |
| `LoginWindow.LoginDialog.SetConfirmPassword` | src/components/LoginWindow.tsx:108 | typing sets the confirmation |
| `LoginWindow.LoginDialog.Close` | src/components/LoginWindow.tsx:49-50 | the close button, present only when `onClose` was given, invokes it once |
| `LoginWindow.LoginDialog.Submit` | src/components/LoginWindow.tsx:18-33 | the error is cleared and submitting set before the provider is called; a sign-up with differing passwords ends with "Passwords do not match", not submitting and no provider call; otherwise exactly one provider call for the mode is made and awaited with submitting set and no error |
| `LoginWindow.LoginDialog.Settle` | src/components/LoginWindow.tsx:35-41 | on success the error stays cleared and the supplied callbacks run in order; on failure the error is the provider's message and no callback runs; submitting ends in both cases |
| `LoginWindow.LoginDialog.HandleSubmit` | src/components/LoginWindow.tsx:18-42 | a whole submit: afterwards submitting is false, with the mismatch, success and failure outcomes above |
| `LoginWindow.LoginDialog.SubmitDisabled` | src/components/LoginWindow.tsx:115-116 | the submit control is disabled exactly while a provider call is awaited, and then shows the waiting label |
| `LoginWindow.LoginDialog.ConfirmVisible` | src/components/LoginWindow.tsx:99 | the confirmation field is rendered only in sign-up mode, and only then can it stop a submit: while hidden no confirmation counts as a mismatch, while shown exactly those differing from the password do |
| `HamburgerNav.NextOpen` | src/components/HamburgerNav.tsx:17-59 | the toggle flips the flag; Escape, a mouse-down outside while open and choosing an item close it; other keys and mouse-downs inside leave it; a mouse-down while closed changes nothing |
| `HamburgerNav.OpenIffOddToggles` | src/components/HamburgerNav.tsx:12-59 | after any run of events the menu is open exactly when the toggles since the last closing event are odd (counting from the initial state if nothing closed it) |
| `HamburgerNav.MenuOpenFromStart` | src/components/HamburgerNav.tsx:12 | from the closed start, open exactly after an odd number of toggles since the last close |
| `HamburgerNav.LabelAfterRun` | src/components/HamburgerNav.tsx:56-78 | after any run of events from the closed start the trigger reads "Close menu" (panel rendered, expanded) exactly when the toggles since the last closing event are odd, and "Open menu" exactly when they are even |
| `HamburgerNav.NavMenu.constructor` | src/components/HamburgerNav.tsx:11-12 | the menu starts closed with no effects |
| `HamburgerNav.NavMenu.HandleToggle` | src/components/HamburgerNav.tsx:59 | the trigger click flips `open` |
| `HamburgerNav.NavMenu.OnDocumentKeyDown` | src/components/HamburgerNav.tsx:17-22 | Escape closes in any state and returns focus to the trigger; other keys change nothing |
| `HamburgerNav.NavMenu.OnClickAway` | src/components/HamburgerNav.tsx:23-29 | the menu is open afterwards exactly when it was open and the mouse-down was in the panel or the trigger |
| `HamburgerNav.NavMenu.HandleItem` | src/components/HamburgerNav.tsx:38-43 | choosing an item closes the menu, then invokes that item's callback exactly once if supplied |
| `App.Navigate` | src/App.tsx:13-31 | Home, About and Login set their page; Logout and Settings leave the page as it was |
| `App.LastNavigationWins` | src/App.tsx:13-31 | after any run of menu choices the page is the one named by the last navigating choice, or unchanged if there was none |
| `App.AboutThenHome` | src/App.tsx:25-31 | About followed by Home lands on the home page from any page |
| `App.Render` | src/App.tsx:43-90 | exactly one of the three views is rendered, the one named by the page |
| `App.RenderInjective` | src/App.tsx:43-90 | different pages render different views |
| `App.AppRoot.constructor` | src/App.tsx:11 | the app starts on the home page, with the menu closed and given all five callbacks |
| `App.AppRoot.HandleLogin` | src/App.tsx:13-15 | sets the page to login |
| `App.AppRoot.HandleLogout` | src/App.tsx:17-19 | acknowledges with "Logout clicked"; the page is unchanged |
| `App.AppRoot.HandleSettings` | src/App.tsx:21-23 | acknowledges with "Settings clicked"; the page is unchanged |
| `App.AppRoot.HandleAbout` | src/App.tsx:25-27 | sets the page to about |
| `App.AppRoot.HandleHome` | src/App.tsx:29-31 | sets the page to home |
| `App.AppRoot.DialogClosed` | src/App.tsx:87 | the login dialog's close callback returns to home |
| `App.AppRoot.DialogLoggedIn` | src/App.tsx:88 | the login dialog's logged-in callback returns to home |
| `App.AppRoot.ChooseMenuItem` | src/App.tsx:35-41 | choosing a menu item closes the menu, records the callback, and moves the page as `Navigate` says |
| `Config.TrimEmptyIffBlank` | src/config.ts:20 | `trim()` yields the empty string exactly for strings made only of ECMAScript whitespace |
| `Config.RequireString` | src/config.ts:18-22 | null exactly for a missing, non-string or whitespace-only value; otherwise the value itself, untrimmed |
| `Config.Missing` | src/config.ts:30-37 | contains exactly the keys whose `requireString` is null, in declaration order (a subsequence of the key list) |
| `Config.MissingError` | src/config.ts:42 | the error text starts with "Missing env: " |
| `Config.PartOffset` | src/config.ts:42 | part `i` of the list occurs in the joined text at the returned position |
| `Config.NextPartOffset` | src/config.ts:42 | in the joined text the next part starts exactly one separator's length after the previous part ends |
| `Config.SeparatorFollowsPart` | src/config.ts:42 | every part but the last is followed directly by the separator, and the next part starts right after it |
| `Config.PartsInOrder` | src/config.ts:42 | parts occur in the joined text in list order, at least a separator's length apart |
| `Config.MissingErrorKeysInOrder` | src/config.ts:30-42 | the error text names the missing keys one after another in the order of the missing list (declaration order) |
| `Config.MissingErrorSeparator` | src/config.ts:42 | in the error text, each missing key but the last is followed directly by ", " and the next key starts right after it |
| `Config.MissingErrorNamesEach` | src/config.ts:42 | every missing key occurs in the error text after its prefix |
| `Config.Truthy` | src/config.ts:54 | the `or undefined` fallback drops undefined, the empty string and false, and keeps any other value |
| `Config.Required` | src/config.ts:48-53 | a required key that is not missing holds a non-blank string in the environment |
| `Config.ReadEnv` | src/config.ts:15-58 | an error exactly when some required key is missing, with the error text for the missing list; otherwise each of the six settings is its environment string and the measurement id is kept only when truthy |
| `Config.DeriveConfig` | src/config.ts:63-75 | `config` is present exactly for a successful result and copies its seven settings |
| `Config.ConfigError` | src/config.ts:77 | `configError` is set exactly for a failed result and equals its error |
| `Config.ConfigNullIffError` | src/config.ts:63-77 | for every environment the error text is non-empty, and `config` is null exactly when `configError` is set |
| `Config.ErrorNamesMissingKeys` | src/config.ts:30-44 | every required key whose value is missing or blank is named in the error text |
| `ContactForm.Set` | src/components/ContactForm.tsx:28 | a change sets its field to the value and keeps the other three |
| `ContactForm.LastWriteWins` | src/components/ContactForm.tsx:24-29 | after any run of changes each field holds the value last written to it, independently of the others, or its initial value |
| `ContactForm.UntouchedFieldStaysEmpty` | src/components/ContactForm.tsx:17-22 | from the empty record a field never written stays empty |
| `ContactForm.Form.constructor` | src/components/ContactForm.tsx:17-22 | the record starts with all four fields empty |
| `ContactForm.Form.HandleChange` | src/components/ContactForm.tsx:24-29 | the record becomes the old record with the changed field set |
| `ContactForm.Form.HandleSubmit` | src/components/ContactForm.tsx:31-40 | the current record is handed out exactly once (to `onSubmit`, or acknowledged locally) and the record is not changed |

## Left out

- The identity-provider calls and the dynamic import of the auth library are abstract: a submit records the call it makes and its result arrives as an `Outcome`; a failed import counts as a rejected call.
- The asynchronous interleaving of a pending provider call with other events, and a result that arrives after the dialog was dismissed, are not modelled.
- LoginWindow.LoginDialog.Submit: requires that no submit is pending: the only guard in the component is the disabled submit control (src/components/LoginWindow.tsx:115), which the model takes as given.
- LoginWindow.LoginDialog.Settle: the parent's callbacks are taken not to throw (the router's only assign the page); in the source a throwing `onLoggedIn` or `onClose` is caught by the same `catch` and shows its message as the error; a throwing `onLoggedIn` also skips `onClose`.
- Config.ErrorNamesMissingKeys: proves every missing key is named (and `MissingErrorKeysInOrder` their order), but not that a present key's name is absent from the text.
- LoginWindow.LoginDialog.Submit: accepts any strings; in the browser the login form's `required` email and password inputs (and the confirmation in sign-up mode) stop an empty submission before `handleSubmit` runs, which the model does not capture.
- The contact and upload forms carry `noValidate`, so their `required` and `pattern` attributes block nothing; `ContactForm.Form.HandleSubmit`, like the source, hands out any record. The picker's `accept` attribute only filters the file dialog; `Validate` judges whatever file was picked.
- Document listener registration and removal, DOM containment (abstracted as the region a mouse-down lands in) and inline styles are not modelled.
- StoryUpload.UploadForm.constructor: the ceiling and the file size are non-negative integers; the source's `number` could be fractional or negative, which the model does not cover.
- StoryUpload.TooLargeMessage: prints the ceiling in exact decimal; JavaScript prints exactly only below 2^53 megabytes (above that it rounds to the shortest round-trip digits padded with zeros, and from 10^21 up it uses exponent form), which the model does not cover.
- The "Selected: name (N KB)" line of the uploader is presentational and not modelled.
- `console.log` and `alert` fallbacks are recorded as one acknowledgement entry each, without their text, except the router's two alerts, whose text is kept.
- The environment is a map argument; reading the build tool's environment object is not modelled.
- ContactForm.Form.HandleChange: the field is one of the four named inputs; the source would add any other input name as an extra key, which no rendered input has.
- src/firebase.tsx and src/main.tsx (provider initialisation and the page root) are not part of this model.
