# MyContacts front end: form validation, list filter and animated unmount

A Dafny model of three pieces of view logic of the MyContacts React front
end, with React, the DOM and the network abstracted into explicit state and
events:

- **The contact form** (`ContactForm` module, class `ContactForm.Form`): the
  four field values, the field-keyed error collection (a map from field to
  message), the `isFormValid` flag that disables the submit button, the
  `setFieldsValues` / `resetFields` commands a parent page sends through the
  form's ref, the `isSubmitting` flag around `onSubmit`, and the outcome of the
  category load. The e-mail validator and the phone formatter are
  uninterpreted functions the form is constructed with. The error rules are
  pure functions (`AfterNameChange`, `AfterEmailChange`). The lemmas show
  that the change handlers keep the errors in agreement with the values,
  and that a form whose errors agree is valid exactly when its name is
  non-blank and its e-mail is blank or accepted. The two ref commands replace
  the values without touching the errors. The errors then still agree exactly
  when a recorded "name" error goes with a blank new name and the "email"
  error is recorded exactly when the new e-mail is rejected. So a name error
  recorded before `setFieldsValues` stays on screen and keeps the form
  invalid (`ContactForm.StaleNameErrorAfterLoad`), and an invalid stored
  e-mail loaded into an error-free form gets no error.
- **The contact list page** (`Home` module, class `Home.Page`): the
  case-insensitive, order-preserving search filter (`Home.Filter`) and its
  properties, the `orderBy` toggle, the loading flag around the fetch, whose
  outcome is a parameter, and the count label and list-header conditions.
- **The animated-unmount hook** (`AnimatedUnmount` module, class
  `AnimatedUnmount.Hook`): `shouldRender` and the `animationend` listener as
  a state machine over three events: a re-render with a new `isVisible`,
  `animationend`, and teardown. `Step` and `Run` give its meaning on
  values. The class methods are proved to follow `Step`, and the lemmas
  prove the "never released before the event" properties over any event
  sequence.

Each asynchronous operation is split into the part before its `await`
(`BeginSubmit`, `StartLoad`) and the part after it settles (`SubmitSettled`,
`CategoriesSettled`, `LoadSettled`). The settlement is an
`Outcome` parameter, `Succeeded(value)` or `Failed`.

The model follows the code, also where a stronger design for this layer would
differ. The list page has no error status, no retry and no guard against
out-of-order responses (no request sequence number, so a newer request's
result is not protected). Once contacts are shown, two quick toggles put
two fetches in flight. The last response to settle is applied even when it
is for the older ordering, and the first one to settle already clears the
loading flag (`Home.OutOfOrderSettlement`). There is also no mounted-instance guard around
the settlement updates.
The hook's effect re-runs only when `isVisible` changes, as its dependency
list says.

## Model

| member | source | states |
|---|---|---|
| ContactForm.AfterNameChange | src/components/ContactForm/index.js:70-78 | after a name change the "name" error is present iff the new name is blank, with message "O campo nome é obrigatório"; every other field's error (the "email" one included) is untouched |
| ContactForm.AfterEmailChange | src/components/ContactForm/index.js:80-88 | after an e-mail change the "email" error is present iff the value is non-blank and rejected by `isEmailValid`, with message "E-mail inválido"; a blank e-mail removes it; other fields' errors are untouched |
| ContactForm.NameChangeKeepsAgreement | src/components/ContactForm/index.js:70-78 | a name change keeps the error collection in agreement with the field values |
| ContactForm.EmailChangeKeepsAgreement | src/components/ContactForm/index.js:80-88 | an e-mail change keeps the error collection in agreement with the field values |
| ContactForm.FormValidWhenAgreed | src/components/ContactForm/index.js:33 | when the errors agree with the values, `isFormValid` (non-blank name and no errors) holds iff the name is non-blank and the e-mail is blank or accepted |
| ContactForm.ResetKeepsAgreementIffNoEmailError | src/components/ContactForm/index.js:45-50 | blanking the fields without touching the errors leaves them in agreement iff no "email" error was recorded |
| ContactForm.FormValid | src/components/ContactForm/index.js:33 | `isFormValid` holds iff the name is non-blank and the error collection is empty; a valid form has neither a "name" nor an "email" error |
| ContactForm.ValuesReplacedAgreement | src/components/ContactForm/index.js:39-50 | replacing name and e-mail without touching the errors keeps them in agreement iff a "name" error goes with a blank new name and the "email" error is present iff the new e-mail is rejected |
| ContactForm.StaleNameErrorAfterLoad | src/components/ContactForm/index.js:39-44 | after the name was cleared, loading a record named "Ana" keeps the name-required error, so the form is invalid with a non-blank name and the errors no longer agree |
| ContactForm.LoadedRecordAgreement | src/components/ContactForm/index.js:39-44 | loading a record into an error-free form leaves it in agreement iff the loaded e-mail is blank or accepted (an invalid stored e-mail gets no error) |
| ContactForm.ClearThenTypeName | src/components/ContactForm/index.js:70-78 | clearing the name records exactly the name-required error and invalidates the form; typing "Ana" afterwards removes it and the form is valid |
| ContactForm.EmailEditSequence | src/components/ContactForm/index.js:80-88 | a rejected e-mail records exactly the invalid-e-mail error; clearing the field or entering an accepted e-mail removes it |
| ContactForm.Form.IsFormValid | src/components/ContactForm/index.js:33 | the form's `isFormValid` holds iff its name is non-blank and it has no errors |
| ContactForm.Form.SubmitDisabled | src/components/ContactForm/index.js:150 | the submit button is disabled iff the form is not valid; in particular by a blank name or by a "name" or "email" error |
| ContactForm.Form.constructor | src/components/ContactForm/index.js:22-31 | a new form has blank fields, no categories, categories loading, not submitting, no errors, and a disabled submit button |
| ContactForm.Form.HandleNameChange | src/components/ContactForm/index.js:70-78 | stores the new name and applies the name error rule; nothing else changes; agreement is preserved; a blank name disables submission |
| ContactForm.Form.HandleEmailChange | src/components/ContactForm/index.js:80-88 | stores the new e-mail and applies the e-mail error rule; nothing else changes; agreement is preserved; a rejected e-mail disables submission |
| ContactForm.Form.HandlePhoneChange | src/components/ContactForm/index.js:90-92 | stores the formatted phone; errors are untouched |
| ContactForm.Form.HandleCategoryChange | src/components/ContactForm/index.js:137 | stores the chosen category id |
| ContactForm.Form.SetFieldsValues | src/components/ContactForm/index.js:39-44 | name, e-mail and category take the record's value or "" when null/undefined; the phone is the formatter applied to the phone or ""; errors, categories and flags are untouched; on a consistent form the errors still agree iff a "name" error goes with a blank loaded name and the "email" error iff the loaded e-mail is rejected |
| ContactForm.Form.ResetFields | src/components/ContactForm/index.js:45-50 | all four fields become ""; errors, categories and flags are untouched; submission is disabled |
| ContactForm.Form.CategoriesSettled | src/components/ContactForm/index.js:56-64 | the category loading flag always drops; the categories are replaced on success and kept on failure |
| ContactForm.Form.BeginSubmit | src/components/ContactForm/index.js:94-99 | raises `isSubmitting` and hands the current four values to `onSubmit` |
| ContactForm.Form.SubmitSettled | src/components/ContactForm/index.js:99-101 | `isSubmitting` drops when `onSubmit` resolves and stays as it was when it rejects |
| Home.Filter | src/pages/Home/index.js:27-31 | `filteredContacts` (`Home.Page.FilteredContacts` applies it to the page's contacts and term): the filtered list is no longer than the contacts and holds only contacts of the list whose lowered name contains the lowered term |
| Home.FilterKeepsMatches | src/pages/Home/index.js:28-30 | every contact whose name matches the term is kept |
| Home.FilterMembership | src/pages/Home/index.js:28-30 | a contact is in the filtered list iff it is in the list and matches |
| Home.FilterAppend | src/pages/Home/index.js:28-30 | filtering a concatenation is the concatenation of the filtered parts (order is preserved) |
| Home.FilterIsSubsequence | src/pages/Home/index.js:28-30 | the filtered list is a subsequence of the contacts |
| Home.FilterEmptyTerm | src/pages/Home/index.js:28-30 | an empty search term returns every contact, in order |
| Home.FilterIgnoresTermCase | src/pages/Home/index.js:29 | two search terms that differ only in letter case give the same filtered list |
| Home.FilterIgnoresUpperCaseTerm | src/pages/Home/index.js:29 | upper-casing the search term does not change the filtered list |
| Home.ToLower | src/pages/Home/index.js:29 | `toLowerCase` keeps the length and lowers each character (ASCII letters) |
| Home.Includes | src/pages/Home/index.js:29 | `includes`: the empty string is found in every string, a prefix or suffix is found, and nothing longer than the string is found |
| Home.ToLowerIdempotent | src/pages/Home/index.js:29 | lowering an already lowered string changes nothing |
| Home.FilterExample | src/pages/Home/index.js:27-31 | searching "an" among Ana, Bob and Anderson gives Ana and Anderson |
| Home.Toggled | src/pages/Home/index.js:48-50 | the new ordering is "asc" or "desc", it differs from the old one, and it is "desc" iff the old one was "asc" |
| Home.ToggleTwice | src/pages/Home/index.js:48-50 | on "asc"/"desc" toggling changes the ordering and toggling twice restores it |
| Home.ContactsUrl | src/pages/Home/index.js:35 | the request URL is the contacts endpoint followed by the ordering as the `orderBy` query value |
| Home.ContactsUrlInjective | src/pages/Home/index.js:35 | different orderings are requested at different URLs |
| Home.CountSuffix | src/pages/Home/index.js:70-71 | the word after the count is " contato" or " contatos", singular iff the count is 1 |
| Home.Page.CountLabel | src/pages/Home/index.js:70-71 | the header shows the filtered count, followed by " contato" when that count is 1 and " contatos" otherwise |
| Home.Page.ShowsListHeader | src/pages/Home/index.js:76 | the list header is shown iff some contact matches the search term |
| Home.Page.constructor | src/pages/Home/index.js:22-25 | a new page has no contacts, ascending order, an empty search term and is loading |
| Home.Page.HandleToggleOrderBy | src/pages/Home/index.js:33-50 | callable only while the list header with its button (lines 76-78) is shown; the ordering becomes `Toggled` of the old one (so always "asc" or "desc" and always different), and the `[orderBy]` effect this triggers raises the loading flag and requests the new order; contacts and search term are untouched |
| Home.Page.HandleChangeSearchTerm | src/pages/Home/index.js:52-54 | only the search term changes; an empty term shows every contact |
| Home.Page.StartLoad | src/pages/Home/index.js:33-35 | the loading flag is raised and the request is for the current ordering |
| Home.Page.LoadSettled | src/pages/Home/index.js:36-45 | the loading flag drops whether the fetch succeeded or failed; the contacts are replaced on success and unchanged on failure |
| Home.OutOfOrderSettlement | src/pages/Home/index.js:33-50 | after the mount's fetch returns a non-empty list (so the toggle button is shown), two toggles request "desc" then "asc"; settling newest first, the loading flag is already down while the "desc" request is pending, and the older "desc" response is the one shown while the ordering reads "asc" |
| AnimatedUnmount.Initial | src/hooks/useAnimatedUnmount.js:4-23 | after mounting `shouldRender` equals the initial `isVisible`, and a listener is registered iff invisible with an element present |
| AnimatedUnmount.EffectRun | src/hooks/useAnimatedUnmount.js:9-23 | one run of the effect: visible raises `shouldRender`, invisible leaves it as it was, and a listener is registered iff invisible with an element present |
| AnimatedUnmount.Step | src/hooks/useAnimatedUnmount.js:8-30 | a visibility change sets `isVisible`; becoming visible raises `shouldRender`; a re-run registers a listener iff invisible with an element; `shouldRender` only rises on becoming visible and only falls by the registered handler on `animationend`; teardown removes the listener |
| AnimatedUnmount.InitialInv | src/hooks/useAnimatedUnmount.js:4-23 | the mounted hook satisfies the invariant: visible implies rendered, and a listener only exists on an element while invisible |
| AnimatedUnmount.StepKeepsInv | src/hooks/useAnimatedUnmount.js:8-30 | every event preserves that invariant |
| AnimatedUnmount.RunKeepsInv | src/hooks/useAnimatedUnmount.js:8-30 | any sequence of events preserves that invariant |
| AnimatedUnmount.VisibleIsAlwaysRendered | src/hooks/useAnimatedUnmount.js:9-11 | after any events from mount, a visible hook renders, and no listener is registered while visible |
| AnimatedUnmount.NoReleaseBeforeAnimationEnd | src/hooks/useAnimatedUnmount.js:13-23 | with no `animationend` event, a rendered element stays rendered |
| AnimatedUnmount.NoElementNeverReleased | src/hooks/useAnimatedUnmount.js:17-23 | if no element is present at any re-run, no listener is registered and a rendered element stays rendered whatever events arrive |
| AnimatedUnmount.StaleAnimationEndIgnored | src/hooks/useAnimatedUnmount.js:25-29 | after `isVisible` returns to true, an `animationend` changes nothing |
| AnimatedUnmount.ShowHideAnimateScenario | src/hooks/useAnimatedUnmount.js:4-23 | visible, then hidden, then `animationend`: `shouldRender` is true, true, false |
| AnimatedUnmount.Hook.constructor | src/hooks/useAnimatedUnmount.js:4-23 | the mounted hook is `Initial`: `shouldRender` equals the initial `isVisible` |
| AnimatedUnmount.Hook.SetVisible | src/hooks/useAnimatedUnmount.js:8-30 | follows `Step` for a re-render: becoming visible raises `shouldRender`, becoming invisible leaves it unchanged |
| AnimatedUnmount.Hook.AnimationEnd | src/hooks/useAnimatedUnmount.js:13-15 | follows `Step`: `shouldRender` drops iff the listener is registered |
| AnimatedUnmount.Hook.Unmount | src/hooks/useAnimatedUnmount.js:25-29 | follows `Step`: the listener is removed |

## Left out

- Markup, styled components and the presentational components (`Input`, `Select`, `Button`, `FormGroup`, `Modal`, `Loader`): presentation only.
- `src/pages/EditContact/useEditContact.js`: service calls, navigation and toasts around the form; `useSafeAsyncAction` is not part of this model.
- `useErrors`: its body is not part of this model, so the error collection is a map from field to message (a second error for a field replaces the first); `getErrorMessageByFieldName` is a lookup in that map used only by the markup.
- `isEmailValid` and `formatPhone`: their bodies are not part of this model; they are uninterpreted functions given to `ContactForm.Form`'s constructor, and nothing is assumed about them.
- Network transport (`fetch`, `response.json()`, `CategoriesService`): each call is reduced to a `Succeeded(value)` / `Failed` outcome. `console.log` in the catch is left out.
- `onSubmit`: a callback from the parent page; only its settlement is modelled (`ContactForm.Form.SubmitSettled`).
- Home.LoadSettled: the success payload is assumed to be a list of contacts with string names. In the code a non-2xx response whose body parses as JSON also resolves the fetch, and `setContacts` stores whatever was parsed. An error object stored there makes `contacts.filter` throw during render, and a contact whose `name` is null makes `toLowerCase` throw; the model cannot express either crash.
- React scheduling: state updates are applied at once, in program order; effect timing and the interleaving of overlapping fetches are left to the caller of the methods. `Home.Page.HandleToggleOrderBy` runs the `[orderBy]` effect's synchronous part itself. Mounting runs the first effect immediately (`AnimatedUnmount.Hook.constructor`, `ContactForm.Form.constructor` leaves the category load pending).
- Home.ToLower: ASCII-only lower-casing; JavaScript's Unicode case mapping is not modelled.
- The element behind `animatedElementRef`: whether it is present when the effect runs is an input of each re-render, decided by the component that renders it.
