# statycal page script: a Dafny model

This project models the behaviour layer of the statycal marketing site (`script.js`). It covers three parts.

- **The contact form's submit handler.** A silent anti-spam guard runs first: a filled honeypot, a submit less than 1000 ms after the form was set up, or a missing submit button. Next the handler removes the previous `.form-status` note and runs four field checks. If a check fails, it shows an error note and moves the focus. If all pass, it stamps the hidden fields, disables the button, makes one network request, re-enables the button, and shows a success or failure note. On success it also resets the form and stores a last-lead record.
- **The decorative-mode preference.** It is decided at load from the body's `data-decorative` attribute or from the stored value. `setDecor` applies it and writes it back.
- **The navigation menu.** One open/closed flag, mirrored by the toggle's `aria-expanded` attribute. It is driven by the toggle click, the document click, the Escape key and clicks on menu links.

The browser is replaced by explicit state and inputs. The clock reading, the text of the ISO-8601 stamp, the outcome of `fetch` (a status or a throw) and whether `localStorage` works are all parameters. Each handler that changes the page is a method of a class (`ContactForm`, `Menu`, `Preference`). Each such method is proved equal to a specification function over a state value (`Attempt`, `CloseNav`, `SetDecor`, ...). The promised properties are lemmas about those functions.

Files and modules:

- `wrappers.dfy` (`Wrappers`): `Option`.
- `js_text.dfy` (`JsText`): JavaScript's white-space set, `trim`, and string `length` in UTF-16 code units.
- `email_check.dfy` (`EmailCheck`): the e-mail pattern, as a decomposition and as a character-level predicate.
- `form_fields.dfy` (`FormFields`): the form's controls, `FormData` snapshots, and `form.reset()`.
- `validation.dfy` (`Validation`): the four checks and the focus target.
- `submission.dfy` (`Submission`): the handler's specification `Attempt` and the class `ContactForm`.
- `submission_properties.dfy` (`SubmissionProperties`): guard, validation, status, ordering and outcome lemmas.
- `navigation.dfy` (`Navigation`): the menu.
- `decor.dfy` (`Decor`): the decorative preference.

Modelling decisions:

- **The e-mail pattern.** The source text at `script.js:140` shows the pattern with doubled backslashes, the same escaping artefact that turns the quotes on lines 116 and 131 into `\"`. The model reads it as `^[^\s@]+@[^\s@]+\.[^\s@]+$`, applied to the trimmed value.
- **White space.** `\s` and `String.prototype.trim` use the same ECMAScript set of white-space and line-terminator characters (`JsText.IsSpace`).
- **String length.** Dafny strings are sequences of Unicode scalar values, while JavaScript's `length` counts UTF-16 code units. So the length checks use `Utf16Length`, which counts a code point above U+FFFF as two. The pattern works on code units without the `u` flag, but `@`, `.` and every white-space character lie in the Basic Multilingual Plane. So matching on scalar values accepts the same strings.
- **Reset.** `form.reset()` puts every control back to its default value. It does not necessarily empty the controls. For a hidden input, setting `.value` sets its `value` attribute (HTML's "default" value mode), which is also its default. So the stamped hidden fields keep their stamp after a reset. `Stamp` models this by writing `Control(v, v)`.
- **The two storage keys.** `localStorage` is modelled as two independent cells, one per key: the decorative preference and the last-lead record. The record is the map of field values, without its JSON encoding.

Where a reader might expect otherwise, the model follows the code:

- On a validation failure, the focus goes to the first control that EXISTS among name, email, topic and message, not to the first invalid one (`script.js:151`, lemma `FocusIsNotFirstInvalid`).
- After sending, the button label becomes the literal `'Send request'`, not the label it had before (`script.js:176`).
- The earlier note is removed once, before validation (`script.js:133-134`), not a second time after the request.
- The reply-to field receives the trimmed e-mail (`script.js:156`).

## Model

| member | source | states |
|---|---|---|
| `JsText.TrimIsSlice` | script.js:140-143 | `trim` keeps a slice of its input: it cuts only white space, and what remains neither starts nor ends with white space |
| `JsText.TrimKeepsUnspaced` | script.js:140-143 | a string that neither starts nor ends with white space is its own trim |
| `JsText.TrimIdempotent` | script.js:140-143 | trimming a trimmed string changes nothing |
| `JsText.Utf16Length` | script.js:141-143 | the JavaScript `length` of a string is between its number of code points and twice that |
| `JsText.Utf16LengthIsSizeIffBmp` | script.js:141-143 | the JavaScript `length` equals the number of code points exactly when every code point is in the Basic Multilingual Plane |
| `EmailCheck.ValidEmailIffPattern` | script.js:140 | the character-level check accepts a string exactly when the pattern matches it: no white space, one `@` with a non-empty local part before it, and a domain part with a `.` that is neither its first nor its last character |
| `EmailCheck.Examples` | script.js:140 | `a@b.co` is accepted; `a@b`, `a b@c.com` and `@c.com` are refused |
| `FormFields.ResetIdempotent` | script.js:183 | a second reset changes nothing: after a reset every control already holds its default |
| `FormFields.SnapshotAfterReset` | script.js:161-183 | the entries read right after a reset are exactly the controls present, each with its default value |
| `FormFields.SnapshotIgnoresDefaults` | script.js:161 | the submitted entries depend only on which controls are present and their current values, never on their defaults |
| `Validation.ValidationPassesIff` | script.js:140-145 | validation passes exactly when all four controls exist, the trimmed name is longer than 1, the topic is longer than 0, the message is longer than 5, and the trimmed e-mail matches the pattern; a missing control fails |
| `Validation.FirstPresent` | script.js:151 | the focus target is absent exactly when none of the controls exists; otherwise it is a control that exists, and every control before it in the order is absent |
| `Validation.FocusIsNotFirstInvalid` | script.js:151 | with a valid name and an invalid e-mail, the focus goes to the name control |
| `Submission.ContactForm.constructor` | script.js:115-121 | the load time is read once; the mail fallback, the endpoint and the method take their override when it is set and non-empty, else the default |
| `Submission.ContactForm.RemoveStatus` | script.js:133-134 | removes the first status note, if there is one |
| `Submission.ContactForm.StampHidden` | script.js:155-156 | writes the timestamp control if it exists, and the trimmed e-mail into the reply-to control if both exist; logs each write |
| `Submission.ContactForm.SendRequest` | script.js:155-196 | the send path changes the form exactly as `Send` says, including the 'Sending...' button state logged before the request |
| `Submission.ContactForm.Submit` | script.js:123-197 | one submit event changes the form exactly as `Attempt` says, and returns how the attempt ended |
| `SubmissionProperties.GuardIsSilent` | script.js:125-132 | the attempt is ignored exactly when the honeypot is filled, it comes less than 1000 ms after load, or there is no button; an ignored attempt changes nothing: no note, no focus, no stamp, no request, no record |
| `SubmissionProperties.OutcomeClassification` | script.js:125-194 | the attempt is ignored exactly when the guard trips, rejected exactly when the guard passes and a check fails, delivered exactly when the guard and the checks pass and `response.ok` holds, and not delivered exactly when they pass and `response.ok` does not hold (a non-ok status or a throw) |
| `SubmissionProperties.RejectedAttempt` | script.js:141-152 | it is rejected exactly when the guard passes and a check fails; then the old note is replaced by one error note with the fixed text, the focus goes to the first control that exists, and the fields, button, record and trace (so: no request) are unchanged |
| `SubmissionProperties.OneNotePerAttempt` | script.js:133-196 | an attempt past the guard removes the first old note and appends exactly one note as the last; with at most one note before, there is exactly one after |
| `SubmissionProperties.AtMostOneNote` | script.js:133-196 | a form with at most one status note keeps at most one after any attempt |
| `SubmissionProperties.TwoAttemptsLeaveOneNote` | script.js:133-196 | two attempts that pass the guard leave exactly one note |
| `SubmissionProperties.LogStampsAppends` | script.js:155-156 | the stamping step appends one event per hidden control written, and none of them is a request |
| `SubmissionProperties.SendOrdering` | script.js:155-176 | on the send path the trace is: stamps, the button disabled and labelled 'Sending...', one request with the stamped values, the button enabled and labelled 'Send request'; the button ends enabled with the label 'Send request', whatever the response; the focus is untouched |
| `SubmissionProperties.RequestCarriesStamps` | script.js:155-168 | the request holds the timestamp when its control exists, the trimmed e-mail when the reply-to control is written, and every visible control's unchanged value |
| `SubmissionProperties.SendIssuesOneRequest` | script.js:164-169 | the send path records exactly one request |
| `SubmissionProperties.RequestCount` | script.js:123-197 | an attempt issues exactly one request when it passes the guard and validation, and none otherwise |
| `SubmissionProperties.Delivery` | script.js:170-190 | success is exactly `response.ok`; on success every control is back at its default, the stamped hidden ones keep the stamp, a non-error note is appended, and the record becomes the request's values if storage works, else it is left as it was |
| `SubmissionProperties.ResetAfterStamp` | script.js:155-183 | after the reset that follows a success every present control holds its default, and the timestamp control keeps the stamp |
| `SubmissionProperties.NonDelivery` | script.js:191-194 | on a non-ok status or a throw the outcome is a failure; the visible controls and the record are unchanged, and an error note with the mail fallback is appended |
| `SubmissionProperties.StorageOnlyAffectsRecord` | script.js:185-190 | storage that refuses the write changes nothing but the record |
| `SubmissionProperties.RecordOnlyAfterAcceptance` | script.js:182-190 | the record changes only after an accepted response with working storage |
| `SubmissionProperties.StatusExamples` | script.js:170 | statuses 200 and 299 count as success; 300, 500 and a throw count as failure |
| `Navigation.OperationsKeepMirror` | script.js:7-51 | after closing, opening, a toggle click or a link click on a wired page, `aria-expanded` mirrors `open`; the document click and the keydown keep a mirrored state mirrored |
| `Navigation.MirroredMeansExpandedIffOpen` | script.js:7-19 | in a mirrored state, `aria-expanded` is "true" exactly when the menu is open |
| `Navigation.CloseNavIdempotent` | script.js:7-11 | closing twice is the same as closing once |
| `Navigation.ToggleFlips` | script.js:22-29 | a toggle click flips `open` |
| `Navigation.ToggleTwiceRestoresOpen` | script.js:22-29 | two toggle clicks restore `open` |
| `Navigation.EscapeAndOutsideOnlyClose` | script.js:31-44 | Escape and a document click never open the menu and change nothing when it is closed |
| `Navigation.EscapeAndOutsideClose` | script.js:31-44 | on an open menu, Escape closes it and focuses the toggle, and a click outside both elements closes it |
| `Navigation.ToggleClickBubbles` | script.js:22-37 | a click on the toggle that bubbles to the document listener is not undone by it |
| `Navigation.MissingElementsMeanNoOp` | script.js:7-51 | without the nav or the toggle, every operation leaves the state unchanged |
| `Navigation.Menu.Close` | script.js:7-11 | `closeNav` changes the menu exactly as `CloseNav` says |
| `Navigation.Menu.Open` | script.js:13-19 | `openNav` changes the menu exactly as `OpenNav` says, including focusing the first link |
| `Navigation.Menu.OnToggleClick` | script.js:22-29 | the toggle listener changes the menu exactly as `ToggleClick` says |
| `Navigation.Menu.OnDocumentClick` | script.js:31-37 | the document click listener changes the menu exactly as `DocumentClick` says |
| `Navigation.Menu.OnKeyDown` | script.js:39-44 | the keydown listener changes the menu exactly as `KeyDown` says |
| `Navigation.Menu.OnLinkClick` | script.js:47-51 | a menu link click changes the menu exactly as `LinkClick` says |
| `Decor.AttributeWins` | script.js:75-77 | an attribute of "on" gives true and "off" gives false, whatever storage holds or does |
| `Decor.StorageDecidesOtherwise` | script.js:78-82 | without a deciding attribute, the preference is on exactly when storage returns "on"; a missing value, another string or a throw gives off |
| `Decor.SetThenLoadRoundTrip` | script.js:65-83 | what `setDecor` stores is read back as the same preference by a later load without a deciding attribute |
| `Decor.SetDecorApplies` | script.js:65-73 | `setDecor` sets the body class and any checkbox to its argument, and a refused write leaves the stored value |
| `Decor.Preference.Load` | script.js:75-85 | page load applies the preference decided from the attribute and the storage read |
| `Decor.Preference.Set` | script.js:65-73 | `setDecor` changes the page exactly as `SetDecor` says |
| `Decor.Preference.OnChange` | script.js:87-91 | a checkbox change applies the new checked state; without a checkbox nothing happens |

## Left out

- The browser APIs (DOM queries, `fetch`, `FormData`, `localStorage`, `Date.now`) are not called. They become the state fields and parameters described above.
- `new Date().toISOString()` (`script.js:155`) is an opaque string parameter, because the formatting is a library call.
- The request's `Accept: application/json` header (`script.js:167`) and its multipart encoding are not modelled; a request is its endpoint, method and field map.
- `form.method || 'POST'` is kept as written, with the `method` property as an input. In a browser that property reflects the attribute and is never empty, so the `'POST'` fallback does not normally apply. A form without a `method` attribute gives `"get"`, and `fetch` refuses a GET request with a body by throwing, which the handler treats as a failure (`script.js:171-173`). The model takes the network result as a free input, so it does not tie a `"get"` method to that throw.
- The note markup and texts are not modelled, except for the fixed validation text. This covers the `innerHTML` concatenation, the classes `muted small`, the `role` attribute, and the success text with its garbled dash. A note keeps its kind (error or not) and, on transport failure, the mail fallback address.
- The form's other controls and the JSON encoding of the last-lead record are not modelled; the record is the map of the seven named controls that exist.
- `event.preventDefault()` (`script.js:124`) is not modelled, because it changes no state of the model.
- The reveal animation (`script.js:93-111`) is not modelled. It is observer-driven browser behaviour whose only effect is adding a class.
- The image `error` handlers (`script.js:53-63`) are not modelled; they only remove the image.
- Re-entrant submits during the `await` are not modelled. Each call of `Submit` is one whole attempt, since the disabled button prevents a second one.
- `nav.contains(target)` and `toggle.contains(target)` are given as two booleans of the click target, not computed from a DOM tree.
- The page is assumed to hold both hidden controls (`#submittedAt`, `#replytoField`) as `type=hidden` inputs inside the form that carry a `name`. The script finds them by id in the whole document (`script.js:117-118`), but `FormData` and `form.reset()` see only named controls of the form, and only a hidden input keeps a written value as its default (`Stamp` writes `Control(v, v)`).
