# Portfolio site core, modelled in Dafny

This project models the parts of a React/TypeScript portfolio site that make decisions. The rest of the site is presentation.

- **The contact form.** There are two copies of the `Contact` component: the main site's and the example site's. Each holds four state cells: `formData`, `errors`, `isSubmitting` and `submitMessage`. It validates the name, e-mail address and message. A filled hidden honeypot field gets a fake success without anything being sent. Otherwise the form posts to `/api/contact` (main copy) or calls `submitContactForm` (example copy), then shows a banner that a 5-second timer clears.
- **`submitContactForm`** (two copies). It posts the form data as JSON to the endpoint configured in `VITE_FORM_ENDPOINT`. A non-ok response becomes an `Error` whose message comes from the response body or, failing that, from the status code.
- **Theme handling.** `getPreferredColorScheme` and `getInitialTheme` choose the starting theme from a saved preference or the system colour scheme. `applyTheme` writes the theme onto `<html>` and `<body>`, dispatches a `themechange` event and saves the theme. The `ThemeProvider` holds the theme, flips it in `toggleTheme` and re-applies it after every change.
- **The skills section.** Skills are split into one list per category by order-preserving filters. The lists are shown in a fixed order with the empty ones skipped. `SkillLevel` draws a level as five dots.

Layout:

| file | module | what it holds |
|---|---|---|
| `Wrappers.dfy` | `Wrappers` | `Option` and `Result` |
| `JsString.dfy` | `JsString` | JavaScript whitespace (the characters `trim` strips and `\s` matches), `trim`, string truthiness, decimal rendering of a status code |
| `Http.dfy` | `Http` | `fetch` outcomes, responses, parsed bodies, thrown values, requests |
| `FormRules.dfy` | `FormRules` | form data, field errors and banner values shared by both `Contact` copies, plus the e-mail pattern, the three field rules and `validateForm` |
| `ContactApi.dfy` | `ContactApi` | both copies of `submitContactForm` |
| `MainContact.dfy` | `MainContact` | the main `Contact` component as a class |
| `ExampleContact.dfy` | `ExampleContact` | the example `Contact` component as a class |
| `ThemeUtils.dfy` | `ThemeUtils` | the theme utilities, with the page as a `Browser` object that `ApplyTheme` updates |
| `ThemeProvider.dfy` | `ThemeProvider` | the provider as a class over a `Browser` |
| `Skills.dfy` | `Skills` | category grouping and the dot row |

How the asynchronous parts are modelled: each component is a class whose fields are its state cells. Each event handler is a method. The moments when something asynchronous finishes are separate methods that any caller may invoke once they are enabled:

- the 1.5-second honeypot delay ends;
- the `fetch` or `submitContactForm` promise settles, with its outcome passed as an argument;
- a 5-second clearing timer fires.

The field `pendingClears` counts the clearing timers scheduled and not yet fired. Each contact class's `Valid()` states invariants that every method keeps. First, the button is disabled exactly while a submission is outstanding. Second, a banner is shown only while a timer that will clear it is pending. The example copy's `Valid()` adds a third: a call still outstanding is the latest entry of `calls`, the log of calls to `submitContactForm`.

The environment is an input:

- the `VITE_FORM_ENDPOINT` setting;
- whether `window`, `window.matchMedia` and `document` exist;
- the colour-scheme preference;
- the contents of `localStorage`.

`getInitialTheme` returns whatever non-empty text is saved under `theme`, although its type says `'dark' | 'light'`. The model therefore keeps the theme as a string. `ThemeProvider.ToggleTwice` shows what happens to any other saved text: one toggle makes it "light", and a second makes it "dark".

## Model

| member | source | states |
|---|---|---|
| `JsString.IsWs` | src/components/Contact.tsx:33-46 | the code points that `trim` strips and `\s` matches: the ECMA-262 WhiteSpace and LineTerminator characters; it has no contract of its own |
| `JsString.TrimStart` | src/components/Contact.tsx:33 | the leading half of `trim`; its contract bounds the length, and its meaning is proved in `JsString.TrimStartKeepsSuffix` |
| `JsString.TrimEnd` | src/components/Contact.tsx:33 | the trailing half of `trim`; its contract bounds the length, and its meaning is proved in `JsString.TrimEndKeepsPrefix` |
| `JsString.TrimStartKeepsSuffix` | src/components/Contact.tsx:33 | the leading-whitespace strip keeps a suffix that starts with a non-whitespace character and drops only whitespace |
| `JsString.TrimEndKeepsPrefix` | src/components/Contact.tsx:33 | the trailing-whitespace strip keeps a prefix that ends with a non-whitespace character and drops only whitespace |
| `JsString.Trim` | src/components/Contact.tsx:33 | `String.prototype.trim`, defined as the leading strip followed by the trailing strip; it has no contract of its own, and its meaning is proved in `JsString.TrimIsSlice`, `JsString.TrimEmptyIffBlank` and `JsString.TrimLengthAtLeast` |
| `JsString.TrimIsSlice` | src/components/Contact.tsx:33 | `trim` yields the slice from the first to the last non-whitespace character; everything outside it is whitespace |
| `JsString.TrimEmptyIffBlank` | src/components/Contact.tsx:33 | `!value.trim()` holds exactly for strings made only of whitespace |
| `JsString.TrimLengthAtLeast` | src/components/Contact.tsx:36 | the trimmed length reaches n exactly when two non-whitespace characters span at least n characters |
| `JsString.DecimalString` | src/api/contact.ts:35 | `${status}` renders one or more decimal digits with no leading zero |
| `JsString.DecimalRoundTrip` | src/api/contact.ts:35 | reading the rendered digits back gives the status: the rendering loses nothing |
| `JsString.DecimalStringInjective` | src/api/contact.ts:35 | distinct statuses render differently |
| `FormRules.CaughtBanner` | src/components/Contact.tsx:119-126 | the `catch` banner is flagged as an error and shows an `Error`'s own message, or the generic text for any other thrown value |
| `FormRules.WithField` | src/components/Contact.tsx:63-65 | the named input takes the typed value and every other input keeps its own |
| `FormRules.ClearedError` | src/components/Contact.tsx:67-69 | the named field's error becomes empty and the other errors are kept |
| `FormRules.Payload` | src/components/Contact.tsx:103-107 | the request body carries name, e-mail and message as typed; the honeypot is never sent |
| `FormRules.MatchesEmailRegex` | src/components/Contact.tsx:45-46 | the pattern read off directly: an '@' and a later '.' split the string into three non-empty runs without whitespace or '@'; it has no contract of its own, and `FormRules.EmailRegexCharacterized` proves it equal to `FormRules.IsEmailAddress` |
| `FormRules.IsEmailAddress` | src/components/Contact.tsx:45-46 | the same language by shape: no whitespace, exactly one '@' with text before it, and a '.' strictly inside the part after it; it has no contract of its own, and it is the form `FormRules.EmailError` tests, proved equal to the pattern by `FormRules.EmailRegexCharacterized` |
| `FormRules.RegexMatchIsEmailAddress` | src/components/Contact.tsx:45-46 | a string matching `^[^\s@]+@[^\s@]+\.[^\s@]+$` has no whitespace, exactly one '@' with text before it, and a '.' strictly inside the part after the '@' |
| `FormRules.EmailAddressMatchesRegex` | src/components/Contact.tsx:45-46 | every string of that shape matches the pattern |
| `FormRules.EmailRegexCharacterized` | src/components/Contact.tsx:45-46 | the pattern and the shape accept the same strings, and no match is blank |
| `FormRules.NameError` | src/components/Contact.tsx:33-39 | the name's error is "Name is required", "Name must be at least 2 characters" or none; which one is characterised on the raw input by `FormRules.NameErrorMeaning` |
| `FormRules.EmailError` | src/components/Contact.tsx:41-50 | the address's error is "Email is required", "Please enter a valid email address" or none; which one is characterised by `FormRules.EmailErrorMeaning` |
| `FormRules.MessageError` | src/components/Contact.tsx:52-58 | the message's error is "Message is required", "Message must be at least 10 characters" or none; which one is characterised by `FormRules.MessageErrorMeaning` |
| `FormRules.NameErrorMeaning` | src/components/Contact.tsx:33-39 | the name is "required" exactly when it is blank, "too short" exactly when it is non-blank but its non-whitespace characters span fewer than 2 characters, and fine otherwise |
| `FormRules.EmailErrorMeaning` | src/components/Contact.tsx:41-50 | the address is "required" exactly when it is blank, "invalid" exactly when it is non-blank and the untrimmed value fails the pattern, and fine exactly when it matches |
| `FormRules.MessageErrorMeaning` | src/components/Contact.tsx:52-58 | the message is "required" exactly when it is blank, "too short" exactly when it is non-blank but its non-whitespace characters span fewer than 10 characters, and fine otherwise |
| `FormRules.ErrorsFor` | src/components/Contact.tsx:27-58 | the `newErrors` object: each field's error from its own rule; it has no contract of its own, and `FormRules.Validate` is proved to build it and `FormRules.ValidExactlyWhenEveryFieldPasses` says when it is empty |
| `FormRules.Validate` | src/components/Contact.tsx:25-60 | the step-by-step checks build exactly one error per field, each field checked independently of the others, and the flag is true exactly when no error was recorded |
| `FormRules.ValidExactlyWhenEveryFieldPasses` | src/components/Contact.tsx:25-60 | a form passes exactly when the name spans 2 characters, the address matches the pattern and the message spans 10 characters |
| `FormRules.EmailWithWhitespaceRejected` | src/components/Contact.tsx:45-46 | a non-blank address with whitespace anywhere, even at its ends, is reported as invalid, because the pattern tests the untrimmed value |
| `FormRules.EmptyFormReportsEveryField` | src/components/Contact.tsx:25-60 | an empty form gets all three "required" messages at once |
| `FormRules.MixedFormReportsEachFailure` | src/components/Contact.tsx:25-60 | "Al" passes while "bad-email" and "short" fail with their own messages |
| `FormRules.AddressWithoutAtIsInvalid` | src/components/Contact.tsx:45-47 | a non-blank address without '@' is invalid |
| `FormRules.JaneDoeFormIsValid` | src/components/Contact.tsx:25-60 | a typical complete form passes every rule |
| `FormRules.JaneDoeNameIsValid` | src/components/Contact.tsx:33-39 | "Jane Doe" passes the name rule |
| `FormRules.JaneDoeMessageIsValid` | src/components/Contact.tsx:52-58 | "Hello, I would like to connect." passes the message rule |
| `FormRules.JaneDoeEmailIsValid` | src/components/Contact.tsx:45-46 | "jane@example.com" matches the pattern |
| `ContactApi.RequestsMade` | src/api/contact.ts:17-31 | a missing or empty endpoint sends nothing; otherwise exactly one POST to the endpoint with both JSON headers and the form data, and no retry |
| `ContactApi.StatusText` | src/api/contact.ts:35 | the status fallback message starts with "Form submission failed with status: " |
| `ContactApi.StatusTextDeterminesStatus` | src/api/contact.ts:35 | two statuses give the same fallback message only when they are equal |
| `ContactApi.StatusFailureIsNotConfigError` | src/api/contact.ts:19-35 | the status fallback never reads as either copy's configuration error |
| `ContactApi.NotOkMessage` | src/api/contact.ts:33-35 | a non-ok response is reported with the body's `message` when it is a non-empty string, and with the status text when the body does not parse or has no such message |
| `ContactApi.Submit` | src/api/contact.ts:15-43 | without an endpoint the call rejects with the configuration error and sends nothing; it resolves exactly when an ok response comes back, and then with that response; a network rejection is rethrown unchanged; a non-ok response rejects with the message above |
| `ContactApi.SubmitContactForm` | src/api/contact.ts:15-43 | the main copy rejects with "Form endpoint environment variable (VITE_FORM_ENDPOINT) is not set" without an endpoint; otherwise it makes one POST of the data to the endpoint |
| `ContactApi.ExampleSubmitContactForm` | resources/example/src/api/contact.ts:14-42 | the example copy is the same except that its configuration error reads "Form endpoint environment variable is not set" |
| `ContactApi.NotOkFailureIsDiagnosable` | src/api/contact.ts:33-35 | two non-ok responses whose bodies do not parse reject alike only when their statuses are equal |
| `ContactApi.ServerMessageSurfaces` | src/api/contact.ts:33-35 | a 500 whose body says "boom" rejects with exactly "boom" |
| `MainContact.ProxyFailure` | src/components/Contact.tsx:98-112 | the `try` block gets through exactly when the response is ok and its body parses; a network rejection is rethrown; an unparsable body fails with the parse error even on a 2xx status; a non-ok response fails with the body's message or "Failed to send message" |
| `MainContact.ContactForm.constructor` | src/components/Contact.tsx:11-23 | the form starts empty, with no errors, no banner, nothing outstanding and nothing sent |
| `MainContact.ContactForm.ValidateForm` | src/components/Contact.tsx:25-61 | `errors` is replaced by the errors of the current form, and the result is true exactly when there are none |
| `MainContact.ContactForm.HandleChange` | src/components/Contact.tsx:63-70 | the named input takes the value; its error is cleared if it had one; every other input and error is kept |
| `MainContact.ContactForm.HandleSubmit` | src/components/Contact.tsx:72-108 | a filled honeypot starts the fake delay, with no validation and no request; otherwise the errors become those of the form; a failing form stops there; a passing one disables the button and posts exactly its payload to `/api/contact` |
| `MainContact.ContactForm.OnSpamDelayElapsed` | src/components/Contact.tsx:78-88 | after the honeypot delay the bot sees the success banner over an emptied form, the button comes back, and a clearing timer is scheduled |
| `MainContact.ContactForm.OnResponse` | src/components/Contact.tsx:109-133 | on success the form empties and the success banner shows; on failure the form is kept and the thrown message shows as an error; either way the button comes back and a clearing timer is scheduled |
| `MainContact.ContactForm.OnClearTimer` | src/components/Contact.tsx:129-132 | a clearing timer empties the banner and changes nothing else |
| `MainContact.SuccessfulVisit` | src/components/Contact.tsx:63-134 | typing a valid form and submitting it sends exactly one request with that data; an ok response shows the success banner over an emptied form; the timer then clears the banner |
| `ExampleContact.ContactForm.constructor` | resources/example/src/components/Contact.tsx:14-30 | the form starts empty, with no errors, no banner, no call made and nothing sent |
| `ExampleContact.ContactForm.ValidateForm` | resources/example/src/components/Contact.tsx:33-69 | `errors` is replaced by the errors of the current form, and the result is true exactly when there are none |
| `ExampleContact.ContactForm.HandleChange` | resources/example/src/components/Contact.tsx:72-79 | the named input takes the value; its error is cleared if it had one; every other input and error is kept |
| `ExampleContact.ContactForm.HandleSubmit` | resources/example/src/components/Contact.tsx:82-114 | a filled honeypot starts the fake delay and never calls `submitContactForm`; a failing form stops with its errors; a passing one calls `submitContactForm` once with its payload, which sends what that call sends |
| `ExampleContact.ContactForm.OnSpamDelayElapsed` | resources/example/src/components/Contact.tsx:89-99 | after the honeypot delay the bot sees the success banner over an emptied form, and a clearing timer is scheduled |
| `ExampleContact.ContactForm.OnSubmissionSettled` | resources/example/src/components/Contact.tsx:108-137 | when `submitContactForm` resolves, the form empties and shows success; when it rejects, the form is kept and the rejection's banner shows; either way the button comes back and a clearing timer is scheduled |
| `ExampleContact.ContactForm.OnClearTimer` | resources/example/src/components/Contact.tsx:134-136 | a clearing timer empties the banner and changes nothing else |
| `ExampleContact.BotSubmission` | resources/example/src/components/Contact.tsx:84-101 | a bot that fills the honeypot sees the success banner over an emptied form, while no call and no request is ever made |
| `ExampleContact.MissingEndpoint` | resources/example/src/components/Contact.tsx:108-137 | without an endpoint a valid form sends nothing, shows the configuration error and keeps what was typed |
| `ThemeUtils.PreferredColorScheme` | resources/example/src/utils/themeUtils.ts:5-13 | the scheme is "light" exactly when `window` and `matchMedia` exist and dark is not preferred, and "dark" otherwise |
| `ThemeUtils.InitialTheme` | resources/example/src/utils/themeUtils.ts:19-30 | the initial theme is never empty; without a window it is "dark" whatever is saved; otherwise it is "dark", "light" or the saved text |
| `ThemeUtils.SavedThemeWins` | resources/example/src/utils/themeUtils.ts:21-27 | in a browser, a non-empty saved theme is used exactly as stored |
| `ThemeUtils.InitialThemeWithoutSavedValue` | resources/example/src/utils/themeUtils.ts:19-30 | with no saved theme, the initial theme is "light" exactly when the host can tell and prefers light, and "dark" otherwise |
| `ThemeUtils.ClassAdded` | resources/example/src/utils/themeUtils.ts:45-46 | after `classList.add` the class is present, no other class appears, and a list that already had it is unchanged |
| `ThemeUtils.ClassRemoved` | resources/example/src/utils/themeUtils.ts:48-49 | after `classList.remove` the class is absent and every other class is still present |
| `ThemeUtils.ClassRemovedAbsent` | resources/example/src/utils/themeUtils.ts:48-49 | removing an absent class changes nothing |
| `ThemeUtils.ThemeApplied` | resources/example/src/utils/themeUtils.ts:36-58 | the page `applyTheme` leaves behind, as a function of the page before; it has no contract of its own, and its meaning is proved in `ThemeUtils.ApplyThemeEffect`, `ThemeUtils.ApplyThemeWithoutDocument` and `ThemeUtils.ApplyThemeIdempotent` |
| `ThemeUtils.ApplyThemeEffect` | resources/example/src/utils/themeUtils.ts:36-58 | with a document, both elements get `data-theme`, and they have the `dark` class exactly for "dark"; exactly one `themechange` event carrying the theme is dispatched; the theme is saved; every other attribute, class and storage key is kept |
| `ThemeUtils.ApplyThemeWithoutDocument` | resources/example/src/utils/themeUtils.ts:37 | without a document nothing changes: no attribute, class, event or storage write |
| `ThemeUtils.ApplyThemeIdempotent` | resources/example/src/utils/themeUtils.ts:36-58 | applying the same theme again leaves the elements and storage as they were, and adds one more event |
| `ThemeUtils.Browser.ApplyTheme` | resources/example/src/utils/themeUtils.ts:36-58 | the page after the step-by-step writes is exactly the page `ApplyThemeEffect` describes |
| `ThemeProvider.Toggled` | src/context/ThemeProvider.tsx:28 | the flip always yields "light" or "dark", never the theme it started from, and yields "dark" exactly from "light" |
| `ThemeProvider.ToggleTwice` | src/context/ThemeProvider.tsx:26-33 | toggling twice restores the theme exactly when it was "light" or "dark"; any other saved text ends at "dark" |
| `ThemeProvider.ToggleSaveSubsumed` | src/context/ThemeProvider.tsx:26-39 | the save inside `toggleTheme` is repeated by the effect's `applyTheme`, so the pair leaves the page as the effect alone would |
| `ThemeProvider.Provider.constructor` | src/context/ThemeProvider.tsx:19-39 | on mount the theme is `getInitialTheme()` and the effect applies it, so the page shows the state's theme |
| `ThemeProvider.Provider.ToggleTheme` | src/context/ThemeProvider.tsx:26-39 | the theme flips; the effect re-applies it, because the flip always changes the state; the page keeps showing the state's theme, with the new theme saved |
| `Skills.InCategory` | src/components/Skills.tsx:25-30 | one category's `filter`: its own contract bounds the list by the number of skills, and its meaning is proved in `Skills.InCategoryIsOrderedSelection` and `Skills.InCategoryMembers` |
| `Skills.Categories` | src/components/Skills.tsx:25-30 | `categories` has four entries, keyed (and headed) "frontend", "backend", "tools", "other" in that order, each holding its category's filtered list |
| `Skills.InCategoryIsOrderedSelection` | src/components/Skills.tsx:25-30 | each category list is picked out of the skills, element by element, by strictly increasing positions that are exactly the positions of that category's skills |
| `Skills.InCategoryMembers` | src/components/Skills.tsx:25-30 | a skill is in a category's list exactly when it is one of the skills and has that category |
| `Skills.EachSkillInExactlyOneList` | src/components/Skills.tsx:25-30 | every skill lands in the list of its own category and in no other |
| `Skills.ListSizesSum` | src/components/Skills.tsx:25-30 | the four list lengths add up to the number of skills |
| `Skills.NonEmptyGroups` | src/components/Skills.tsx:49-50 | a group is rendered exactly when it is one of the groups and its list is not empty |
| `Skills.RenderedGroups` | src/components/Skills.tsx:49-50 | the groups the section renders; it has no contract of its own, and its meaning is proved in `Skills.RenderedExactlyUsedCategories`, `Skills.RenderedGroupsAreCategoryLists` and `Skills.RenderedGroupsOrdered` |
| `Skills.InCategoryNonEmpty` | src/components/Skills.tsx:25-50 | a category's list passes the `length > 0` guard exactly when some skill has that category |
| `Skills.RenderedExactlyUsedCategories` | src/components/Skills.tsx:25-50 | a category gets a group, holding its whole list, exactly when some skill has that category |
| `Skills.RenderedGroupsAreCategoryLists` | src/components/Skills.tsx:25-50 | every rendered group is non-empty and holds its category's list |
| `Skills.RenderedGroupsOrdered` | src/components/Skills.tsx:25-50 | the rendered groups keep the order frontend, backend, tools, other |
| `Skills.RanksIncrease` | src/components/Skills.tsx:49-50 | skipping empty groups keeps the remaining groups in their order |
| `Skills.SkillDots` | src/components/Skills.tsx:10-21 | `SkillLevel` draws exactly five dots; which are lit, and how many, is proved in `Skills.SkillDotsMeaning` |
| `Skills.LitCount` | src/components/Skills.tsx:13-16 | of n dots, the number lit is the level clamped to [0, n] |
| `Skills.SkillDotsMeaning` | src/components/Skills.tsx:10-21 | `SkillLevel` always draws five dots; the lit ones form a prefix, and there are as many of them as the level clamped to [0, 5], so levels 1 to 5 light exactly that many |

## Left out

- Real time. The 1.5-second and 5-second delays are events that any caller may fire once they are enabled. Which of two pending timers fires first is therefore not constrained.
- The server behind `/api/contact` and its behaviour are not part of this model. The main form's `fetch` outcome is an input.
- `JSON.stringify` and the wire format are not modelled. Requests carry the payload as a value.
- A JSON body whose `message` is not a string, or a body that parses to `null`, is not modelled. With `null`, reading `data.message` itself throws in the main copy. Bodies are either unparsable or an object whose `message` is a string or absent.
- `console.error` logging has no effect on the state and is left out.
- `FormRules.NameError`, `FormRules.MessageError`: lengths are counted in characters, not UTF-16 code units. A name made of one character outside the Basic Multilingual Plane passes the 2-character rule in JavaScript but not in the model.
- React mechanics are left out: rendering, batching of state updates, closures that read the state of an earlier render, and unmounting while timers are pending. Each handler reads the current state.
- A second submission while one is outstanding is excluded by `HandleSubmit`'s precondition. The source disables the submit button while `isSubmitting` is true (src/components/Contact.tsx:275).
- `localStorage` that throws (disabled storage, exceeded quota) is not modelled. Neither is `matchMedia` changing while the page is open: the source does not listen for it.
- Server-side rendering of `ThemeProvider` is not modelled. `ThemeProvider.Provider.constructor` requires a document and a window because effects run only in a browser.
- Token-list details are left out, such as duplicate classes in a `class` attribute and the serialisation of `classList`. A class list is a sequence.
- `Skills.SkillDots`: a level is an integer. The source's `number` also allows fractions, and a level of 3.5 lights four dots.
- The skills data, icons, animations and React `key`s of the skills section are not modelled.
- `Skills.InCategory` states only a length bound in its own contract. Its meaning is proved in `Skills.InCategoryIsOrderedSelection` and `Skills.InCategoryMembers`.
