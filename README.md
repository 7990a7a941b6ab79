# Ensenada 101 landing page: the "notify me" form

The landing page (`pages/index.tsx`) has one piece of decision logic: the email
capture form in the hero section. It has three state cells: the typed `email`, the
`submitted` latch and the `error` line. On submit it checks in order:

1. The field is empty: it shows "Ingresa tu email.".
2. The text fails the shape test `^[^\s@]+@[^\s@]+\.[^\s@]+$`: it shows "Email no válido.".
3. Otherwise it clears the error and latches `submitted`. It then navigates to a
   `mailto:` compose draft (section 2 of RFC 6068) whose body ends with the escaped
   address, and clears the field.

Typing into the field stores the text and clears a pending error. While
`submitted` holds, the page shows the confirmation text instead of the form, so
no handler is reachable any more.

The model has four modules:

- `Wrappers` (`wrappers.dfy`): `Option`.
- `EmailShape` (`email_shape.dfy`) gives three views of the shape test and proves
  they agree:
  - `MatchesShape`: the regular language, stated as a split `a + "@" + b + "." + c`
    into three runs of `[^\s@]+`.
  - `WellFormedAddress`: a direct characterisation.
  - `ShapeTest`: an executable test.

  `IsWhitespace` is ECMAScript's `\s` class, with its code points written out.
- `Mailto` (`mailto.dfy`): the fixed link prefix and `MailtoUrl`. The browser's
  `encodeURIComponent` is the function-valued parameter `encode`.
- `EmailCapture` (`email_capture.dfy`) has two layers:
  - Functions on a `FormState` value: `Submit`, `Edit`, `Render`, `Deliver` (an
    event reaches a handler only while the form is rendered) and `Run` (a whole
    event sequence). The lemmas about event sequences use these functions.
  - The class `EmailForm`, whose fields are the three state cells. Its handlers
    update the fields step by step with early returns, as the source does. Each
    handler is proved to end in the state that the matching function gives.

## Model

| member | source | states |
|---|---|---|
| `EmailShape.ShapeTestCorrect` | pages/index.tsx:159 | The executable test accepts a string exactly when the string is in the language of `^[^\s@]+@[^\s@]+\.[^\s@]+$`. That means it splits into three non-empty runs without whitespace or `@`, joined by `@` and `.`. |
| `EmailShape.MatchesShapeIffWellFormed` | pages/index.tsx:159 | The regex accepts s iff all of these hold: s has no whitespace; s has exactly one `@`, not at position 0; the part after the `@` has a `.` that is neither its first nor its last character. Both directions are proved. |
| `EmailShape.MatchesShapeWellFormed` | pages/index.tsx:159 | Direction "regex match ⇒ direct characterisation". |
| `EmailShape.WellFormedMatchesShape` | pages/index.tsx:159 | Direction "direct characterisation ⇒ regex match". It builds the three pieces from the `@` and `.` positions. |
| `EmailShape.ShapeTest` | pages/index.tsx:159 | The executable form of the `.test(email)` call that `Submit` and `HandleSubmit` use. It finds the first `@` and checks the rest. It accepts exactly the strings of the direct characterisation. `ShapeTestCorrect` ties it to the regex language. |
| `EmailShape.ShapeExamples` | pages/index.tsx:159 | `"a@b.c"` and `"maria@example.com"` match. `"maria@"`, `"not-an-email"`, `"   "` and `""` do not. |
| `Mailto.MailtoUrl` | pages/index.tsx:165 | The link is the fixed text of line 165 followed by the escaped address. Its recipient, subject and body parts are not stated separately (see "## Left out"). |
| `Mailto.AddressRecoverable` | pages/index.tsx:165 | Take any inverse `decode` of the escaping. Dropping the fixed prefix from the link and applying `decode` gives back the typed address. So the draft body carries exactly the address that was submitted. |
| `Mailto.MailtoUrlInjective` | pages/index.tsx:165 | Two links are equal iff the encodings of their addresses are equal. |
| `EmailCapture.Submit` | pages/index.tsx:153-167 | An empty field sets `error` to "Ingresa tu email." and changes nothing else. A non-empty text outside the regex language sets `error` to "Email no válido." and changes nothing else. A matching text ends in email `""`, `submitted` true and error `""`, and issues the link for the text as typed. A link is issued iff the text matches. |
| `EmailCapture.Edit` | pages/index.tsx:295-298 | The new text is stored and `error` becomes `""` whatever it was. `submitted` is unchanged, and no validation runs. |
| `EmailCapture.Render` | pages/index.tsx:275-317 | The confirmation is shown iff `submitted`. Otherwise the form shows the typed text, with the error line present iff `error` is non-empty. |
| `EmailCapture.Deliver` | pages/index.tsx:275-298 | Once submitted, an event changes nothing and issues nothing. A link is issued iff this event latches `submitted`. Only a submit issues a link, and that link is the one for the current text. |
| `EmailCapture.RunAfterSubmitted` | pages/index.tsx:275-290 | From a submitted state, any sequence of events leaves the state unchanged and issues no link. |
| `EmailCapture.RunNavigations` | pages/index.tsx:153-167 | Over any sequence of events, at most one link is issued. One is issued exactly when the run latches `submitted`, and it is the link for an address that matches the regex. `submitted` never goes back to false, and "submitted ⇒ field and error empty" is preserved. |
| `EmailCapture.RejectionExamples` | pages/index.tsx:155-162 | The empty check runs first: `""` gets "Ingresa tu email.", which differs from "Email no válido.". `"maria@"`, `"not-an-email"` and `"   "` are rejected with "Email no válido.", and the field keeps its text (no trimming). |
| `EmailCapture.EmailForm.constructor` | pages/index.tsx:141-143 | The cells start as email `""`, `submitted` false and error `""`. |
| `EmailCapture.EmailForm.HandleSubmit` | pages/index.tsx:153-167 | Covers the three outcomes on the fields: empty, malformed and accepted. On acceptance the returned navigation is the link for the address before the field is cleared. The new state and link are exactly what `Submit` gives. |
| `EmailCapture.EmailForm.HandleChange` | pages/index.tsx:295-298 | Sets `email` to the new text and `error` to `""`, and leaves `submitted` unchanged. The result is what `Edit` gives. |
| `EmailCapture.EmailForm.Dispatch` | pages/index.tsx:275-298 | Routes an event to the handler the page renders. Nothing happens once submitted. The result is what `Deliver` gives. |
| `EmailCapture.MariaSession` | pages/index.tsx:153-167 | On a fresh form: typing "maria@" and submitting shows "Email no válido.". Retyping "maria@example.com" clears the error. Submitting again shows the confirmation, empties the field and issues the prefix followed by `maria%40example.com`. |

## Left out

- The `FadeIn` reveal-once wrapper (pages/index.tsx:8-30): its behaviour lives in the animation library's `useInView` and `motion`, which are not part of this model. Only constants remain in the page.
- The hero parallax (pages/index.tsx:146-151): floating-point interpolation and clamping done by the animation library.
- The navigation itself (`window.location.href`, pages/index.tsx:165): browser I/O. It is modelled as the link returned by the handler.
- `encodeURIComponent` (pages/index.tsx:165): a browser built-in. It is the uninterpreted parameter `encode`, which is assumed to be total: it always returns a string and never throws. Beyond that, `AddressRecoverable` assumes `encode` has an inverse `decode`, which holds for `decodeURIComponent` on strings without unpaired surrogates. `MariaSession` assumes only the one value it needs.
- `e.preventDefault()` (pages/index.tsx:154): it suppresses the browser's default form submission, which is not part of this model.
- React state batching and re-rendering: each handler produces its final state in one step.
- The browser's own handling of `type="email"` inputs (pages/index.tsx:293): native validation and value sanitisation (which strips line breaks and surrounding whitespace) are not part of this model. The handlers see the text exactly as given.
- Strings are sequences of Unicode scalar values, not UTF-16 code units. For the shape test this makes no difference, because no character outside the Basic Multilingual Plane is whitespace or `@`. There is one consequence:
  - A JavaScript string can hold an unpaired surrogate. Such a code unit belongs to `[^\s@]`, so the string can pass the test at pages/index.tsx:159.
  - `encodeURIComponent` would then throw `URIError` at line 165. This happens after `error` has been cleared and `submitted` latched (lines 163-164), and before the field is cleared (line 166).
  - The page would then show the confirmation with no draft opened and the field still holding the text.
  - This path is not modelled: the model's strings cannot hold an unpaired surrogate, and `encode` is total.
- The link prefix `Mailto.Prefix` is a single literal equal to the text of pages/index.tsx:165. The fields defined in section 2 of RFC 6068 (recipient `hello@ensenada101.fishtacos.com`, the `subject` header field and the open-ended `body` header field) are named only in its comment. No contract states that the prefix splits into them.
- The presentational markup and graphics (`Shield`, `WaveDivider`, `menuItems`, the other sections), the copyright year read from the clock (pages/index.tsx:667), and the static configuration in `pages/_document.tsx` and `tailwind.config.js`.
