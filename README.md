# receiptIt waitlist form — a Dafny model

The receiptIt marketing page collects a waitlist signup in two steps. First, the page (`src/App.tsx`)
takes an alias. It refuses an empty alias, then an alias with characters outside `[a-zA-Z0-9._-]`.
Otherwise it opens the success modal. Second, the modal (`src/components/SuccessModal.tsx`) takes
an e-mail address. It refuses an empty address, then one that does not match
`^[^\s@]+@[^\s@]+\.[^\s@]+$`. Otherwise it inserts `{ alias: alias.toLowerCase(), email }` into the
`waitlist` table and maps the result to one of three messages or to the success view. Closing the
modal resets its four state cells and the page's three.

The project is organised by component:

- `alias.dfy` (`AliasRules`): the alias character class, the alias pattern as a recursive regular-expression reading, and `ClaimError`, the message the claim handler leaves.
- `email.dfy` (`EmailRules`): JavaScript's `\s`, the e-mail pattern as "some split local@domain.tld exists", its characterisation by plain features, and `EmailError`.
- `lowercase.dfy` (`Lowercase`): ASCII `toLowerCase` and its properties.
- `insert.dfy` (`InsertResult`): the inserted row, the insert outcome (`Ok | Err(code, status) | Thrown`) and the message each outcome is mapped to.
- `page.dfy` (`Page.PageForm`): the page's state cells and handlers, as a class whose methods update the fields.
- `modal.dfy` (`Modal.SuccessModal`): the modal's state cells and handlers. Its `page` reference stands for the `alias` and `onClose` props.
- `wrappers.dfy`: `Option`.

Points where the code behaves differently from what a reader might expect:

- There is one combined conflict message. An alias conflict and an e-mail conflict are not told apart, by message or otherwise.
- Postgres code `23505` and HTTP status `409` are treated alike.
- On success the busy flag (`isLoading`) stays set. It is not cleared on every exit path.
- The page issues no insert of its own; only the modal inserts, with the alias lowered.

## Model

| member | source | states |
|---|---|---|
| `AliasRules.AliasPatternCharacterwise` | src/App.tsx:20 | `^[a-zA-Z0-9._-]+$` accepts a string exactly when the string is non-empty and every character is a letter, digit, `.`, `_` or `-` |
| `AliasRules.ClaimError` | src/App.tsx:13-25 | the claim handler's error is empty exactly for a non-empty alias of class characters; an empty alias always gets "Please enter an alias", never the character message; a non-empty alias with a foreign character gets the character message |
| `AliasRules.RejectsOutsideChar` | src/App.tsx:20-23 | one character outside the class at any index is enough for the character message |
| `AliasRules.ExampleAliasAccepted` | src/App.tsx:15-25 | the alias `john_doe` passes both checks |
| `Page.PageForm.constructor` | src/App.tsx:7-9 | the page starts with an empty alias, the modal closed and no error |
| `Page.PageForm.SetAlias` | src/App.tsx:72 | typing sets the alias |
| `Page.PageForm.HandleClaimClick` | src/App.tsx:11-26 | only `error` and `isModalOpen` may change, never `alias`; an empty alias sets the "enter an alias" error and an invalid one the character error, both leaving the modal as it was; a valid alias ends with no error and the modal open; whenever the call opens the modal, the alias is non-empty and made of class characters |
| `Page.PageForm.OnModalClose` | src/App.tsx:246-250 | from any state, the modal ends closed, the alias empty and the error empty |
| `EmailRules.EmailPatternIff` | src/components/SuccessModal.tsx:30 | `^[^\s@]+@[^\s@]+\.[^\s@]+$` accepts a string exactly when it has exactly one `@`, no whitespace, a character before the `@`, and a `.` after the `@` that is neither the first character after it nor the last character |
| `EmailRules.EmailError` | src/components/SuccessModal.tsx:24-34 | the e-mail checks leave an empty error exactly for an address with those features; an empty address gets "Please enter your email", and any other refused address gets "Please enter a valid email address" |
| `EmailRules.ExampleEmailAccepted` | src/components/SuccessModal.tsx:30 | `john@example.com` passes both checks |
| `EmailRules.MissingDotRejected` | src/components/SuccessModal.tsx:30-34 | `john@example` is refused with the invalid-address message |
| `Lowercase.ToLower` | src/components/SuccessModal.tsx:39 | lowering keeps the length and lowers each character on its own |
| `Lowercase.ToLowerHasNoUpper` | src/components/SuccessModal.tsx:39 | a lowered string has no upper-case letter |
| `Lowercase.ToLowerKeepsLower` | src/components/SuccessModal.tsx:39 | a string without upper-case letters is unchanged by lowering |
| `Lowercase.ToLowerIdempotent` | src/components/SuccessModal.tsx:39 | lowering twice equals lowering once |
| `Lowercase.ToLowerKeepsAliasAccepted` | src/components/SuccessModal.tsx:39 | the lowered form of an accepted alias is still accepted by the page's alias check |
| `InsertResult.FailureMessage` | src/components/SuccessModal.tsx:41-55 | only a clean insert yields no message; an insert error yields the conflict message exactly when its code is `23505` or its status is 409, and otherwise the generic message; a thrown error yields the unexpected-error message; no message is empty |
| `InsertResult.FailureKindsDistinguishable` | src/components/SuccessModal.tsx:42-53 | a thrown error never shares its message with an insert error |
| `Modal.SuccessModal.constructor` | src/components/SuccessModal.tsx:12-15 | the modal starts with an empty e-mail, not loading, no error, not succeeded |
| `Modal.SuccessModal.SetEmail` | src/components/SuccessModal.tsx:100 | typing sets the e-mail |
| `Modal.SuccessModal.HandleSubmit` | src/components/SuccessModal.tsx:19-56 | an insert is issued exactly when the e-mail has the accepted features, and it carries the lowered page alias and the e-mail; an empty or malformed e-mail sets its message, clears loading and leaves success as it was; an insert error or exception sets the mapped message, clears loading and leaves success as it was; a clean insert ends with no error, success set and loading still set; `email` and the alias never change |
| `Modal.SuccessModal.HandleClose` | src/components/SuccessModal.tsx:58-64 | from any state, the e-mail and error end empty and loading and success false, and the page's `onClose` runs; every cell ends with a fixed value, so a second call changes nothing |

## Left out

- Rendering, styling, marketing copy and pricing text are presentation only. The `isOpen` early return only suppresses rendering.
- `scrollToFeatures` is not modelled. It is a DOM lookup and a scroll.
- The datastore client and the `waitlist` insert are a network call. The model takes the insert's outcome as an input and returns the row it would insert. Uniqueness enforcement lives in the datastore and is not part of this model.
- `async`/`await`: each submission is one atomic step given the insert outcome. Interleaved submissions are not modelled. The handler does not check `isLoading`, so neither does the model; only the disabled button guards against a second submission.
- `Lowercase.ToLower` lowers ASCII letters only. JavaScript's `toLowerCase` also lowers non-ASCII letters and can change a string's length. The two agree on strings of alias characters, which is what the claim check lets through; an alias edited after the modal opens (see the last line below) reaches the insert unchecked, and for it the model's lowering can differ from the source's.
- Strings are sequences of Unicode scalar values, not UTF-16 code units. This does not change what either pattern accepts, because no character of `\s` or `@` is a surrogate.
- `Modal.SuccessModal.HandleClose`: "a second call changes nothing" follows from the fixed final values in its postcondition. It is not stated as a separate clause.
- The page's `alias` can still be edited while the modal is open (`Page.PageForm.SetAlias` has no precondition). So "the modal always holds a valid alias" is stated only at the moment `HandleClaimClick` opens the modal.
