# Password recovery wizard and server entry-point checks

This project models, in Dafny, two pieces of logic of the MERN authentication app:

- **The reset-password page** (`frontend/src/pages/ResetPassword.jsx`). It is a three-step wizard:
  1. It posts the account's email to `send-reset-otp`.
  2. It collects a six-character code in six one-character inputs. These inputs have forward and
     backward focus moves and a paste handler.
  3. It posts the email, the code and a new password to `reset-password`.

  Two flags, `isEmailSent` and `isOtpSubmitted`, decide which form is rendered. The page is the
  class `ResetPassword.Page`. Its handlers are methods that keep the invariant `Valid()`:
  - the slot array has six entries;
  - the focus index stays inside it;
  - each slot holds at most one character;
  - the flags only move forward (every handler ensures the two-state predicate `OnlyForward`);
  - once the code is accepted, the code is six characters long.

  The pure parts (join, paste text, paste effect, focus moves) are functions in module
  `OtpSlots`. Server replies are a `Reply` parameter (`Answered(success)` or `Threw`).
  Navigating to the login page is the terminal flag `navigatedAway`.
- **The backend entry point** (`backend/server.js`). Module `Server` models two things:
  - the port fallback `process.env.PORT || 4000`, with JavaScript truthiness written out;
  - the CORS `origin` callback, an exact membership test of the `Origin` header value
    (section 7 of RFC 6454) against a fixed two-entry allow-list. A missing or empty origin is admitted.

Where the page's own text promises more than its code does, the model follows the code:
- The page asks for "the 6-digit code" (`ResetPassword.jsx:117`), and its error toast asks for the
  "full 6-digit OTP" (line 57). The gate itself only counts length and does not check that the
  characters are digits (`NonDigitCodePasses`).
- As written, the final step never sends the code. See "## Findings".

## Model

| member | source | states |
|---|---|---|
| `Server.Port` | backend/server.js:10 | The port is the `PORT` string exactly when that variable is set and non-empty; otherwise it is the number 4000 |
| `Server.PortFallbackCases` | backend/server.js:10 | Unset and empty `PORT` both fall back to 4000; `"0"` is a truthy string and is kept |
| `Server.CheckOrigin` | backend/server.js:26-32 | An origin is admitted iff it is absent, empty, or literally one of the two listed origins; every other origin is rejected with "Not allowed by CORS" |
| `Server.CheckOriginAdmitsExactly` | backend/server.js:20-31 | The admitted header values are exactly a fixed set of four: absent, empty and the two allow-listed strings |
| `Server.CheckOriginIsExact` | backend/server.js:27 | No case folding, trailing-slash, prefix or suffix tolerance: near-miss origins are rejected |
| `OtpSlots.Join` | frontend/src/pages/ResetPassword.jsx:56 | Joining slots of at most one character each gives a code no longer than the number of slots |
| `OtpSlots.JoinFullIffFilled` | frontend/src/pages/ResetPassword.jsx:54-57 | With one-character inputs, the joined code reaches one character per slot iff every slot is filled |
| `OtpSlots.JoinFilled` | frontend/src/pages/ResetPassword.jsx:64 | With every slot filled, character i of the joined code is the character of slot i |
| `OtpSlots.NonDigitCodePasses` | frontend/src/pages/ResetPassword.jsx:57 | The completeness gate accepts six letters: characters are not checked to be digits |
| `OtpSlots.PasteText` | frontend/src/pages/ResetPassword.jsx:31 | The pasted text is the clipboard's prefix of length min(6, clipboard length) |
| `OtpSlots.Pasted` | frontend/src/pages/ResetPassword.jsx:32-36 | After the forEach, slot i holds the i-th pasted character for every i below the paste length; every other slot keeps its value; the slot count is unchanged |
| `OtpSlots.PastedKeepsShortSlots` | frontend/src/pages/ResetPassword.jsx:30-37 | A paste keeps every slot at most one character long |
| `OtpSlots.PasteIdempotent` | frontend/src/pages/ResetPassword.jsx:30-37 | Pasting the same text twice has the effect of pasting it once |
| `OtpSlots.PasteFillsCode` | frontend/src/pages/ResetPassword.jsx:30-37 | A clipboard of six or more characters fills all six slots, and the joined code is its first six characters |
| `OtpSlots.FocusAfterInput` | frontend/src/pages/ResetPassword.jsx:18-22 | A non-empty input at a slot before the last moves focus to the next slot. An empty value, or input at the last slot, leaves focus. Focus stays in range |
| `OtpSlots.FocusAfterKey` | frontend/src/pages/ResetPassword.jsx:24-28 | Backspace in an empty slot after the first moves focus back one. Any other key, a non-empty slot or slot 0 leaves focus. Focus stays in range |
| `OtpSlots.BackspaceReturnsAfterAdvance` | frontend/src/pages/ResetPassword.jsx:18-28 | Typing a character in a slot before the last moves focus to the next slot; Backspace in that newly focused, still empty slot returns focus to the slot where the character was typed |
| `ResetPassword.RenderedForms` | frontend/src/pages/ResetPassword.jsx:91-160 | For every value of the two flags the render emits exactly one form |
| `ResetPassword.ExactlyOneFormRendered` | frontend/src/pages/ResetPassword.jsx:92-141 | The form rendered is the one of the current step: email until the email is sent, then the code until it is submitted, then the new password |
| `ResetPassword.Page.constructor` | frontend/src/pages/ResetPassword.jsx:11-16 | The page starts with empty fields, both flags false, the email form shown and six empty slots |
| `ResetPassword.Page.SetEmail` | frontend/src/pages/ResetPassword.jsx:103 | The email field takes the typed value; nothing else changes, and no flag is cleared |
| `ResetPassword.Page.SubmitEmail` | frontend/src/pages/ResetPassword.jsx:39-52 | Posts send-reset-otp with the email. The code step is reached iff the reply has `success` true; a false reply or a thrown error leaves the state unchanged |
| `ResetPassword.Page.Input` | frontend/src/pages/ResetPassword.jsx:18-22 | The slot takes the typed value (at most one character), focus moves as `FocusAfterInput` says, and the invariant holds |
| `ResetPassword.Page.KeyDown` | frontend/src/pages/ResetPassword.jsx:24-28 | Focus moves as `FocusAfterKey` says for the slot's current value; the slots are untouched |
| `ResetPassword.Page.Paste` | frontend/src/pages/ResetPassword.jsx:30-37 | The in-place loop leaves exactly `Pasted(old slots, PasteText(clip))`: pasted positions overwritten, other slots unchanged |
| `ResetPassword.Page.SubmitOtp` | frontend/src/pages/ResetPassword.jsx:54-60 | Without a server call, sets `isOtpSubmitted` iff the joined code has at least six characters, iff all six slots are filled; otherwise nothing changes |
| `ResetPassword.Page.SetNewPassword` | frontend/src/pages/ResetPassword.jsx:152 | The new-password field takes the typed value; nothing else changes, and no flag is cleared |
| `ResetPassword.Page.SubmitNewPassword` | frontend/src/pages/ResetPassword.jsx:62-80 | Posts reset-password with the email, the six-character code joined from the slots and the new password. Success navigates away; failure leaves flags and slots untouched |
| `ResetPassword.RefsAt` | frontend/src/pages/ResetPassword.jsx:127 | The ref array holds the six inputs while the code form is mounted and six nulls after it unmounts |
| `ResetPassword.ReadRefs` | frontend/src/pages/ResetPassword.jsx:56 | Mapping `ref.value` over the refs fails (TypeError) iff some ref is null |
| `ResetPassword.ReadRefsAtOtpStep` | frontend/src/pages/ResetPassword.jsx:56-57 | While the code form is mounted, reading the refs yields exactly the joined slot values that the gate tests |
| `ResetPassword.NewPasswordRequestAsWritten` | frontend/src/pages/ResetPassword.jsx:62-70 | As written, the final handler never produces a reset-password request: the refs it reads are null |
| `ResetPassword.PasteAndReset` | frontend/src/pages/ResetPassword.jsx:30-80 | Whole flow (corrected final submit): email accepted, "123456" pasted, code submitted, password posted; the request carries "123456" |
| `ResetPassword.RetryResendsSameCode` | frontend/src/pages/ResetPassword.jsx:62-80 | (Corrected final submit) A failed final submit followed by a retry posts the identical request, with a six-character code |

## Findings

| source | as written | input that shows it | evidently intended | confidence | as-written member | corrected member |
|---|---|---|---|---|---|---|
| frontend/src/pages/ResetPassword.jsx:64 | `onSubmitNewPassword` reads the code through `inputRefs.current` while the new-password form is shown. The code form has unmounted by then, and React has set each callback ref (line 127) to `null`. `ref.value` throws a TypeError before the `try`, so nothing is posted | email submitted with a `success` reply, paste "123456", submit the code, type a password, submit | post `{email, otp: "123456", newPassword}` to reset-password | medium, not executed; it rests on React calling a callback ref with `null` when its element is removed | `ResetPassword.NewPasswordRequestAsWritten` | `ResetPassword.Page.SubmitNewPassword` |

The corrected page stores the code in `otp` when the code form accepts it (`Page.SubmitOtp`). The
final submit sends that stored code. `Valid()` ties it to the joined slot values.

## Left out

- Network calls (axios posts to send-reset-otp and reset-password): each is abstracted to the `Reply` it gets back. Toast messages and `navigate('/login')` are reduced to the `navigatedAway` flag.
- Presentation: JSX markup, CSS classes, images and the DOM `focus()` call. Only the focus index is kept.
- Browser behaviour outside the handlers:
  - clicking or tabbing into a slot is not a step of the model. Focus starts at slot 0. `Page.Input` and `Page.KeyDown` take the slot `index` the event fires on, as the handlers do, and do not tie it to `focus`;
  - HTML constraint validation before a submit. The code inputs are `required` (line 126), and so are the email field (line 104, also `type='email'`, line 99) and the password field (line 153). The browser therefore fires `onSubmitOTP` only with all six slots non-empty, and never fires `onSubmitEmail` or `onSubmitNewPassword` with an empty or malformed field. The model lets each submit handler run on any state: `Page.SubmitOtp` may reject, and `Page.SubmitEmail` and `Page.SubmitNewPassword` may post `""`. Those runs are wider than the page allows; every proved property still holds on the narrower set;
  - the browser's own insertion of pasted text into the focused input after `handlePaste` returns;
  - IME composition.
- `handlePaste`'s `if (inputRefs.current[index])` guard becomes `index < slots.Length`. The refs are non-null whenever the paste handler can fire, because the code form is mounted then.
- JavaScript strings are UTF-16: `slice` and `split('')` count code units, so an astral character is split in two. Dafny `char` is a Unicode scalar value, so the model does not capture that split.
- Concurrency: each handler is one atomic step; interleavings of the async handlers are not modelled.
- The Express wiring in `backend/server.js`: `connectDB()`, `express.json`, `cookieParser`, route mounting, the test route, `app.listen`, and how the cors middleware turns a `Reject` into an error response.
- `frontend/src/context/AppContext.jsx`: it stores what two HTTP replies say and has no invariant of its own.
- The server-side OTP engine (code generation, expiry, single-use consumption), password hashing, session tokens and the user store. Their code is not part of this model, so it cannot be stated against source.
