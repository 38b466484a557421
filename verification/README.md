# Turn requests and phone registration of a take-a-number queue app

This project models two pieces of a virtual-queue web application in which customers
register by phone and take turns ("issued numbers") in shops' lines.

- **The issued-number resolver** (`graphql/issuedNumber/resolver.ts`). The `getTurns`
  query fetches a client's live turns: status 0, 1 or 2, newest id first, at most five.
  The `requestTurn` mutation runs an ordered chain of checks on them. Each check has
  its own error code: client id, shop id, one pending turn per shop, at most three
  pending turns, at most five turns today. Only then does it call the
  `increaseShopCounter` stored procedure. The `cancelTurn` mutation and the `turn`
  query check the token, the id, whether the row exists and who owns it.
  `cancelTurn` sets status 3 on exactly one row.
- **The phone-registration page** (`pages_/register-phone.tsx`). It has two screens
  (send a code, verify it) and an errors record `{phone?, code?}`. Field edits, the
  server's answers and an expiry countdown drive it. A predicate decides whether
  registration is open for the visitor.

The modules are:

- `Wrappers` holds `Option`, `Result`, and JavaScript truthiness of an optional number.
- `IssuedNumbers` holds the row datatype, the table as a `map` from id to row, and
  `getTurns`. `getTurns` is a recursive selection of the five largest selected ids.
- `TurnResolver` holds `requestTurn`, `cancelTurn` and `turn`.
- `RegisterPhone` holds the page as a `Step(state, event)` function and the
  disabled-registration predicate.

Modelling choices:

- Timestamps and the start of today are integers.
- `decodeId` is not modelled. Each operation takes its result as an `Option<int>`.
  `None` stands for `undefined` or `NaN`. As in the source's `!id` tests, `0` counts
  as not decoded.
- `ctx.tokenInfo` is an `Option<TokenInfo>`. Its client id is falsy when absent or 0.
- `requestTurn` checks only that a client id is present, not that the token is valid.
  This is what the source does, and the model follows it.
- The stored procedure's success is a boolean parameter.
- The page's countdown callback uses the `errors` value it captured when the interval
  started, not the current one. The model keeps that captured value as `armedErrors`.
- `onSendCode` awaits `executeRecaptcha` outside its `try`. When that call rejects,
  the handler ends with the page still submitting and no error shown. The model has an
  outcome for this, so "submitting" does not imply "navigated away".

## Model

| member | source | states |
|---|---|---|
| `IssuedNumbers.GetTurns` | graphql/issuedNumber/resolver.ts:18-29 | at most five rows, each a row of the table owned by the client with status 0, 1 or 2, strictly newest id first; a selected row is left out only when five rows were returned and all of them are newer |
| `IssuedNumbers.TakeNewest` | graphql/issuedNumber/resolver.ts:24-27 | `orderBy id desc, first: n` over the selected ids returns min(n, \|ids\|) rows; its order and choice of rows are stated by `TakeNewestSpec` |
| `IssuedNumbers.TakeNewestSpec` | graphql/issuedNumber/resolver.ts:24-27 | the ordered, limited selection returns min(n, \|ids\|) rows of the given ids in strictly decreasing id order, and every id left out is older than all returned ones |
| `IssuedNumbers.GetTurnsHasNoCancelled` | graphql/issuedNumber/resolver.ts:22 | no fetched turn has status 3, so cancelled turns never reach a quota check |
| `IssuedNumbers.GetTurnsDropsOlderTurns` | graphql/issuedNumber/resolver.ts:24-27 | with more than five live turns, the oldest is not fetched and all five fetched turns are newer |
| `IssuedNumbers.Cancel` | graphql/issuedNumber/resolver.ts:178-186 | the update keeps the same ids, sets status 3 on the target row, keeps its other fields, and leaves every other row unchanged |
| `IssuedNumbers.CancelledTurnIsInvisible` | graphql/issuedNumber/resolver.ts:18-29 | after a row is cancelled, the client's fetched turns are exactly those of the table without that row, and the row is not among them |
| `TurnResolver.Filter` | graphql/issuedNumber/resolver.ts:110-121 | the filtered list is no longer than the input, holds only input elements satisfying the predicate, is as long as the input only when every element satisfies it, and is empty exactly when none does |
| `TurnResolver.FilterKeepsMatches` | graphql/issuedNumber/resolver.ts:110-121 | the filtered list keeps every element satisfying the predicate as many times as it occurs in the input and holds nothing else (as multisets), so its length is the number of matching elements |
| `TurnResolver.Find` | graphql/issuedNumber/resolver.ts:98-100 | nothing is found exactly when no element matches; otherwise the result is the first matching element |
| `TurnResolver.CheckTurns` | graphql/issuedNumber/resolver.ts:97-148 | on the fetched turns: ACTIVE_TURN exactly when some turn is pending at the shop, carrying the id of the first (newest) such turn; PENDING_TURNS_QUOTA_EXCEEDED exactly when none is and three or more are pending; TODAY_TURNS_QUOTA_EXCEEDED exactly when both pass and five or more were created today; OP_ERROR exactly when all pass and the procedure fails; success exactly when all pass and it succeeds, with pendingTurnsAmount = number of fetched turns + 1 |
| `TurnResolver.RequestTurn` | graphql/issuedNumber/resolver.ts:86-148 | INVALID_CLIENT_ID exactly when no client id, INVALID_SHOP_ID exactly when there is one but the shop id does not decode, otherwise the checks on the client's fetched turns; pendingTurnsAmount lies in 1..6 |
| `TurnResolver.TodayQuotaMeansFiveTurnsToday` | graphql/issuedNumber/resolver.ts:118-127 | on at most five fetched turns, the daily quota fires only when there are exactly five and all were created today |
| `TurnResolver.GrantedRequestRespectsQuotas` | graphql/issuedNumber/resolver.ts:97-141 | a granted request had a client id, a decoded shop id, a successful procedure, no fetched pending turn at the shop, fewer than three fetched pending turns and fewer than five from today |
| `TurnResolver.TurnQuery` | graphql/issuedNumber/resolver.ts:47-78 | INVALID_TOKEN exactly when the token is invalid, INVALID_TURN_ID exactly when the id does not decode, TURN_NOT_FOUND exactly when the row is missing or not the caller's; a returned turn is the caller's own row |
| `TurnResolver.TurnQueryHidesForeignTurns` | graphql/issuedNumber/resolver.ts:68-70 | a missing turn and another client's turn give the same TURN_NOT_FOUND answer |
| `TurnResolver.CancelTurn` | graphql/issuedNumber/resolver.ts:150-188 | INVALID_TOKEN, NO_CLIENT_ID, INVALID_TURN_ID, TURN_NOT_FOUND, INVALID_CLIENT_ID each exactly when its check is the first to fail; on success the row is the caller's, it gets status 3, and every other row is unchanged |
| `TurnResolver.CancelAgreesWithTurnQuery` | graphql/issuedNumber/resolver.ts:150-176 | with a valid token and client id, cancel succeeds exactly when the turn query shows the turn; where the query says TURN_NOT_FOUND, cancel says TURN_NOT_FOUND for a missing row and INVALID_CLIENT_ID for a foreign one |
| `TurnResolver.CancelIsIdempotent` | graphql/issuedNumber/resolver.ts:178-186 | cancelling again after a successful cancel gives the same table |
| `TurnResolver.CancelThenQuery` | graphql/issuedNumber/resolver.ts:178-186 | after a cancel, the owner's turn query shows the turn with status 3 |
| `TurnResolver.CancelKeepsTableKeyed` | graphql/issuedNumber/resolver.ts:178-186 | a cancel keeps every row under its own id |
| `TurnResolver.CancelReleasesShop` | graphql/issuedNumber/resolver.ts:97-107 | cancelling the client's only pending turn at a shop means a new request there is not refused with ACTIVE_TURN |
| `TurnResolver.OldestTurnIsNotFetched` | graphql/issuedNumber/resolver.ts:18-29 | when the oldest of more than five live turns is the only one that is pending or from today, the five fetched turns are all non-pending and from before today, so the checks never see it |
| `TurnResolver.QuietTurnsAreGranted` | graphql/issuedNumber/resolver.ts:109-141 | fetched turns with none pending and none from today pass every check and are granted once the procedure succeeds |
| `TurnResolver.PendingTurnBeyondFiveIsMissed` | graphql/issuedNumber/resolver.ts:95-116 | a client holding a pending turn at shop 7 behind five newer live turns is granted another turn at shop 7 |
| `TurnResolver.RequestTurnAllPending` | graphql/issuedNumber/resolver.ts:97-116 | with the pending rules applied to every pending turn of the client: ACTIVE_TURN exactly when the table holds one at the shop, carrying such a turn's id; a granted request leaves no pending turn at the shop and fewer than three pending turns in all |
| `TurnResolver.FilterCount` | graphql/issuedNumber/resolver.ts:110-111 | on turns with distinct ids, the length of the filtered list is the number of ids whose turn satisfies the predicate |
| `TurnResolver.FindReturnsNewest` | graphql/issuedNumber/resolver.ts:98-100 | on the newest-first list, find returns the matching turn with the largest id, and nothing exactly when no turn matches |
| `TurnResolver.FetchesAllWhenFew` | graphql/issuedNumber/resolver.ts:18-29 | a client with at most five live turns gets all of them fetched |
| `TurnResolver.FetchedFindAgrees` | graphql/issuedNumber/resolver.ts:98-100 | when every live turn is fetched, find over the fetched list returns the newest of the client's pending turns at the shop, and nothing exactly when there is none |
| `TurnResolver.FetchedPendingCount` | graphql/issuedNumber/resolver.ts:110 | when every live turn is fetched, the fetched pending count equals the number of the client's pending turns |
| `TurnResolver.AllPendingAgreesWithFewTurns` | graphql/issuedNumber/resolver.ts:95-148 | while the client has at most five live turns, the corrected rules and the code give the same answer |
| `TurnResolver.AllPendingCatchesHiddenTurn` | graphql/issuedNumber/resolver.ts:97-107 | on the same table, the corrected rules answer ACTIVE_TURN with the hidden turn's id |
| `RegisterPhone.SendErrorMessage` | pages_/register-phone.tsx:91-105 | INVALID_PHONE and INVALID_NATIONAL_PHONE map to the invalid-phone message, each of the two limit codes to its own message, every other code to the generic error |
| `RegisterPhone.SendErrorMessagesDistinct` | pages_/register-phone.tsx:91-105 | the generic message is used exactly for codes outside the four named ones |
| `RegisterPhone.OnChange` | pages_/register-phone.tsx:55-60 | an edit clears both errors, keeps the screen and the submitting flag, and stores the value in the edited field only |
| `RegisterPhone.OnSendCode` | pages_/register-phone.tsx:73-110 | ends submitting exactly when `executeRecaptcha` rejects (then nothing else changes); without reCAPTCHA only the submitting flag is cleared; a sent code moves to the verify screen, records the expiry and starts the countdown, and changes nothing else; a failure sets the mapped phone message, keeps the screen and changes nothing else |
| `RegisterPhone.RedirectTarget` | pages_/register-phone.tsx:123 | the route pushed after verification is the redirectTo parameter when it is non-empty, and "/" otherwise |
| `RegisterPhone.OnVerifyCode` | pages_/register-phone.tsx:112-144 | an empty code sets code-required and changes nothing else; a verified code navigates; PHONE_NOT_REGISTERED and CODE_EXPIRED return to the send screen with the verification-failed phone error; INCORRECT_CODE sets the incorrect-code error on the same screen; every failure ends not submitting; each branch is stated as the whole new state, so nothing else changes |
| `RegisterPhone.OnTick` | pages_/register-phone.tsx:146-164 | without a running countdown nothing changes; a tick with time left updates the countdown text; expiry returns to the send screen, stops and clears the countdown and sets the expired-code phone error over the errors captured when the countdown started, and changes nothing else |
| `RegisterPhone.Step` | pages_/register-phone.tsx:55-164 | the page's reaction to one event: a field changes only by an edit of it, the route only by a verified non-empty code, the expiry date only by a sent code; the page starts submitting exactly on a rejected reCAPTCHA or a verified non-empty code |
| `RegisterPhone.HandleSubmit` | pages_/register-phone.tsx:62-71 | submitting the form sends the code on the send screen and verifies it on the verify screen |
| `RegisterPhone.InitialIsConsistent` | pages_/register-phone.tsx:47-53 | the initial page satisfies the page invariant |
| `RegisterPhone.StepPreservesConsistent` | pages_/register-phone.tsx:55-164 | every event, each handled as one atomic step, preserves the invariant: the verify screen and a running countdown imply an expiry date, and countdown text is shown only while the countdown runs |
| `RegisterPhone.RunPreservesConsistent` | pages_/register-phone.tsx:55-164 | any sequence of events preserves the invariant |
| `RegisterPhone.ReachableIsConsistent` | pages_/register-phone.tsx:47-164 | every state reached from the initial page satisfies the invariant |
| `RegisterPhone.VerifyScreenOnlyAfterCodeSent` | pages_/register-phone.tsx:84-87 | from the send screen, an event leads to the verify screen exactly when it is a send with reCAPTCHA ready that the server accepted |
| `RegisterPhone.SendScreenOnlyAfterFailureOrExpiry` | pages_/register-phone.tsx:126-159 | from the verify screen, an event leads back to the send screen exactly on a PHONE_NOT_REGISTERED or CODE_EXPIRED answer to a non-empty code, or on expiry of a running countdown |
| `RegisterPhone.VerifyAnswerEndsSubmitting` | pages_/register-phone.tsx:126-143 | with a non-empty code, the answer leaves the page submitting exactly when the code was verified, and then it has navigated to the redirect target; an empty code leaves the flag as it was |
| `RegisterPhone.RegistrationDisabled` | pages_/register-phone.tsx:290-295 | registration is disabled exactly when (redirectTo is /my-shop and shop registration is off) or (redirectTo is not /my-shop and client registration is off) |
| `RegisterPhone.RegistrationFlagsAreIndependent` | pages_/register-phone.tsx:290-295 | for the shop sign-up only the shop flag matters, and otherwise only the client flag |
| `RegisterPhone.Render` | pages_/register-phone.tsx:290-311 | the disabled notice wins over the logged-in spinner, which wins over the form |

## Left out

- `decodeId`/`encodeId` (hashids) are left out. Operations take the decoded id, and the ACTIVE_TURN error carries the raw id instead of its encoding.
- `numberToTurn`, the shop-name join of the `turn` query, `myTurns` and `myPastTurns` are left out. Their helpers are not part of this model.
- The `increaseShopCounter` stored procedure is reduced to a success flag. The row it inserts and the `goToShopThreshold` setting are not modelled, so `RequestTurn` returns a result and no new table.
- The race between reading the turns and inserting a new one is left out. The quota check is not atomic, and that is a concurrency matter outside a sequential model.
- `date-fns` is left out. `startOfDay(new Date())` is an integer parameter and `compareAsc(a, b) >= 0` is `a >= b`.
- Sentry reporting, the Apollo error messages (only codes are kept) and translations are left out. Messages are enums named after their keys.
- The React rendering, `setInterval` timing, the router, reCAPTCHA, the GraphQL client, `process.env` and `getServerSideProps` are left out. They become event parameters: reCAPTCHA readiness, whether `executeRecaptcha` rejects, server answers, the formatted time left and the flags.
- Handlers are modelled as atomic steps: the request and the server's answer are one event, so no tick or edit happens while a request is in flight. In the page, a countdown expiry during a verify request can be overwritten when the answer rebuilds the errors from the record captured at the start, and `isSubmitting` is true throughout every request; neither is modelled.
- `Number(code)` conversion is left out. The code is the raw field text, and only the empty text is falsy.
- The logged-in redirect effect of `VerifyPhoneWithCaptcha` is reduced to the `loading` flag it sets.
- `pages_/my-shop.tsx` is not part of this model.

## Findings

| source | as written | input that shows it | evidently intended | confidence | as-written member | corrected member |
|---|---|---|---|---|---|---|
| graphql/issuedNumber/resolver.ts:95-116 | the one-pending-turn-per-shop and three-pending-turns checks only scan the five newest live turns that `getTurns` returns | client 1 holds a pending turn (id 1) at shop 7 and five newer status-1 turns (ids 2-6) at shop 8, all created before today; requesting shop 7 is granted with pendingTurnsAmount 6 | the checks consider all of the client's pending turns, as the code's comments on one pending turn per shop and at most three active turns say | medium; not executed | `TurnResolver.PendingTurnBeyondFiveIsMissed` | `TurnResolver.RequestTurnAllPending` |

`TurnResolver.RequestTurn` stays as written so that the other properties describe
the code's behaviour. `TurnResolver.RequestTurnAllPending` is the corrected rule.
`TurnResolver.AllPendingCatchesHiddenTurn` shows that it refuses the request above.
`TurnResolver.AllPendingAgreesWithFewTurns` shows that the two agree whenever the
client has at most five live turns, so every fetched list holds all of them.
