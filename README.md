# Visiting-care SaaS core, modelled in Dafny

This project models the logic of a visiting-care management application. The application has three parts:

- **Record repositories.** Care recipients and staff are stored in DynamoDB. Each repository has an `add*` operation that stamps a generated id and timestamps, and a `list*` operation that pages through the table with an opaque `nextToken` cursor. The cursor is base 64 of the UTF-8 bytes of the JSON text of DynamoDB's `LastEvaluatedKey`.
- **Next.js client state.** This covers:
  - the page cache behind the two master-data cards, and the table row maps;
  - the add-recipient and add-staff dialogs;
  - the sign-in, sign-up and confirm-code forms;
  - the client's token store.
- **Authorisation.** This covers the API Gateway Lambda authoriser, the Next.js middleware, and the four `/api/auth/*` routes (`token`, `refresh`, `signin`, `user`).

## How it is modelled

Pure code becomes functions and datatypes. Anything that changes step by step in the source becomes a class. That covers the DynamoDB table, the page cache, each card and dialog, the forms and the token store. Their fields are updated by methods whose `modifies` clauses name the object.

Outside collaborators are parameters:

- The clock, `Math.random` and `uuidv4` are plain values.
- Cognito's `InitiateAuth`/`GetUser`, the JWT verifier, the payload decoder of a token, `calculateAge` and `fetch` are functions or outcome datatypes. Each outcome is either a value or a thrown error's name.

"Cognito is not called" is stated as "the result does not depend on that function".

Module layout:

| module | models |
|---|---|
| `Base64`, `Utf8`, `JsonKey`, `Cursor` | The cursor codec. Encoding and decoding are proved inverse, and a token decodes to the key it was made from. |
| `Table` | A DynamoDB table as a class over a sequence of items. It has `PutItem` (replace by `id`, or append) and `Scan` (`Limit`, `ExclusiveStartKey`, `LastEvaluatedKey`). |
| `Records`, `Listing` | The parts the two repositories share: id and timestamp stamping, and one page of a listing. |
| `CareRecipients`, `Staff` | `packages/core/src/care-recipient/index.ts` and `packages/core/src/staff/index.ts`. |
| `PageCache`, `CareRows` | The page-cache state machine and the item-to-row reduce. Both are shared by the cards. |
| `CareRecipientCard`, `StaffCard`, `ListCareRecipientTable`, `AddCareRecipientButton`, `AddStaffButton` | The master-data components. |
| `Jwt`, `TokenContext` | The expiry check and the client token store. |
| `AuthHttp`, `TokenRoute`, `RefreshRoute`, `SigninRoute`, `UserRoute` | The API routes. |
| `Authorizer`, `Middleware` | The Lambda authoriser and the Next.js middleware. |
| `AuthPage`, `ConfirmCodeForm`, `SignUpForm` | The sign-in page's mode machine and forms. |

Several behaviours of the source are modelled as written and stated as proved properties:

- `getCareRecipients` returns `[]` on any failure.
- The authoriser allows a request when verification throws.
- In the sign-in route, the bare `return` before the 401 response returns nothing.
- `ListCareRecipientTable` keys a submitted row by the server id but stores the client id in it.
- A `limit` is passed to the scan without clamping.
- The refresh route never puts the new token in its body, so the client's `refreshToken` reports success but leaves no token.

## Model

| member | source | states |
|---|---|---|
| Base64.DecodeEncode | packages/core/src/care-recipient/index.ts:147-150 | Decoding the base 64 text of any byte sequence gives those bytes back. |
| Base64.EncodeDecode | packages/core/src/care-recipient/index.ts:109-113 | Only a canonical encoding decodes: the decoded bytes re-encode to the same text. |
| Base64.DecodeIff | packages/core/src/care-recipient/index.ts:109-113 | A text decodes to `bs` if and only if it is the encoding of `bs`. |
| Utf8.DecodeEncode | packages/core/src/care-recipient/index.ts:147-150 | Decoding the UTF-8 bytes of a string gives the string back. |
| JsonKey.ParseStringify | packages/core/src/care-recipient/index.ts:147-150 | `JSON.parse` of `JSON.stringify` of a key object gives back the same properties in the same order. |
| Cursor.EncodeToken | packages/core/src/care-recipient/index.ts:147-150 | A token is never shorter than 4 characters, so it is never empty. |
| Cursor.DecodeToken | packages/core/src/care-recipient/index.ts:109-113 | Base 64, then UTF-8, then `JSON.parse` to a key, with any failing step giving no key. An empty token never decodes to a key. |
| Cursor.DecodeEncodeToken | packages/core/src/care-recipient/index.ts:109-113 | Decoding the token issued for a key gives that key back. |
| Cursor.EncodeTokenInjective | packages/core/src/care-recipient/index.ts:147-150 | Different keys never share a token. |
| Cursor.TokenIsNotFirstMarker | packages/web/src/components/master/CareRecipientCard.tsx:60-63 | No issued token equals the `__FIRST__` marker of the page cache. |
| Table.PositionOf | packages/core/src/care-recipient/index.ts:115-121 | Finds the item with the given id, or proves that no item has it. |
| Table.UniqueKeysIff | packages/core/src/care-recipient/index.ts:54-59 | The item-by-item uniqueness of ids is equivalent to pairwise distinct ids. |
| Table.PositionOfKey | packages/core/src/care-recipient/index.ts:115-121 | In a table with distinct ids, each item's id finds exactly that item. |
| Table.PutRowsKeepsKeys | packages/core/src/care-recipient/index.ts:54-59 | `PutItem` keeps ids distinct and stores the item. The table grows by at most one row. Every row with another id stays. |
| Table.Table.Put | packages/core/src/care-recipient/index.ts:54-59 | The table's rows become the replace-or-append of the item. The table stays well keyed. |
| Table.StartOf | packages/core/src/care-recipient/index.ts:115-121 | Gives the scan's start position, which is within the table. |
| Table.Scan | packages/core/src/care-recipient/index.ts:115-121 | A `Limit` below 1 is a `ValidationException`. A page holds at most `Limit` items. A `LastEvaluatedKey` is returned only for a full page, and it is the key of the page's last item. |
| Records.RecordId | packages/core/src/care-recipient/index.ts:43-45 | The id starts with the prefix, followed by the decimal clock reading, then `_`, then the random suffix. |
| Records.RecordIdInjective | packages/core/src/care-recipient/index.ts:43-45 | Ids with the same prefix are equal only when the clock readings and suffixes are. |
| Records.Stamp | packages/core/src/care-recipient/index.ts:47-52 | The record has the input's keys plus `id`, `createdAt` and `updatedAt`. The generated values override the input. Every other input attribute is kept. |
| Records.Add | packages/core/src/care-recipient/index.ts:38-62 | The returned record is exactly the stamped record that was written. No row with another id is lost. |
| Listing.Project | packages/core/src/care-recipient/index.ts:123-146 | A listed record has exactly the named fields. Each is copied from the item, or is `undefined` when the item lacks it. |
| Listing.TokensRoundTrip | packages/core/src/care-recipient/index.ts:147-150 | The concrete codec's tokens are non-empty and decode to their keys. |
| Listing.StartKey | packages/core/src/care-recipient/index.ts:109-113 | With no token or an empty one, there is no start key. A non-empty token is decoded, and one that does not decode is the `JSON.parse` error. |
| Listing.RequestFor | packages/core/src/care-recipient/index.ts:118-119 | `Limit` is `limit ?? 20`, passed unclamped, and the start key is the decoded token. |
| Listing.ProjectAll | packages/core/src/care-recipient/index.ts:123-146 | The items keep the scan's count. |
| Listing.PageOf | packages/core/src/care-recipient/index.ts:123-150 | Missing `Items` gives `[]`. A `nextToken` is present if and only if the scan returned a `LastEvaluatedKey`. |
| Listing.PageTokenDecodes | packages/core/src/care-recipient/index.ts:147-150 | A page's token decodes to the scan's `LastEvaluatedKey`. |
| Listing.List | packages/core/src/care-recipient/index.ts:105-153 | The result is one of two errors or a page: A malformed token is an error; A limit below 1 is a scan error, not a clamp; Otherwise the page has at most `limit ?? 20` records, each with exactly the named fields. |
| Listing.ListFirstPage | packages/core/src/care-recipient/index.ts:109-121 | Without a token, the page is the first `limit` rows, and it has a token exactly when it is full. |
| Listing.NextTokenResumes | packages/core/src/care-recipient/index.ts:147-150 | A returned token encodes the id of the page's last record. |
| Listing.TokenResumesAfterLast | packages/core/src/care-recipient/index.ts:147-150 | With a codec whose tokens decode to their keys, a returned token decodes to `{id}` of the page's last record. |
| Listing.ProjectAllAppend | packages/core/src/care-recipient/index.ts:123-146 | Projection keeps the scan's order: it maps concatenation to concatenation. |
| Listing.ProjectAllSplit | packages/core/src/care-recipient/index.ts:123-146 | Projecting a run of rows is projecting its first part, then the rest. |
| Listing.ListAt | packages/core/src/care-recipient/index.ts:105-153 | A call resuming after position `s` returns the next `limit` rows and the token for where it stopped. |
| Listing.WalkFull | packages/core/src/care-recipient/index.ts:147-150 | A call that fills its page continues with the token it returns. |
| Listing.WalkLast | packages/core/src/care-recipient/index.ts:147-150 | A call that does not fill its page is the last. |
| Listing.WalkStep | packages/core/src/care-recipient/index.ts:147-150 | A walk from the end of a full page extends to a walk from that page's start. |
| Listing.WalkFrom | packages/core/src/care-recipient/index.ts:105-153 | Following tokens from position `s` returns exactly the rows from `s` on, in order. |
| Listing.WalkVisitsEveryItem | packages/core/src/care-recipient/index.ts:105-153 | Following tokens from the first page returns every row exactly once, in scan order. |
| CareRecipients.FieldNames | packages/core/src/care-recipient/index.ts:123-146 | The copied fields include `id`, `createdAt` and `updatedAt`. |
| CareRecipients.NewId | packages/core/src/care-recipient/index.ts:43-45 | The id starts with `care_`, and the random part is at most 9 characters. |
| CareRecipients.NewIdsDiffer | packages/core/src/care-recipient/index.ts:43-45 | Ids made at different milliseconds differ. |
| CareRecipients.AddCareRecipient | packages/core/src/care-recipient/index.ts:38-62 | The result is every input field plus a `care_` id and `createdAt == updatedAt ==` the clock reading. That very record is written. |
| CareRecipients.GetCareRecipients | packages/core/src/care-recipient/index.ts:65-103 | Any failure gives `[]`. Otherwise the result is at most the first 100 items, projected. |
| CareRecipients.FailureLooksEmpty | packages/core/src/care-recipient/index.ts:100-102 | A failed call cannot be told from an empty table. |
| CareRecipients.LegacyDropsTail | packages/core/src/care-recipient/index.ts:72 | With more than 100 items, 100 are returned and the rest are dropped silently. |
| CareRecipients.ListCareRecipients | packages/core/src/care-recipient/index.ts:105-153 | The contract has four parts: At most `limit ?? 20` records, each with exactly the 20 fields; With a token, a malformed-token error if and only if the token does not decode; Without a token, a limit below 1 is the scan's `ValidationException`; Without a token and with a limit of at least 1, the result is a page. |
| CareRecipients.NextTokenDecodes | packages/core/src/care-recipient/index.ts:147-150 | A returned token is non-empty and decodes to `{id}` of the page's last record. |
| CareRecipients.ListingReturnsAll | packages/core/src/care-recipient/index.ts:105-153 | Paging with the returned tokens lists every care recipient once, in order. |
| Staff.FieldNames | packages/core/src/staff/index.ts:68-78 | The copied fields include `id`, `name`, `createdAt` and `updatedAt`. |
| Staff.NewId | packages/core/src/staff/index.ts:29-31 | The id starts with `staff_`, and the random part is at most 9 characters. |
| Staff.NewIdsDiffer | packages/core/src/staff/index.ts:29-31 | Ids made at different milliseconds differ. |
| Staff.AddStaff | packages/core/src/staff/index.ts:24-48 | The result is every input field plus a `staff_` id and one timestamp. That very record is written. |
| Staff.ListStaff | packages/core/src/staff/index.ts:50-85 | At most `limit ?? 20` records with exactly the 7 fields. A malformed token is an error if and only if it does not decode, and there is no clamping. |
| Staff.NextTokenDecodes | packages/core/src/staff/index.ts:79-82 | A returned token decodes to `{id}` of the page's last record. |
| Staff.ListingReturnsAll | packages/core/src/staff/index.ts:50-85 | Paging with the returned tokens lists every staff member once, in order. |
| PageCache.TokenKey | packages/web/src/components/master/CareRecipientCard.tsx:60-63 | `null` maps to `__FIRST__`, and any token maps to itself. |
| PageCache.IssuedTokenKeyIsNotFirst | packages/web/src/components/master/CareRecipientCard.tsx:60-63 | The key of an issued token never collides with the first page's key. |
| PageCache.Present | packages/web/src/components/master/CareRecipientCard.tsx:103-117 | `filter(Boolean)` keeps exactly the present entries, and all of them when none is missing. |
| PageCache.PageCache.Append | packages/web/src/components/master/CareRecipientCard.tsx:103-117 | When not fetching, with data, and with a new token key, exactly one page is appended, shown and recorded. Otherwise nothing changes. The index stays in bounds. |
| PageCache.PageCache.GoPrev | packages/web/src/components/master/CareRecipientCard.tsx:147-151 | Does nothing while fetching or on the first page. Otherwise the index goes back by one. Pages are untouched. |
| PageCache.PageCache.GoNext | packages/web/src/components/master/CareRecipientCard.tsx:153-162 | Moves to a later cached page. Otherwise it only requests the current page's non-empty `nextToken`. Pages never change. |
| PageCache.PageCache.Reset | packages/web/src/components/master/CareRecipientCard.tsx:213-216 | Clears pages, index, token and last key, and keeps the index invariant. |
| PageCache.PageCache.PrevDisabled | packages/web/src/components/master/StaffCard.tsx:167 | In a valid cache, an enabled Prev button means not fetching and a page before the current one. |
| PageCache.PageCache.NextDisabled | packages/web/src/components/master/StaffCard.tsx:175-179 | Next is enabled exactly when not fetching and the current page exists with a non-empty `nextToken`. |
| PageCache.PageCache.Current | packages/web/src/components/master/CareRecipientCard.tsx:121-122 | The page shown exists exactly when the index is in bounds. |
| CareRows.DisplayName | packages/web/src/components/master/CareRecipientCard.tsx:129 | The name has no surrounding whitespace and is no longer than the two names and a space. |
| CareRows.DisplayNameOfTrimmed | packages/web/src/components/master/CareRecipientCard.tsx:129 | For names without surrounding blanks, the name is `first + " " + last`. |
| CareRows.LastWith | packages/web/src/components/master/CareRecipientCard.tsx:120-144 | Gives the position of the last item with an id, or proves that no item has it. |
| CareRows.RowMap | packages/web/src/components/master/CareRecipientCard.tsx:120-144 | The keys are exactly the non-empty ids, each row's `id` is its key, and each row comes from the last item with that id. |
| CareRecipientCard.CareRecipientCard.ShowCurrentPage | packages/web/src/components/master/CareRecipientCard.tsx:120-144 | The table is the row map of the shown page's items. |
| CareRecipientCard.CareRecipientCard.ToggleExpanded | packages/web/src/components/master/CareRecipientCard.tsx:166-171 | Flips the given id only. |
| CareRecipientCard.CareRecipientCard.HandleSubmit | packages/web/src/components/master/CareRecipientCard.tsx:181-218 | With an `addId` and a returned id, the pages, index, token, last key and expanded rows all reset. Otherwise nothing changes. |
| Common.Toggle | packages/web/src/components/master/CareRecipientCard.tsx:166-171 | The given id's membership flips, and every other id is unchanged. |
| Common.ToggleTwice | packages/web/src/components/master/ListCareRecipientTable.tsx:111-119 | Toggling twice restores the set. |
| StaffCard.StaffCard.AppendPage | packages/web/src/components/master/StaffCard.tsx:51-64 | Appends one page, shows it and records its token key as the last appended only when not fetching, with data and with a new token key. Otherwise pages, index and the recorded key are unchanged, so a second append of the same result is a no-op. The token is never changed. |
| StaffCard.StaffCard.GoPrev | packages/web/src/components/master/StaffCard.tsx:98-102 | Does nothing exactly when the Prev button is disabled, and otherwise goes back one page. Pages, token and the recorded key are unchanged. |
| StaffCard.StaffCard.GoNext | packages/web/src/components/master/StaffCard.tsx:104-113 | While fetching nothing changes. Otherwise it moves to a cached later page with the token kept, or on the last page requests its next token when Next is enabled and changes nothing when it is disabled. Pages and the recorded key never change. |
| StaffCard.StaffCard.HandleSubmit | packages/web/src/components/master/StaffCard.tsx:68-96 | A create that returns an id resets the cache. One without an id changes nothing. |
| StaffCard.StaffCard.CurrentItems | packages/web/src/components/master/StaffCard.tsx:115 | The current page's items, or `[]` when the index names no page. |
| ListCareRecipientTable.SubmittedRow | packages/web/src/components/master/ListCareRecipientTable.tsx:164-182 | The row's `id` is the client `addId` or `''`, and its name is untrimmed `first + " " + last`. |
| ListCareRecipientTable.Merge | packages/web/src/components/master/ListCareRecipientTable.tsx:104-107 | Every earlier row is kept, and only ids in the fetched page are overridden. Keying by id is preserved. |
| ListCareRecipientTable.SubmitBreaksKeying | packages/web/src/components/master/ListCareRecipientTable.tsx:167-168 | When the server id differs from `addId`, the table has a row whose key is not its id. |
| ListCareRecipientTable.SubmittedNameNotTrimmed | packages/web/src/components/master/ListCareRecipientTable.tsx:164-182 | A submitted name keeps a leading space that the loaded name trims. |
| ListCareRecipientTable.ListCareRecipientTable.Load | packages/web/src/components/master/ListCareRecipientTable.tsx:55-108 | Runs only with a client and when not loading. It merges the row map of the fetched items, and keying by id is preserved. |
| ListCareRecipientTable.ListCareRecipientTable.ToggleExpanded | packages/web/src/components/master/ListCareRecipientTable.tsx:111-119 | Flips exactly one id. |
| ListCareRecipientTable.ListCareRecipientTable.HandleSubmit | packages/web/src/components/master/ListCareRecipientTable.tsx:131-183 | Does nothing without a client, while loading, without an `addId`, or when the mutation rejects. Otherwise it inserts exactly one row, keyed by the server id or `''`, and leaves other rows unchanged. |
| AddCareRecipientButton.Initial | packages/web/src/components/master/AddCareRecipientButton.tsx:55-82 | `addId` is null and every field is `''`. |
| AddCareRecipientButton.WithField | packages/web/src/components/master/AddCareRecipientButton.tsx:93-95 | Only the named field changes. Naming `addId` sets the id. |
| AddCareRecipientButton.WithOfferedKeepsSelects | packages/web/src/components/master/AddCareRecipientButton.tsx:226-249 | Choosing an offered option keeps gender, blood type and relation within their option lists. |
| AddCareRecipientButton.AddCareRecipientButton.HandleInputChange | packages/web/src/components/master/AddCareRecipientButton.tsx:93-95 | Sets exactly one field, and keeps the select fields among their options. |
| AddCareRecipientButton.AddCareRecipientButton.HandleSubmit | packages/web/src/components/master/AddCareRecipientButton.tsx:97-103 | Sets `addId` to the new uuid and closes the dialog. The other fields are unchanged, and the form becomes the one submitted. |
| AddCareRecipientButton.AddCareRecipientButton.SetOpen | packages/web/src/components/master/AddCareRecipientButton.tsx:106-110 | Opening a closed dialog resets the form. Any other change keeps it. |
| AddCareRecipientButton.AddCareRecipientButton.Submitted | packages/web/src/components/master/AddCareRecipientButton.tsx:113-118 | The full form is handed to `onSubmit` exactly when `addId` is set. |
| AddStaffButton.UpdateOnly | packages/web/src/components/master/AddStaffButton.tsx:44-46 | `update(key, v)` sets `key` to `v` and leaves every other key unchanged. |
| AddStaffButton.ExecuteAddStaff | packages/web/src/components/master/AddStaffButton.tsx:59-65 | Echoes the input, with id `staff_` plus the clock reading and `createdAt == updatedAt`. |
| AddStaffButton.CreatedIdsDiffer | packages/web/src/components/master/AddStaffButton.tsx:59-65 | Creations at different milliseconds get different ids. |
| AddStaffButton.AddStaffButton.Update | packages/web/src/components/master/AddStaffButton.tsx:44-46 | Changes only `key`, and the qualification stays one of the offered values. |
| AddStaffButton.AddStaffButton.HandleSubmit | packages/web/src/components/master/AddStaffButton.tsx:67-79 | If a required field is empty, nothing changes. Otherwise `addId` becomes the created id and the dialog closes. |
| AddStaffButton.AddStaffButton.SetOpen | packages/web/src/components/master/AddStaffButton.tsx:81-83 | Opening a closed dialog resets the form. |
| AddStaffButton.AddStaffButton.Submitted | packages/web/src/components/master/AddStaffButton.tsx:86-90 | The form is handed to `onSubmit` exactly when `addId` is set. |
| Jwt.SplitDots | packages/web/src/contexts/TokenContext.tsx:38 | The parts contain no dot, there is always at least one, and a dot-free token is a single part. |
| Jwt.JoinSplit | packages/web/src/contexts/TokenContext.tsx:38 | Joining the parts with dots gives back the token. |
| Jwt.IsExpired | packages/web/src/contexts/TokenContext.tsx:36-44 | Expired if and only if `now >= exp * 1000`. A missing segment or an unreadable payload counts as expired, and a payload without a numeric `exp` never expires. |
| Jwt.ExpiredStaysExpired | packages/web/src/contexts/TokenContext.tsx:36-44 | An expired token stays expired as the clock advances. |
| Jwt.NoExpNeverExpires | packages/web/src/contexts/TokenContext.tsx:39-40 | Without a numeric `exp`, the comparison with NaN is false at any time. |
| TokenContext.Seen | packages/web/src/contexts/TokenContext.tsx:75-77 | `ok` means a 2xx status, and the body's `accessToken` is read. |
| TokenContext.RefreshRouteBodyHasNoToken | packages/web/src/app/api/auth/refresh/route.ts:33-51 | A successful refresh answer, as the client sees it, has no `accessToken`. |
| TokenContext.TokenStore.Mount | packages/web/src/contexts/TokenContext.tsx:54-63 | A saved unexpired token is adopted, and a saved expired one is removed from storage. |
| TokenContext.TokenStore.ClearToken | packages/web/src/contexts/TokenContext.tsx:119-122 | The state is null and the entry is removed, whatever the state was before, so the operation is idempotent. |
| TokenContext.TokenStore.SetToken | packages/web/src/contexts/TokenContext.tsx:97-113 | An expired token clears the store. Otherwise the state is the value, stored when non-empty and removed otherwise. A non-empty token in state is always the stored one. |
| TokenContext.TokenStore.RefreshToken | packages/web/src/contexts/TokenContext.tsx:68-89 | Returns true if and only if the response is ok and readable, after `setToken(accessToken)`. Otherwise it clears and returns false. |
| TokenContext.RefreshAgainstRoute | packages/web/src/contexts/TokenContext.tsx:75-78 | Against a successful refresh route, the client reports success yet holds no token. |
| AuthHttp.IssuedAccessToken | packages/web/src/app/api/auth/token/route.ts:53 | The issued token is the result's non-empty `AccessToken`. |
| TokenRoute.Get | packages/web/src/app/api/auth/token/route.ts:24-94 | The contract has four parts: Status 200 if and only if a token is in the body; A valid access cookie is returned as is, with no cookie set; Without a refresh cookie the status is 401; Only a refreshed token is set as the `accessToken` cookie. |
| TokenRoute.ValidAccessSkipsCognito | packages/web/src/app/api/auth/token/route.ts:27-35 | With a valid access cookie, Cognito is not consulted. |
| TokenRoute.RefreshOutcomes | packages/web/src/app/api/auth/token/route.ts:44-93 | The outcome depends on the refresh result: An issued token gives 200 and an `accessToken` cookie (httpOnly, lax, 900 s); No token gives 401; `NotAuthorizedException` gives 401; Any other error gives 500. |
| RefreshRoute.Post | packages/web/src/app/api/auth/refresh/route.ts:11-73 | The body never carries a token. The status is 200 if and only if a cookie is set, which happens only for an issued token, with max age 900. A missing refresh cookie gives 401. |
| RefreshRoute.NoCookieSkipsCognito | packages/web/src/app/api/auth/refresh/route.ts:14-21 | Without a refresh cookie, Cognito is not consulted. |
| RefreshRoute.ErrorStatus | packages/web/src/app/api/auth/refresh/route.ts:58-72 | `NotAuthorizedException` gives 401, and any other error gives 500. |
| RefreshRoute.ReturnedOutcomes | packages/web/src/app/api/auth/refresh/route.ts:31-57 | A call that returns an access token answers 200 and sets exactly that token as the 15-minute httpOnly `lax` `accessToken` cookie. One that returns none answers 401 with no cookie. |
| SigninRoute.Post | packages/web/src/app/api/auth/signin/route.ts:11-84 | The contract has four parts: An unreadable body gives 500; Missing credentials give 400; 200 always carries a non-empty access token; The only cookie ever set is the 7-day httpOnly `refreshToken`. |
| SigninRoute.MissingCredentialsSkipCognito | packages/web/src/app/api/auth/signin/route.ts:15-20 | Without both credentials, Cognito is not consulted. |
| SigninRoute.WrongPasswordReturnsNothing | packages/web/src/app/api/auth/signin/route.ts:64-70 | On `NotAuthorizedException`, the handler returns no response. |
| SigninRoute.UnauthorizedOnlyWithoutToken | packages/web/src/app/api/auth/signin/route.ts:55-60 | 401 comes only from a successful call that issued no access token. |
| SigninRoute.RefreshCookieIffIssued | packages/web/src/app/api/auth/signin/route.ts:33-54 | A call that issues an access token answers 200 with it in the body. The refresh cookie is set if and only if Cognito returned a refresh token, and its value is that token. |
| SigninRoute.FailureStatus | packages/web/src/app/api/auth/signin/route.ts:55-82 | With both credentials: `NotAuthorizedException` returns nothing, `UserNotConfirmedException` gives 400, any other error 500, and a call that issues no access token 401. None sets a cookie. |
| UserRoute.LastKept | packages/web/src/app/api/auth/user/route.ts:68-73 | Gives the last attribute with a non-empty name and value for a name, or proves that there is none. |
| UserRoute.Attributes | packages/web/src/app/api/auth/user/route.ts:68-73 | A name is present if and only if some attribute keeps it, and its value is the last kept one. |
| UserRoute.CollectAttributes | packages/web/src/app/api/auth/user/route.ts:68-73 | The `forEach` loop builds exactly that map. |
| UserRoute.Get | packages/web/src/app/api/auth/user/route.ts:11-94 | No cookie is set. The status is 200 if and only if user info is returned. Without either cookie the status is 401. |
| UserRoute.AccessCookieSkipsRefresh | packages/web/src/app/api/auth/user/route.ts:14-16 | With an access cookie, the refresh is not attempted. |
| UserRoute.RefreshFailureIsUnauthorized | packages/web/src/app/api/auth/user/route.ts:43-57 | A refresh that yields no token, or throws, gives 401. |
| UserRoute.GetUserOutcomes | packages/web/src/app/api/auth/user/route.ts:14-92 | The token `GetUser` gets is the access cookie, or else the token the refresh issued. A returned user answers 200 with its `Username` and the attribute dictionary. A refusal gives 401 and any other error 500. |
| UserRoute.GetUserErrorStatus | packages/web/src/app/api/auth/user/route.ts:82-92 | `NotAuthorizedException` from `GetUser` gives 401, and any other error gives 500, whether the token came from the cookie or from the refresh. |
| Authorizer.AuthHeader | packages/functions/src/authorizer.ts:28-29 | Reads the lowercase header, falling back to `Authorization` when the lowercase one is absent or empty. |
| Authorizer.SuccessContext | packages/functions/src/authorizer.ts:59-66 | `userId` is `sub` or `"undefined"`, email and name default to `""`, and every claim overrides them. |
| Authorizer.Handle | packages/functions/src/authorizer.ts:23-88 | Denied if and only if the header is absent, is not `Bearer `, or has an empty token. An allowed request's context is the claims' context, or the fixed error context when verification throws. |
| Authorizer.EveryBearerTokenIsAllowed | packages/functions/src/authorizer.ts:72-86 | Any `Bearer` header with a non-empty token is allowed, whether or not the token verifies. |
| Authorizer.EmptyTokenIsDenied | packages/functions/src/authorizer.ts:42-47 | A header of exactly `Bearer ` is denied. |
| Authorizer.LowerCaseSchemeIsDenied | packages/functions/src/authorizer.ts:32-37 | The scheme check is case-sensitive. |
| Middleware.Handle | packages/web/src/middleware.ts:44-88 | `/signin` passes. Any other path passes if and only if a non-empty `authToken` cookie verifies, and otherwise redirects to `/signin`. |
| Middleware.PublicPathIgnoresCookies | packages/web/src/middleware.ts:63-66 | A public path passes whatever the cookies and the verifier say. |
| Middleware.OnlyExactSignin | packages/web/src/middleware.ts:34-36 | Only the exact path is public, not its extensions. |
| Middleware.Matches | packages/web/src/middleware.ts:94-96 | A path the middleware runs on starts with `/` and does not start with `/api`, `/_next/static`, `/_next/image` or `/favicon.ico`. |
| Middleware.PrefixExclusion | packages/web/src/middleware.ts:94-96 | The matcher excludes by prefix (`/apiary`), and its `.` matches any character. |
| AuthPage.AuthPage.Rendered | packages/web/src/components/auth/AuthPage.tsx:52-70 | Exactly one form is rendered, chosen by the mode. The sign-in and confirm forms get the pending e-mail. |
| AuthPage.AuthPage.constructor | packages/web/src/components/auth/AuthPage.tsx:16-17 | The page starts in sign-in mode with no pending e-mail. |
| AuthPage.AuthPage.SwitchToSignUp | packages/web/src/components/auth/AuthPage.tsx:19-21 | Changes only the mode. |
| AuthPage.AuthPage.SwitchToSignIn | packages/web/src/components/auth/AuthPage.tsx:23-25 | Changes only the mode. |
| AuthPage.AuthPage.SwitchToConfirm | packages/web/src/components/auth/AuthPage.tsx:27-30 | Remembers the e-mail and shows the confirm form. |
| AuthPage.AuthPage.BackToSignUp | packages/web/src/components/auth/AuthPage.tsx:32-34 | Changes only the mode. |
| AuthPage.AuthPage.ConfirmSuccess | packages/web/src/components/auth/AuthPage.tsx:36-41 | Goes back to sign-in and keeps the pending e-mail. |
| AuthPage.AuthPage.Success | packages/web/src/components/auth/AuthPage.tsx:43-47 | Clears the pending e-mail and keeps the mode. |
| AuthPage.SignUpAndConfirm | packages/web/src/components/auth/AuthPage.tsx:27-57 | Confirming a sign-up shows the sign-in form prefilled with that e-mail. |
| ConfirmCodeForm.DigitsOnly | packages/web/src/components/auth/ConfirmCodeForm.tsx:70-73 | The result is all ASCII digits and no longer than the input. It keeps exactly as many of each digit as the input has. |
| ConfirmCodeForm.DigitsOnlyAppend | packages/web/src/components/auth/ConfirmCodeForm.tsx:70-73 | The filter works piece by piece, so the digits keep their order. |
| ConfirmCodeForm.DigitsOnlyKeepsDigits | packages/web/src/components/auth/ConfirmCodeForm.tsx:70-73 | A string of digits passes unchanged. |
| ConfirmCodeForm.DigitsOnlyIdempotent | packages/web/src/components/auth/ConfirmCodeForm.tsx:70-73 | Filtering twice is filtering once. |
| ConfirmCodeForm.NoLengthCap | packages/web/src/components/auth/ConfirmCodeForm.tsx:70-73 | The filter itself does not cap the length: a 7-digit input stays 7 digits. The cap comes only from the input's `maxLength`. |
| ConfirmCodeForm.ErrorText | packages/web/src/components/auth/ConfirmCodeForm.tsx:49 | The text is the error's message when it is non-empty, and the default otherwise. |
| ConfirmCodeForm.ConfirmCodeForm.HandleCodeChange | packages/web/src/components/auth/ConfirmCodeForm.tsx:70-73 | The code becomes the digits of the input, and the code stays all digits. |
| ConfirmCodeForm.ConfirmCodeForm.SubmitDisabled | packages/web/src/components/auth/ConfirmCodeForm.tsx:122-125 | With the code digits only, an enabled submit button means not loading and a code of exactly six digits. |
| ConfirmCodeForm.ConfirmCodeForm.ControlsHidden | packages/web/src/components/auth/ConfirmCodeForm.tsx:98-136 | The label, input and buttons are hidden once a success message is shown. Both handlers' success paths make it hold. |
| ConfirmCodeForm.ConfirmCodeForm.HandleSubmit | packages/web/src/components/auth/ConfirmCodeForm.tsx:33-53 | Success sets the success text and hides the controls. Failure sets the error text and clears success. Loading ends false either way. |
| ConfirmCodeForm.ConfirmCodeForm.HandleResendCode | packages/web/src/components/auth/ConfirmCodeForm.tsx:55-67 | The error is cleared, the resend outcome sets the success or error text, and resend-loading ends false. |
| SignUpForm.WithField | packages/web/src/components/auth/SignUpForm.tsx:28-34 | Only the named field changes. |
| SignUpForm.Validate | packages/web/src/components/auth/SignUpForm.tsx:42-52 | Passes if and only if the passwords match and have at least 8 UTF-16 units. A mismatch is reported before a short password. |
| SignUpForm.MismatchReportedFirst | packages/web/src/components/auth/SignUpForm.tsx:42-52 | A short mismatched password is reported as a mismatch. |
| SignUpForm.AstralCharactersCountTwice | packages/web/src/components/auth/SignUpForm.tsx:48 | Four characters above U+FFFF pass the 8-unit length check. |
| SignUpForm.SignUpForm.HandleChange | packages/web/src/components/auth/SignUpForm.tsx:28-34 | Rewrites only the named field. |
| SignUpForm.SignUpForm.HandleSubmit | packages/web/src/components/auth/SignUpForm.tsx:36-69 | The outcome has three cases: Invalid input: the error is shown and sign-up is not called; Sign-up succeeds: the fields are cleared and the confirm form gets the submitted e-mail; Sign-up fails: the error is shown; Loading ends false in all three. |

## Left out

- **Network and service calls.** Network, DynamoDB, Cognito and JWT-signature behaviour are out of scope. Their results are parameters, or outcome datatypes holding a value or a thrown error's name.
- **Base 64 and UTF-8 decoding.** The decoders are strict. Node's `Buffer.from(token, "base64")` skips invalid characters and missing padding, and `toString("utf8")` puts U+FFFD in place of bad bytes. A token accepted there may be a malformed-token error in the model. Tokens issued by the list operations decode identically in both.
- **JSON and keys.** The key is a sequence of string-valued attributes. A `JSON.parse` result that is not such an object, such as a number or nested values, is treated as a malformed token. Only a start key that is not of the shape `{id}` is a `ValidationException` in the model. An `{id}` key that names no row starts after the last row, which gives an empty page with no token. A `\u` escape of a surrogate code unit, lone or paired, makes a token malformed in the model. `JSON.parse` accepts a high and low pair such as `\uD83D\uDE00` as one character. Tokens the list operations issue never contain such escapes, because `JSON.stringify` writes characters above U+FFFF as they are.
- **Scan behaviour.** The DynamoDB 1 MB page limit is not modelled, nor a scan that returns fewer than `Limit` items with a `LastEvaluatedKey`. Neither is a service failure of a list call: the model only has the `Limit` validation error. The scan order is taken as given: it is the order of the table's item sequence, where DynamoDB orders a scan by the hash of the partition key. `PutItem` with a new id appends the item at the end of that sequence. No contract depends on where a new item lands.
- **Numbers.** Integers are unbounded. `Date.now()`, a `limit` and `exp` are taken as integers, and floating-point `limit` values and `NaN` comparisons are not modelled. The exception is the missing-`exp` case of `Jwt.IsExpired`.
- **Clock, randomness and age.** `Date.now()`, `new Date().toISOString()`, the base-36 text of `Math.random()`, `uuidv4()` and `calculateAge` are parameters. The shape of the random suffix is not constrained.
- **Cookies.** Cookies are a map from name to value, so duplicate cookie names (the middleware takes the first `authToken`) are not modelled. The `secure` flag, which depends on `NODE_ENV`, is not modelled either.
- **Routes.** The `mfaOptions`, `preferredMfaSetting` and `userMFASettingList` fields of the user route's response are left out. So are credentials that are present but not strings in the sign-in body.
- **Rendering and timing.**
  - JSX, styling and focus handling are not modelled.
  - The two-second `setTimeout` before `onSuccess` in the confirm-code form is not modelled, nor interleavings of concurrent asynchronous handlers.
  - React's batching is taken as each handler's final state.
- **GraphQL plumbing.** The GraphQL queries and mutations that carry the forms to the server are not modelled. The cards' query results are inputs to `Append`/`AppendPage` and `Load`.
- **Other files.** `packages/web/src/lib/auth.ts`, `AuthContext.tsx`, the GraphQL client providers, schema wiring, build scripts and generated types are not part of this model. Neither are `authorizer.handler.ts`, `api.ts` and the sign-out route.
- `Listing.Walk`: paging is bounded by a fuel argument. `Listing.WalkVisitsEveryItem` gives enough fuel for one call per row plus one, so the bound does not cut a listing short.
- `CareRecipients.FieldNames`, `Staff.FieldNames`: these state which fields are present, not their exact count.
- `AddStaffButton.AddStaffButton.Update`: requires that a new qualification is one of the offered values. The source's type and its select allow only those.
- `TokenContext.TokenStore.Mount`: requires the state to hold no token. The effect runs once, at mount, when the state is still `null`.
- `CareRecipientCard.CareRecipientCard.ShowCurrentPage`: builds rows without the emergency-contact fields, as the card's reduce does. The table component's reduce includes them.
