# viperhost core, modelled in Dafny

viperhost is a file-hosting web application. Users upload files and get a short
hex id for each. The dashboard lists, searches and summarises their files.
Users can share a file through a link, which can be password-protected or
expiring for Pro subscribers. A billing webhook and a cancel endpoint keep a
per-user subscription row, and "Pro" means that row's status is `"active"`.
Forgotten passwords are reset through one-hour, single-use tokens.

This project models the rules behind those features:

- The string utilities (`serverUtils.ts`, `utils.ts`).
- The client-side list logic of the uploader, the file list and the dashboard.
- The server route handlers that admit uploads, create share links, report
  entitlement, apply billing events, cancel subscriptions and reset passwords.

The database is a class, `Schema.Database`, with one sequence field per table.
Each route handler is a method whose `modifies` clause names only the tables
that route writes. Its postconditions give the response and the new table
contents for every branch, in the route's own check order.

Everything the code obtains from outside is an input of the model:

- random bytes;
- UUIDs and row ids;
- the current time in milliseconds;
- the bcrypt hash, as an uninterpreted function `string -> string`;
- the billing provider's `current_period_end`;
- whether the reset mail was sent;
- environment variables;
- the outcome of each upload request.

| file | module | models |
|---|---|---|
| base.dfy | `Base` | `Option`, bytes, milliseconds, JavaScript truthiness of an optional string |
| strings.dfy | `Strings` | `toLowerCase` (ASCII), `startsWith`, `includes` |
| seqs.dfy | `Seqs` | `filter`, `findFirst`-style lookups |
| server_utils.dfy | `ServerUtils` | `getFileExtension` (Node's POSIX `extname` in full), `sanitizeFilename`, `isValidFileType` |
| file_ids.dfy | `FileIds` | the hex encoding of `generateFileId` and its decoder |
| schema.dfy | `Schema` | records, responses, sessions, lookups, the `Database` class |
| file_list.dfy | `FileList` | the search filter and `getFileIcon` |
| file_uploader.dfy | `FileUploader` | `onDrop`, `removeFile` and the `uploadFiles` loop (class `Uploader`) |
| dashboard.dfy | `Dashboard` | storage sum, limits, type histogram, popular files |
| upload_route.dfy | `UploadRoute` | `POST /api/upload` |
| share_route.dfy | `ShareRoute` | `POST /api/files/share` |
| files_me_route.dfy | `FilesMeRoute` | `GET /api/files/me` |
| stripe_webhook.dfy | `StripeWebhook` | `POST /api/webhooks/stripe` |
| cancel_subscription.dfy | `CancelSubscription` | `POST /api/subscription/cancel` |
| forgot_password.dfy | `ForgotPassword` | `POST /api/auth/forgot-password` |
| reset_password.dfy | `ResetPassword` | `POST /api/auth/reset-password` |

## Model

| member | source | states |
|---|---|---|
| ServerUtils.ExtName | src/lib/serverUtils.ts:14 | `extname` is a proper suffix of the path's last segment that starts at that segment's last "." and contains no other "." and no "/". It is "" exactly when the segment is empty, is "..", or has no "." after its first character |
| ServerUtils.GetFileExtension | src/lib/serverUtils.ts:13-15 | the extension is "" or starts with ".", is lowercase, has no other "." and no "/" |
| ServerUtils.ExtensionIsLastDotSuffix | src/lib/serverUtils.ts:13-15 | for `stem + "." + tail` with no "." in `tail`, the extension is "." followed by `tail` lowercased |
| ServerUtils.NoDotNoExtension | src/lib/serverUtils.ts:13-15 | a name without "." has extension "" |
| ServerUtils.DotFileHasNoExtension | src/lib/serverUtils.ts:13-15 | a dotfile such as ".env" has extension "" |
| ServerUtils.CompoundExtensionKeepsLastPart | src/lib/serverUtils.ts:14 | for `stem.inner.tail` only the last suffix counts: "a.tar.GZ" gives ".gz" |
| ServerUtils.ReplaceReserved | src/lib/serverUtils.ts:19 | each of / \ ? % * : \| " < > becomes "-", and every other character is kept in place |
| ServerUtils.CollapseWhitespace | src/lib/serverUtils.ts:20 | the result has no whitespace, is no longer than the input, and holds only "-" or input characters |
| ServerUtils.WhitespaceRunBecomesOneDash | src/lib/serverUtils.ts:20 | a maximal whitespace run becomes exactly one "-" |
| ServerUtils.SanitizeFilename | src/lib/serverUtils.ts:17-22 | the output has no reserved character and no whitespace, is lowercase, and is no longer than the input |
| ServerUtils.SanitizeIdempotent | src/lib/serverUtils.ts:17-22 | sanitising twice gives the same result as sanitising once |
| ServerUtils.IsValidFileType | src/lib/serverUtils.ts:24-30 | a name is accepted only if some allowed entry has the shape of an extension |
| ServerUtils.OnlyWellFormedEntriesMatter | src/lib/serverUtils.ts:24-30 | removing entries without a leading ".", with upper case, or with several dots never changes the verdict |
| ServerUtils.AcceptedByLastSuffix | src/lib/serverUtils.ts:24-30 | `stem.tail` is accepted iff "." + lowercased `tail` is in the list |
| FileIds.ToHex | src/lib/utils.ts:39 | `toString(16)` gives lowercase hex digits, one digit exactly for values below 16 |
| FileIds.ByteToHex | src/lib/utils.ts:39 | two characters, high nibble first; a byte below 16 starts with "0" |
| FileIds.ByteToHexExamples | src/lib/utils.ts:39 | 10 encodes as "0a" and 255 as "ff" |
| FileIds.Encode | src/lib/utils.ts:38-40 | the output has two hex characters per byte, and the i-th pair encodes the i-th byte |
| FileIds.GenerateFileId | src/lib/utils.ts:30-41 | the id is 8 lowercase hex characters, and pair i encodes random byte i |
| FileIds.DecodeEncode | src/lib/utils.ts:38-40 | decoding an encoding gives back the original bytes |
| FileIds.DecodePair | src/lib/utils.ts:39 | the two digits of a byte decode back to that byte |
| FileIds.EncodeInjective | src/lib/utils.ts:38-40 | different byte arrays give different ids |
| Strings.ContainsAt | src/components/dashboard/FileList.tsx:56 | `includes` holds iff the term occurs at some position |
| Strings.ToLowerAppend | src/lib/serverUtils.ts:14 | lowercasing distributes over concatenation |
| FileList.FilteredFiles | src/components/dashboard/FileList.tsx:55-57 | a file is shown iff it is in the list and its lowercased name contains the lowercased term; the result is never longer than the list |
| FileList.FilteredFilesKeepOrder | src/components/dashboard/FileList.tsx:55-57 | the shown files are a subsequence of the list |
| FileList.EmptySearchShowsAll | src/components/dashboard/FileList.tsx:55-57 | an empty term shows every file, in order |
| FileList.SearchIgnoresCase | src/components/dashboard/FileList.tsx:55-57 | a term and its lowercase form show the same files |
| FileList.GetFileIcon | src/components/dashboard/FileList.tsx:93-104 | the image icon exactly for types starting with "image/". The folder icon only when neither the image prefix nor "pdf", "zip" or "compressed" applies. The full order is pinned by IconOfFirstPassingRule |
| FileList.IconOfFirstPassingRule | src/components/dashboard/FileList.tsx:93-104 | the icon is the one of the first rule, in source order, that the type passes |
| FileList.FolderIconWhenNoRulePasses | src/components/dashboard/FileList.tsx:103 | a type that passes no rule gets the folder icon |
| FileList.ImagePrefixBeatsPdf | src/components/dashboard/FileList.tsx:94-97 | "image/pdf" gets the image icon |
| FileList.DocumentBeatsSpreadsheet | src/components/dashboard/FileList.tsx:97-99 | a type containing both "document" and "spreadsheet" gets the document icon |
| FileUploader.MaxSize | src/components/dashboard/FileUploader.tsx:26 | the limit is 2 GiB for Pro and 100 MiB otherwise |
| FileUploader.ValidFiles | src/components/dashboard/FileUploader.tsx:28 | a file is valid iff it is dropped and has size <= limit |
| FileUploader.InvalidFiles | src/components/dashboard/FileUploader.tsx:29 | a file is invalid iff it is dropped and has size > limit |
| FileUploader.DropPartitions | src/components/dashboard/FileUploader.tsx:28-29 | valid and invalid files together are exactly the dropped files, and each list keeps the drop order |
| FileUploader.LimitIsInclusive | src/components/dashboard/FileUploader.tsx:28 | a file of exactly the limit is accepted; one byte more is refused |
| FileUploader.AfterDrop | src/components/dashboard/FileUploader.tsx:39 | the old selection is kept as a prefix and followed by exactly the drop's valid files, in drop order |
| FileUploader.Uploader.Drop | src/components/dashboard/FileUploader.tsx:23-42 | appends the valid files to the selection and reports how many were refused |
| FileUploader.RemoveAt | src/components/dashboard/FileUploader.tsx:46-48 | one file fewer for an index in range, the same length otherwise. The contents are pinned by RemoveAtDeletesOne |
| FileUploader.RemoveAtDeletesOne | src/components/dashboard/FileUploader.tsx:46-48 | removes exactly index i and keeps the rest in order; an out-of-range index changes nothing |
| FileUploader.Uploader.Remove | src/components/dashboard/FileUploader.tsx:46-48 | the selection loses exactly the element at the index |
| FileUploader.FirstFailure | src/components/dashboard/FileUploader.tsx:78-91 | the position of the first request without a 2xx status; all before it succeeded |
| FileUploader.FirstFailureAt | src/components/dashboard/FileUploader.tsx:59-96 | a position k is the first failure iff every earlier request succeeded and request k did not |
| FileUploader.Forms | src/components/dashboard/FileUploader.tsx:61-63 | one form per file, in order, each carrying the user id |
| FileUploader.Uploader.UploadFiles | src/components/dashboard/FileUploader.tsx:50-115 | an empty selection does nothing. Otherwise files are posted in order up to and including the first failure. Only a full success clears the selection, and `uploading` ends false |
| FileUploader.UploadThenDrop | src/components/dashboard/FileUploader.tsx:103 | after a full upload, the next drop starts from an empty selection |
| Dashboard.StorageUsed | src/app/dashboard/page.tsx:57-60 | no files use nothing, one file uses its own size, and every file's size is within the total. With StorageUsedAppend this makes the value the sum of all sizes |
| Dashboard.StorageUsedAppend | src/app/dashboard/page.tsx:57-60 | storage used is additive over concatenation |
| Dashboard.StorageLimit | src/app/dashboard/page.tsx:64-66 | 50 GiB for Pro and 5 GiB otherwise |
| Dashboard.BandwidthLimit | src/app/dashboard/page.tsx:71-73 | 200 GiB for Pro and 20 GiB otherwise |
| Dashboard.TypeKey | src/app/dashboard/page.tsx:110 | the key is non-empty with no "/". It is "other" when the type is empty or starts with "/". Otherwise it is the text before the first "/", or the whole type when there is no "/" |
| Dashboard.DistinctTypes | src/app/dashboard/page.tsx:107-112 | the keys are pairwise distinct and every file's key appears |
| Dashboard.DistinctTypesComeFromFiles | src/app/dashboard/page.tsx:107-112 | every key is some file's key |
| Dashboard.CountMapDomain | src/app/dashboard/page.tsx:109-112 | the dictionary has a key exactly for each distinct type |
| Dashboard.CountMapCounts | src/app/dashboard/page.tsx:109-112 | each key maps to the number of files of that type |
| Dashboard.CountMapGivesEntries | src/app/dashboard/page.tsx:114-124 | the dictionary is empty exactly when there are no files; its entries are the per-type counts in first-appearance order |
| Dashboard.OccurrencesOfDistinctType | src/app/dashboard/page.tsx:109-111 | every listed key counts at least one file |
| Dashboard.CountsAddUpToFileCount | src/app/dashboard/page.tsx:107-124 | the per-key counts sum to the number of files |
| Dashboard.GenerateFileTypeDistribution | src/app/dashboard/page.tsx:106-125 | no files gives the five zero bars image, video, audio, document, other. Otherwise there is one bar per distinct key, valued by that key's file count |
| Dashboard.Truncate | src/app/dashboard/page.tsx:150 | at most 20 characters; a name is unchanged iff it has at most 20 characters, otherwise it becomes 17 characters + "..." |
| Dashboard.GeneratePopularFiles | src/app/dashboard/page.tsx:147-154 | the truncated names of the first min(5, n) files, in order |
| Dashboard.SumOfValuesIsSumCounts | src/app/dashboard/page.tsx:124 | the histogram's values sum to the per-key counts |
| Dashboard.BuildAnalytics | src/app/dashboard/page.tsx:62-74 | counts, limits and storage as above. No files gives the five zero bars. Otherwise bar i names the i-th distinct key with its file count, the bars sum to the file count, and each is at least 1 |
| Schema.SessionUserId | src/app/api/files/share/route.ts:13-20 | the session user's id exactly when the session and the user are present and the `id` key holds a non-empty string; an absent or `undefined` id gives none |
| Schema.TokenByValue | src/app/api/auth/reset-password/route.ts:10-14 | a token row with that value, or none exactly when no row has it |
| Schema.SubscriptionOfActiveIffHasActive | src/app/api/upload/route.ts:38 | with one row per user, "the user's row is active" and "an active row exists" agree |
| UploadRoute.MaxSize | src/app/api/upload/route.ts:40 | 2 GiB for Pro and 100 MiB otherwise |
| UploadRoute.ServerLimitIsClientLimit | src/app/api/upload/route.ts:40-47 | the server's limit equals the drop zone's for both tiers |
| UploadRoute.UploadIsPro | src/app/api/upload/route.ts:38 | the route treats a user as Pro only when an active subscription row exists for them |
| UploadRoute.StoredFilename | src/app/api/upload/route.ts:49-57 | the stored name starts with the 8-character file id and contains no "/", so the client's name cannot choose the directory |
| UploadRoute.StoragePath | src/app/api/upload/route.ts:54-58 | "uploads/", then the user's uuid, "/", then the stored name |
| UploadRoute.FileUrl | src/app/api/upload/route.ts:63 | the base URL, "/", then the stored name |
| UploadRoute.RawUrl | src/app/api/upload/route.ts:64 | the base URL, "/", the user's uuid, "/", then the stored name |
| UploadRoute.StoredFilenameKeepsExtension | src/app/api/upload/route.ts:49-57 | the stored name has the same (lowercase) extension as the original |
| UploadRoute.StoredFilenamesDiffer | src/app/api/upload/route.ts:49-57 | different random bytes give different stored names |
| UploadRoute.NewRecord | src/app/api/upload/route.ts:63-76 | the record keeps the original name, size, type and user. `url` is base/filename and `rawUrl` is base/uuid/filename |
| UploadRoute.Post | src/app/api/upload/route.ts:12-93 | in order: a missing field gives 400, an unknown user 404, over the limit 400 with "File size exceeds the limit (2GB)" or "(100MB)" by tier, and nothing is written in those cases. Otherwise one blob is written at uploads/uuid/filename, one record is appended, and the response is 201 |
| ShareRoute.FileById | src/app/api/files/share/route.ts:24-32 | the file with that id, or none exactly when no file has it |
| ShareRoute.BaseUrl | src/app/api/files/share/route.ts:71 | the configured URL when it is non-empty, else "http://localhost:3000" |
| ShareRoute.NewLink | src/app/api/files/share/route.ts:54-69 | the password is stored only when given, and only as its hash; the expiry is stored as given, and null when absent |
| ShareRoute.FreeLinksArePlain | src/app/api/files/share/route.ts:47-69 | a link without Pro features has no password and no expiry |
| ShareRoute.ShareUrl | src/app/api/files/share/route.ts:71-72 | the base URL followed by "/share/" and the share id |
| ShareRoute.ShareUrlEndsWithShareId | src/app/api/files/share/route.ts:71-72 | the share URL ends with the 8-character share id |
| ShareRoute.Post | src/app/api/files/share/route.ts:9-89 | in order: no session user gives 401, an unknown file 404, another user's file 403, and Pro features without Pro 403. Otherwise exactly one link is appended and the response is 201 with the share URL; a link is only created for the owner's file |
| FilesMeRoute.InsertKeepsNewestFirst | src/app/api/files/me/route.ts:19 | inserting into a newest-first list keeps it newest first |
| FilesMeRoute.SortNewestFirst | src/app/api/files/me/route.ts:19 | the sort is a permutation of its input |
| FilesMeRoute.SortIsNewestFirst | src/app/api/files/me/route.ts:19 | the sort's output is ordered by `createdAt`, newest first |
| FilesMeRoute.FilesOf | src/app/api/files/me/route.ts:17-20 | exactly the files whose owner is the user |
| FilesMeRoute.Get | src/app/api/files/me/route.ts:6-30 | 401 iff there is no session user. Otherwise 200 with exactly the user's files, newest first, and `isPro` iff there is an active subscription or the admin flag is set |
| FilesMeRoute.AdminWithoutSubscriptionGetsFreeUploadLimit | src/app/api/files/me/route.ts:28 | an admin without a subscription is Pro on the dashboard but gets the free limit at upload, which is below the drop zone's Pro limit |
| FilesMeRoute.DashboardIsPro | src/app/api/files/me/route.ts:28 | when no user is an admin, the dashboard shows Pro exactly when the user has an active subscription |
| FilesMeRoute.TiersAgreeForNonAdmins | src/app/api/files/me/route.ts:22-28 | for non-admins the dashboard tier and the upload tier agree |
| StripeWebhook.SecondsToMillis | src/app/api/webhooks/stripe/route.ts:51 | provider seconds × 1000, a whole number of seconds in milliseconds |
| StripeWebhook.RowOf | src/app/api/webhooks/stripe/route.ts:42-45 | the index of the user's first row, or the table length exactly when the user has none |
| StripeWebhook.UpsertActive | src/app/api/webhooks/stripe/route.ts:42-61 | existing rows keep their ids and users. At most one row is added: the user's, active, with the new id and no cancellation date. An existing row of the user keeps its cancellation date |
| StripeWebhook.UpsertLeavesOneActiveRow | src/app/api/webhooks/stripe/route.ts:42-61 | the table stays one row per user and the user's row is active with the new customer, subscription, price and period end. Other users' rows are unchanged, and the table grows only when the user had no row |
| StripeWebhook.InvoiceSubscriptionId | src/app/api/webhooks/stripe/route.ts:72 | no invoice lines means no subscription id. Otherwise the id is the first line's subscription, which may itself be absent |
| StripeWebhook.RenewFirst | src/app/api/webhooks/stripe/route.ts:81-96 | same length; no row changes its id or user |
| StripeWebhook.RenewalTouchesOnlyFirstMatch | src/app/api/webhooks/stripe/route.ts:81-106 | only the first matching row becomes active with the new period end; with no match nothing changes; one row per user is kept |
| StripeWebhook.CancelMatching | src/app/api/webhooks/stripe/route.ts:122-132 | every row with that subscription id is canceled, with `canceledAt` and the period end both now; every other row is unchanged |
| StripeWebhook.DeletionRevokesPro | src/app/api/webhooks/stripe/route.ts:122-132 | a user whose row carried the id loses Pro at once |
| StripeWebhook.Post | src/app/api/webhooks/stripe/route.ts:8-150 | a bad signature gives 400, and a checkout without a user id gives 500; neither changes anything. Checkout upserts, invoice renews the first match or does nothing, deletion cancels all matches, other events change nothing; all answer 200. One row per user is preserved |
| CancelSubscription.CancelSessionUserId | src/app/api/subscription/cancel/route.ts:12-16 | the guard passes exactly when the `id` key is present, whatever it holds. An `undefined` id becomes a filter matching every user. A string id, "" included, filters on that user, and is the same id the other routes accept when it is non-empty |
| CancelSubscription.CancelRow | src/app/api/subscription/cancel/route.ts:18-22 | the row `findFirst` returns is the first row of its own user. A user filter gives that user's first row; the match-all filter gives row 0, found unless the table is empty |
| CancelSubscription.UndefinedIdReachesFirstRow | src/app/api/subscription/cancel/route.ts:12-22 | a session whose `id` key holds `undefined` is refused by the other routes but passes this guard, and the lookup reaches the table's first row whoever owns it |
| CancelSubscription.EmptyIdPassesCancelGuard | src/app/api/subscription/cancel/route.ts:12-16 | an empty id passes this guard but fails the other routes' guard |
| CancelSubscription.MarkCanceledAtPeriodEnd | src/app/api/subscription/cancel/route.ts:42-51 | the found row stays active with `canceledAt` now and the provider's period end; every other row is unchanged |
| CancelSubscription.CancelKeepsProUntilPeriodEnd | src/app/api/subscription/cancel/route.ts:42-51 | after cancelling, the user still has an active subscription; one row per user is kept |
| CancelSubscription.Post | src/app/api/subscription/cancel/route.ts:8-71 | 401 when there is no id key. 404 when the row found by the lookup, whatever its status, is missing or has no subscription id, and nothing changes. For an `undefined` id that row is the table's first, possibly another user's. Otherwise the provider cancels that id at period end, only that row is updated, and the response is 200 with the route's fixed success message |
| ForgotPassword.IssuedTokenLastsOneHour | src/app/api/auth/forgot-password/route.ts:25-31 | a token issued at t is accepted up to and including t + 3 600 000 ms |
| ForgotPassword.Post | src/app/api/auth/forgot-password/route.ts:7-48 | an unknown email gets the same 200 answer with no token and no mail. A known email, matched exactly, gets one token with expiry now + one hour and one mail. A mail failure answers 500 and keeps the token |
| ResetPassword.SetPassword | src/app/api/auth/reset-password/route.ts:35-42 | only the user with that id gets the new hash, and ids and emails are unchanged |
| ResetPassword.SetPasswordChangesOnlyThatUser | src/app/api/auth/reset-password/route.ts:35-42 | ids and emails stay unique; the user's row differs only in its password |
| ResetPassword.DeleteToken | src/app/api/auth/reset-password/route.ts:44-48 | the table shrinks by one row exactly when some row carries the token |
| ResetPassword.DeletedTokenIsGone | src/app/api/auth/reset-password/route.ts:44-48 | the token is gone, the rest are kept, and tokens stay unique |
| ResetPassword.Post | src/app/api/auth/reset-password/route.ts:6-63 | an unknown or expired token (expiry < now) gives 400, and an identifier without a user gives 404; nothing changes in either case. Otherwise the password is updated first, then the token is deleted, and the response is 200 |
| ResetPassword.ResetTwice | src/app/api/auth/reset-password/route.ts:16-21 | after a successful reset, the same token is refused with 400 |

## Left out

- CancelSubscription.CancelRow: a `findFirst` without `orderBy` returns whichever row the database yields first. The model takes the first row in table order.
- Strings.ToLower: lowercases ASCII letters only. JavaScript's `toLowerCase` also maps non-ASCII capitals and a few characters that expand, so the model differs on non-ASCII names and terms.
- Lengths count characters, not the UTF-16 code units JavaScript counts. `Dashboard.Truncate` therefore differs on names with characters outside the Basic Multilingual Plane.
- Dashboard.GenerateFileTypeDistribution: lists keys in order of first appearance. `Object.entries` puts integer-like keys such as "1" first, in ascending order. A key of "__proto__" behaves specially on a plain object. A key that names an inherited member of `Object.prototype`, such as "constructor", "toString" or "valueOf", makes `typeCount[type] || 0` read that function, so `+ 1` yields a string rather than a count. The model gives such a key the count 1. None of these is modelled.
- `generateActivityData` and the random views and downloads of popular files depend on the clock and randomness and are left out. The model keeps the popular files' names only.
- `formatBytes`, the storage percentage and upload progress use floating point and are left out. So are the toasts and the `onUploadComplete` callback.
- UploadRoute.StoragePath: a plain concatenation. It does not apply `path.join`'s normalisation of empty or ".." segments, or the `process.cwd()` prefix.
- `ensureDirectoryExists` and `saveFile` are reduced to an update of the `UploadRoute.Disk` map. Disk errors are not modelled.
- Thrown exceptions that reach a route's `catch` and answer 500 are modelled only in three places: a checkout without a user id, a failed reset mail, and a clashing reset token. Database, disk and provider failures elsewhere are not modelled.
- ShareRoute.Post: the expiry arrives already parsed to milliseconds. Parsing the date string, and invalid dates, are not modelled.
- The billing provider's `retrieve` and `update` calls are inputs or outputs: the period end is a parameter, and the cancel call is returned as the subscription id. Their failures are not modelled.
- Signature verification is reduced to whether an event was obtained. The provider's event payloads are reduced to the fields the handler reads.
- The uniqueness of file ids, share ids and subscription row ids is not part of `Schema.Database.Valid`. Uniqueness of user ids, emails, tokens and one subscription row per user is.
- Concurrent requests are not modelled; each handler runs alone on the tables. The uploader's asynchronous requests are a sequence of per-request outcomes.
- Ties in `createdAt` may come back from the database in any order. `FilesMeRoute.SortNewestFirst` fixes one order, and only the newest-first property and the file set are promised.
- Session retrieval (`getServerSession`), the authentication configuration, logging and the mail transport are not part of this model. The session and the mail outcome are inputs.
