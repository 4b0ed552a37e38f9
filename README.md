# File-sharing dashboard: the access decision and its data, in Dafny

This project models the core of a Next.js file-sharing dashboard. Registered
users upload files and images. Each user keeps an access policy: an
allow-list of client addresses and an optional authorization key. A
middleware consults the access route before it serves a stored upload. On
top of that model it proves what the routes and components promise.

Modules, one per core source file plus four shared ones; `UserStore` covers the two user routes, register and settings:

| module | models |
|---|---|
| `FileAccess` | `GET /api/file-access`: the ordered guards that give 400, 404, 403, 401, 200 or 500 |
| `Middleware` | the path matcher, the path classes, what is forwarded to the access route, how its answer becomes a response |
| `IpUtils` | `normalizeIP`, with the `ip-address` library as a parameter |
| `UserStore` | the `users` collection as a class, `POST /api/register`, `GET`/`POST /api/user/settings` |
| `SettingsPage` | the security form: schema, list formatting and parsing, the displayed API key |
| `FilesApi` | `GET /api/files` paging and `POST /api/files`, with `path.join` |
| `ImagesApi` | `GET /api/images` and `POST /api/images` |
| `FileList` | the file table's state: page count, fetch, delete, page buttons |
| `ImageGrid` | the gallery's state: viewer, rename, delete |
| `ImageUpload` | the upload form's name editing and submit guard |
| `Wrappers`, `Records`, `JsStrings`, `Collections` | `Option`; the stored documents and the session; JavaScript `split`/`join`/`pop`/`trim`/`startsWith`; `filter`, replace-by-id, newest-first sort, `skip`/`limit` |

## How foreign calls are modelled

- Libraries the code calls but does not define are function-valued parameters:
  - `ObjectId.isValid` and `new ObjectId` (`FileAccess.Foreign`);
  - `decodeURIComponent`, which may throw (`FileAccess.Foreign`);
  - `Address6`/`Address4` construction, `isValid` and `correctForm` (`IpUtils.AddressParser`);
  - `bcrypt.hash` (`hash`);
  - the middleware's internal `fetch` (`fetch`).
- `getToken` is a boolean.
- `getServerSession` is `Records.Session`: no session (or no `user`), or a `user` with an optional email.
- A MongoDB collection is a sequence in store order, or for `users`, a map keyed by email.
- `findOne` returns the first match.
- A store call that throws is an explicit parameter:
  - `FileAccess.Outage` says which await of the access route throws;
  - `Records.StoreOutcome` says which step of an upload throws.
- The answers of the routes a component calls are parameters of its methods. Where the route is part of the model, the method calls the model of that route: `FileList.FileListView.FetchFiles` calls `FilesApi.ListFiles`, and `ImageGrid.ImageGridView.FetchImages` calls `ImagesApi.ListImages`.

## States as modelled

- Code that updates things in place is a class with `modifies` clauses, and every method states its whole new state:
  - the `users`, `files` and `images` collections;
  - the settings form;
  - the React state of the file table, the gallery and the upload form.
- The rest is functions and lemmas.

## Behaviour of the code that a reader might not expect

- The access route compares the decoded client address with the allow-list entries as exact strings.
  - It has no CIDR matching.
  - `normalizeIP` is not called anywhere in this revision. `IpUtils` models it on its own.
- Nothing lets a signed-in owner skip the check on a file path (`Middleware.NoOwnerBypass`).
- A missing key and a wrong key give the same 401 `Invalid Authorization Key` (`FileAccess.KeyGate`).
- A file whose owner has no account gives 404 `User not found` (`FileAccess.DanglingOwnerDenied`).
- The matcher excludes every path starting with `/api`. So of the two file-path prefixes only `/uploads` reaches the access check (`Middleware.OnlyUploadsChecked`).
- `normalizeIP` is not idempotent. The `correctForm` of section 4 of RFC 5952 turns `0:0:0:0:0:0:0:1` into `::1`, and a second call turns that into `localhost` (`IpUtils.NotIdempotentOnLongLoopback`).
- Among lists of comma-free, trimmed entries, the settings form's round trip fails for only one, `[""]`: it shows as empty text and comes back as `[]` (`SettingsPage.SingletonEmptyIsLost`). Lists with commas or surrounding whitespace in an entry do not survive either.
- The page buttons keep `1 <= currentPage <= totalPages` only if it already held. A fetch can lower `totalPages` below the current page, and the code does not clamp the page.
- Renaming an image whose name has no `.`, without typing a new name, asks for `"." + name` (`ImageGrid.UndottedNameGainsDot`).

## Model

| member | source | states |
|---|---|---|
| Records.SignedInEmail | src/app/api/files/route.ts:61-64 | a session counts as signed in exactly when it has a user with a non-empty email, and that email is returned |
| JsStrings.Split | src/middleware.ts:22 | `split` never yields an empty array and no piece contains the separator |
| JsStrings.Join | src/app/dashboard/settings/page.tsx:54 | `join` of no pieces is empty; otherwise it starts with the first piece |
| JsStrings.JoinLength | src/app/dashboard/settings/page.tsx:54 | `join` is as long as all pieces plus one separator between each pair |
| JsStrings.LastSegment | src/middleware.ts:22 | `split(c).pop()` is free of `c` and ends the string; it is the whole string when `c` does not occur, and otherwise directly follows a `c` |
| JsStrings.Stem | src/components/image-grid.tsx:119 | the text before the last `c`: with `c` and the last segment it rebuilds the string, and it is empty when `c` does not occur |
| JsStrings.Trim | src/app/dashboard/settings/page.tsx:74 | the trimmed text is a contiguous part of the input, neither starting nor ending with ECMAScript whitespace, with only whitespace cut off before and after it |
| JsStrings.KeepExtension | src/components/image-grid.tsx:39-40 | `${name}.${from.split('.').pop()}` has stem `name` and the extension of `from` |
| JsStrings.AppendSegment | src/components/image-upload.tsx:61-62 | appending `.` and a `.`-free tail makes that tail the last segment and leaves the stem as it was |
| JsStrings.SplitJoin | src/app/dashboard/settings/page.tsx:54-74 | joining at least one separator-free piece and splitting again gives the pieces back |
| JsStrings.JoinSplit | src/middleware.ts:22 | joining the pieces of a split with the separator gives the string back |
| Collections.Filter | src/app/api/files/route.ts:76 | the filter is no longer than its input and keeps only elements satisfying the predicate |
| Collections.FilterConcat | src/app/api/files/route.ts:76 | filtering preserves the order of what it keeps |
| Collections.FilterMultiplicity | src/app/api/images/route.ts:19 | filtering keeps each matching element as often as it occurs and drops every other |
| Collections.ReplaceWhere | src/components/image-grid.tsx:52 | the map by id keeps the length and replaces exactly the positions with that id |
| Collections.RemoveWhere | src/components/file-list.tsx:146 | the filter by id leaves no element with that id |
| Collections.RemoveWhereMultiplicity | src/components/image-grid.tsx:77 | removing by id keeps every other element as often as it occurs and drops the id entirely |
| Collections.RemoveWhereConcat | src/components/file-list.tsx:146 | removing by id keeps the remaining elements in order |
| Collections.NewestFirst | src/app/api/files/route.ts:77 | `sort({ uploadedAt: -1 })` is a permutation in descending timestamp order |
| Collections.InsertNewest | src/app/api/images/route.ts:20 | inserting adds exactly that element to the multiset of elements |
| Collections.InsertNewestKeepsOrder | src/app/api/images/route.ts:20 | inserting into a newest-first sequence keeps it newest first |
| Collections.Window | src/app/api/files/route.ts:78-79 | `skip(n).limit(m)` is the run starting at `n`, empty past the end, of length `min(rest, m)` (all the rest for 0, `abs(m)` for negative `m`) |
| FileAccess.Status | src/app/api/file-access/route.ts:12-68 | 200 exactly for a grant, 500 exactly for a thrown error, 400 exactly for the two missing parameters, 404 exactly for a missing file or owner |
| FileAccess.FirstMatch | src/app/api/file-access/route.ts:27-35 | no position iff no document matches, else the first matching position |
| FileAccess.FindFile | src/app/api/file-access/route.ts:27-35 | no document iff none matches, else a stored document that matches by `_id` or `filename` |
| FileAccess.LookupIsFirstMatch | src/app/api/file-access/route.ts:27-35 | the file found is the first in store order matching by `_id` (valid ObjectIds only) or `filename` |
| FileAccess.InvalidIdMatchesByName | src/app/api/file-access/route.ts:29-32 | an identifier that is not a valid ObjectId finds only a file of that filename |
| FileAccess.Decide | src/app/api/file-access/route.ts:5-70 | 400 for a falsy identifier before anything else, then 400 for a falsy address; 500 when `decodeURIComponent` throws; a grant exactly when nothing throws, the file and its owner exist, the address is allowed and the key accepted |
| FileAccess.ListedAddressesRestrict | src/app/api/file-access/route.ts:48-52 | a non-empty allow-list refuses some address, so only an absent or empty one is unrestricted |
| FileAccess.NoFileNoUserLookup | src/app/api/file-access/route.ts:35-41 | with no matching file the answer is 404 whatever the users collection holds, even when querying it would throw |
| FileAccess.DanglingOwnerDenied | src/app/api/file-access/route.ts:41-45 | a file whose owner has no account gives 404 `User not found` |
| FileAccess.IpAllowListGate | src/app/api/file-access/route.ts:47-52 | once the owner is found, the answer is 403 exactly when the decoded address is not allowed |
| FileAccess.KeyGate | src/app/api/file-access/route.ts:54-62 | past the address check, the answer is 200 if the required key is offered as `Bearer <key>` exactly and 401 otherwise, a missing key included |
| FileAccess.KeyIgnoredWhenNotRequired | src/app/api/file-access/route.ts:55-62 | when no key is required, the offered key does not affect the answer |
| FileAccess.OutageGivesServerError | src/app/api/file-access/route.ts:23-68 | a throwing connection or file query gives 500, and a throwing user query does too once a file was found; a throwing `decodeURIComponent` is covered by `FileAccess.Decide` |
| Middleware.ClientIp | src/middleware.ts:18 | the address is `request.ip` if truthy, else the forwarded-for header, else empty |
| Middleware.QueryOf | src/middleware.ts:18-30 | the identifier is a `/`-free ending of the path, the address is the client address, and the key is sent exactly when the header is truthy, unchanged |
| Middleware.Handle | src/middleware.ts:5-60 | redirect to `/dashboard` exactly for an `/auth` path with a token, to `/auth/login` exactly for any other non-file path without one, and an error response exactly on a file path whose check failed or threw, never with an ok status |
| Middleware.Intercepted | src/middleware.ts:62-64 | a `/`-path runs the middleware exactly when it does not start with `/api`, `/_next/static`, `/_next/image`, or with `/favicon`, any one character and `ico` |
| Middleware.AccessRoute | src/app/api/file-access/route.ts:5-70 | the access route always answers, with an ok status exactly when the decision grants access |
| Middleware.Gateway | src/middleware.ts:62-64 | a path the matcher skips passes straight through, and every other path gets the middleware's answer |
| Middleware.PagesIntercepted | src/middleware.ts:62-64 | the root, `/dashboard` and `/auth/login` run the middleware |
| Middleware.AuthPaths | src/middleware.ts:9-14 | `/auth` paths redirect to `/dashboard` with a token and pass without one |
| Middleware.OtherPathsNeedToken | src/middleware.ts:54-59 | any other non-file path redirects to `/auth/login` without a token and passes with one |
| Middleware.IdentifierIsLastSegment | src/middleware.ts:22 | the identifier is free of `/`, ends the path, and is empty exactly when the path ends in `/` |
| Middleware.VerdictForwarded | src/middleware.ts:32-51 | a non-ok answer is returned with its status and body, an ok one passes, a throw is 500 |
| Middleware.NoOwnerBypass | src/middleware.ts:16-52 | on a file path the answer does not depend on the token |
| Middleware.OnlyUploadsChecked | src/middleware.ts:17-64 | `/api/files...` never reaches the middleware, `/uploads...` always reaches the access check |
| Middleware.UploadsEnforceDecision | src/middleware.ts:16-52 | composed with the real access route, an upload is served exactly when the decision grants it, else refused with that decision's status and message |
| IpUtils.NormalizeIp | src/lib/ipUtils.ts:3-31 | the result is `localhost`, the IPv6 canonical form, the IPv4-mapped form or the input itself |
| IpUtils.LoopbackUnified | src/lib/ipUtils.ts:5-7 | `::1` and `127.0.0.1` become `localhost` whatever the parsers do |
| IpUtils.Ipv6Canonical | src/lib/ipUtils.ts:9-17 | what IPv6 accepts becomes its canonical form, and the IPv4 parser is not consulted |
| IpUtils.Ipv4Mapped | src/lib/ipUtils.ts:19-28 | what only IPv4 accepts becomes `::ffff:` + its canonical form |
| IpUtils.UnparsedPassesThrough | src/lib/ipUtils.ts:30 | what neither family accepts is returned unchanged |
| IpUtils.NotIdempotentOnLongLoopback | src/lib/ipUtils.ts:3-31 | an address whose canonical form is `::1` normalises differently the second time |
| UserStore.SettingsStatus | src/app/api/user/settings/route.ts:10-18 | 401 exactly without an email, 404 exactly without the account, 200 exactly for a policy |
| UserStore.UpdateStatus | src/app/api/user/settings/route.ts:36-49 | 401 exactly without an email, 404 exactly without the account, 200 exactly for an update |
| UserStore.RegisterStatus | src/app/api/register/route.ts:10-33 | 400 exactly for a wrong PIN or an existing email, 201 exactly for a created account |
| UserStore.ReadSettings | src/app/api/user/settings/route.ts:6-30 | 401 without an email, 404 without the account, else the stored list, switch and key with `[]`, `false` and `""` for absent fields, describing exactly the addresses and key the access route enforces (codes per `UserStore.SettingsStatus`) |
| UserStore.WithPolicy | src/app/api/user/settings/route.ts:44-46 | the `$set` keeps the id, name, email and password |
| UserStore.OpenAccount | src/app/api/register/route.ts:22-29 | a registered account allows every address and requires no key |
| UserStore.UserCollection.Register | src/app/api/register/route.ts:5-39 | wrong PIN gives 400 before anything else; an existing email gives 400 and no change; otherwise exactly one open account is added under a fresh id, returned with 201 (codes per `UserStore.RegisterStatus`) |
| UserStore.UserCollection.UpdateSettings | src/app/api/user/settings/route.ts:32-57 | 401 without an email, 404 and no change without the account, else only the caller's three policy fields change (codes per `UserStore.UpdateStatus`) |
| UserStore.UpdateThenRead | src/app/api/user/settings/route.ts:21-46 | after a successful update with well-typed values the read returns exactly those values |
| UserStore.RegisteredOwnerIsOpen | src/app/api/register/route.ts:26-28 | a freshly registered owner's file is granted to any address and any key, or none |
| SettingsPage.ParseAllowedIps | src/app/dashboard/settings/page.tsx:74 | empty or absent text gives `[]`; otherwise entry `i` is the trimmed `i`-th comma piece, comma-free |
| SettingsPage.FormatAllowedIps | src/app/dashboard/settings/page.tsx:54 | the shown text is empty exactly for the lists `[]` and `[""]` |
| SettingsPage.ApiKeyOf | src/app/dashboard/settings/page.tsx:60-66 | a key is shown exactly when the switch is on and the key non-empty, and it is `Bearer <key>` |
| SettingsPage.SubmissionOf | src/app/dashboard/settings/page.tsx:15-19 | a form is posted exactly when its key is non-empty, whatever the switch, with the parsed address list |
| SettingsPage.SecurityForm.constructor | src/app/dashboard/settings/page.tsx:26-41 | the form starts switched off with empty key and list, and shows no key |
| SettingsPage.SecurityForm.Load | src/app/dashboard/settings/page.tsx:48-55 | an ok answer fills the fields, showing the list joined with `", "`; any other answer changes nothing |
| SettingsPage.SecurityForm.Edit | src/app/dashboard/settings/page.tsx:107-125 | typing sets the three fields and leaves the shown key alone |
| SettingsPage.SecurityForm.SyncApiKey | src/app/dashboard/settings/page.tsx:60-66 | after the effect the shown key is the one derived from the switch and key |
| SettingsPage.SecurityForm.Submit | src/app/dashboard/settings/page.tsx:68-75 | the body posted is the schema-checked submission of the current fields |
| SettingsPage.JoinCommaSpace | src/app/dashboard/settings/page.tsx:54 | joining with `", "` is joining with `,` pieces that carry a leading space |
| SettingsPage.ParseFormatRoundTrip | src/app/dashboard/settings/page.tsx:54-74 | showing and resubmitting a list of comma-free, trimmed entries gives it back, for every list except `[""]` |
| SettingsPage.SingletonEmptyIsLost | src/app/dashboard/settings/page.tsx:54-74 | the list `[""]` comes back as `[]` |
| SettingsPage.LoadThenSave | src/app/dashboard/settings/page.tsx:48-75 | loading and saving without edits posts the stored policy back, unless its key is empty |
| SettingsPage.DisplayedKeyIsAccepted | src/app/dashboard/settings/page.tsx:60-66 | a key is displayed exactly when the access route requires one, and an offered key passes exactly when none is required or it equals the displayed one |
| FilesApi.OwnedBy | src/app/api/files/route.ts:76 | the query returns only the caller's documents, all from the store |
| FilesApi.OwnedByCountsCallerFiles | src/app/api/files/route.ts:76 | the query returns each of the caller's documents as often as stored and no other document, so `countDocuments` is the number of the caller's files |
| FilesApi.Limit | src/app/api/files/route.ts:68 | the limit asked for, or 7 when absent |
| FilesApi.Skip | src/app/api/files/route.ts:67-69 | page 1 (the default) skips nothing; with a limit of at least 0, no page from 1 on skips a negative count, and a later page skips at least one full page |
| FilesApi.OwnedPage | src/app/api/files/route.ts:75-80 | a page is the run of the caller's files, newest first, starting at `skip`; it is empty past the end, holds all the rest for limit 0 and `min(rest, abs(limit))` otherwise |
| FilesApi.ListFiles | src/app/api/files/route.ts:59-89 | 401 without an email; 500 for a negative skip; else a newest-first page of the caller's files, as long as `skip`/`limit` select from the count of all of them, with that count |
| FilesApi.PageIsSlice | src/app/api/files/route.ts:67-80 | entry `i` of a page is entry `(page-1)*limit + i` of the caller's files newest first, with page 1 and limit 7 by default |
| FilesApi.TotalIgnoresPaging | src/app/api/files/route.ts:82-84 | the count does not depend on the page or limit |
| FilesApi.StoredPath | src/app/api/files/route.ts:44 | the stored path is never empty, and a plain file name is stored at `uploads/files/<name>` |
| FilesApi.UploadStatus | src/app/api/files/route.ts:12-55 | 401 exactly without an email, 400 exactly without a file, 500 exactly for a failed directory, write or insert, 201 exactly for an upload |
| FilesApi.FileCollection.Store | src/app/api/files/route.ts:8-57 | 401 without an email, 400 without a file, 500 when a step throws, each leaving the collection unchanged; else exactly one record of the caller's file with a fresh id and 201; every stored id stays below the next one (codes per `FilesApi.UploadStatus`) |
| ImagesApi.ImagesOf | src/app/api/images/route.ts:17-19 | the query returns each stored image whose owner is the session's email as often as stored, and no other |
| ImagesApi.ListImages | src/app/api/images/route.ts:8-28 | 401 without a session; else every image of the caller, as often as stored, newest first |
| ImagesApi.ImagePath | src/app/api/images/route.ts:59 | the path is `/uploads/` followed by the name |
| ImagesApi.ImageUploadStatus | src/app/api/images/route.ts:34-70 | 401 exactly without a session, 400 exactly without a file, 500 exactly for a failed step, 201 exactly for an upload |
| ImagesApi.ImageCollection.Store | src/app/api/images/route.ts:30-72 | 401 without a session, 400 without a file, 500 when a step throws; else one record with a fresh id is appended, so an earlier record with the same name stays (codes per `ImagesApi.ImageUploadStatus`) |
| FileList.TotalPages | src/components/file-list.tsx:64 | at least one page, exactly one for no files, else `ceil(total / 7)` |
| FileList.ReachablePagesAreFilled | src/components/file-list.tsx:51-64 | each page from 1 to the page count holds at most seven files, and none only when the caller has none |
| FileList.FileListView.constructor | src/components/file-list.tsx:31-37 | no files, page 1 of 1, count 0 |
| FileList.FileListView.FetchFiles | src/components/file-list.tsx:45-79 | nothing happens without a session; a listing is shown with its count and page count; any other answer resets to no files, count 0 and one page |
| FileList.FileListView.HandleDelete | src/components/file-list.tsx:135-169 | a success removes that id and decrements the count, then moves back a page if the page held exactly one file before the delete and it was not the first page, else refetches; a failure changes nothing |
| FileList.FileListView.Previous | src/components/file-list.tsx:279 | moves back one page, staying within the pages when it started within them |
| FileList.FileListView.Next | src/components/file-list.tsx:286 | moves forward one page, staying within the pages when it started within them |
| ImageGrid.RenameTarget | src/components/image-grid.tsx:39-40 | the requested name has the typed stem and the open image's extension, or `undefined` as extension when none is open |
| ImageGrid.UntouchedRenameKeepsName | src/components/image-grid.tsx:117-120 | renaming right after opening, without typing, asks for the current name |
| ImageGrid.UndottedNameGainsDot | src/components/image-grid.tsx:117-120 | for a name without `.` that rename asks for `.` + name |
| ImageGrid.ImageGridView.FetchImages | src/components/image-grid.tsx:29-35 | the list becomes the caller's images when the listing is ok, else it stays |
| ImageGrid.ImageGridView.OpenViewer | src/components/image-grid.tsx:117-120 | the viewer opens the image with its name up to the last `.` |
| ImageGrid.ImageGridView.EditName | src/components/image-grid.tsx:148-149 | typing sets the new name and nothing else |
| ImageGrid.ImageGridView.HandleRename | src/components/image-grid.tsx:37-68 | sends the rename target; a success replaces exactly the images with that id and opens the result; a failure changes nothing |
| ImageGrid.ImageGridView.HandleDelete | src/components/image-grid.tsx:70-93 | a success removes exactly the images with that id and closes the viewer; a failure changes nothing |
| ImageUpload.AfterEdits | src/components/image-upload.tsx:59-82 | any number of edits keeps the extension of the chosen file, and the input shows the last name typed |
| ImageUpload.ImageUploadForm.SelectFile | src/components/image-upload.tsx:16-22 | choosing files takes the first and names the upload after it; choosing none changes nothing |
| ImageUpload.ImageUploadForm.DisplayedStem | src/components/image-upload.tsx:82 | the input shows the part before the last `.`, which with the extension rebuilds the name |
| ImageUpload.ImageUploadForm.ChangeName | src/components/image-upload.tsx:59-63 | an edit makes the input show the typed name and keeps the extension |
| ImageUpload.ImageUploadForm.Submit | src/components/image-upload.tsx:24-57 | without a file nothing is sent or changed; otherwise the file is sent under the current name and a success clears the form |

## Left out

- I/O is outside the model:
  - the bytes of uploads (`arrayBuffer`, `mkdir`, `writeFile`); only whether each step succeeded is modelled;
  - response JSON encoding and the `details` text of 500 answers;
  - console logging, toasts, dialogs, the clipboard and the download link.
- React rendering and effects are not modelled. A component method is one handler run to completion. A state change that triggers a refetch is visible only as the `refetch` result of `FileList.FileListView.HandleDelete`.
- Concurrency between requests and between handlers is not modelled. Each operation is atomic.
- The 500 answers of the register and settings routes are not modelled: a store that throws, or a body that is not JSON.
- The listing routes do not model a store that throws. Their only modelled server error is the negative skip of `GET /api/files`.
- JSON typing is not modelled. Request bodies are taken as well typed, and values absent from a settings `POST` are stored as absent.
- `parseInt` of text that is not a number (NaN) is not modelled. `page` and `limit` reach `FilesApi.ListFiles` as integers, or as absent when the parameter is missing or empty.
- `new Date()` timestamps are integers supplied by the caller.
- `URLSearchParams` encoding in the middleware is assumed to round-trip exactly, so the access route receives the appended values.
- Libraries the code calls are not re-implemented. Each is an uninterpreted parameter:
  - `bcrypt.hash`;
  - `ObjectId.isValid`;
  - `decodeURIComponent`;
  - `ip-address` parsing and its RFC 5952 text form.
- The `PATCH` and `DELETE` routes for images and files are not part of this model. Their answers are parameters of the component methods.
- The matcher's regular expression is modelled only for paths that begin with `/`.
- MongoDB does not fix the order of documents with equal `uploadedAt`. The model keeps their store order.
- JsStrings.Trim: strips the ECMAScript WhiteSpace and LineTerminator characters as listed. It does not track later Unicode revisions of the space-separator category.
- FilesApi.StoredPath: models `path.posix.join` for relative paths only. The name comes from the upload form, and Windows separators are not modelled.
- Not modelled because they are UI or glue:
  - `src/lib/auth.ts` (NextAuth configuration and `bcrypt.compare`);
  - the sidebar, the layouts, the dashboard pages other than the settings page;
  - the file context, which only increments a counter;
  - the stored `deploy-commands.js` upload.
