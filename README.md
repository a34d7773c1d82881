# BoardService page registry — a Dafny model

This project models the core of the whiteboard service (`BoardService`) of a
video-conferencing client. The service forwards UI actions to a whiteboard
rendering SDK. It also keeps a **page registry**, and it rebuilds its deck of
pages when an uploaded file is previewed.

The page registry is made of three parallel vectors:
- page identifiers (`_pagesId`);
- background URLs (`_backsUrl`);
- "background already pushed" flags (`_backsSend`).

A cursor, `_pageIndex`, points into them.

The model is the class `Board.BoardService`. Its fields are the registry vectors (as `seq`s), the
cursor, the four status flags, the observer-present flag, the session context,
the room identifier, the upload signature and the first-download flag. Methods
update them in place with field-level `modifies` frames, so each method states
exactly which fields it changes.

What the service does outside its own state is recorded in ghost traces, each
append-only and oldest first:

| trace | records |
|---|---|
| `board` | the calls into the whiteboard SDK: `useBackground(url, id)` and `pageOperate(target, deleted)` |
| `notices` | the notifications to the observer |
| `outbound` | the messages handed to the IM transport |
| `previews` | the transcode requests |
| `reports` | how many usage reports were sent (a count) |

Asynchronous completion callbacks are methods that take the callback's arguments.

The registry invariant is `Valid()`: the three vectors have the same length, that
length is at least 1, and the cursor is a valid index. The constructor
establishes it, and every registry operation requires and preserves it.
`Aligned()` is the part without the cursor. `gotoPage` only needs `Aligned()`,
because the source calls it from `deletePage` and `previewFile` while
`_pageIndex` may still point past the end.

The pure parts are functions and lemmas:
- `PageRegistry`: insertion and erasure at a position, the cursor after a
  delete, and the background-prefetch window of `gotoPage`;
- `FileKind`: the extension classifier of `previewFile`, including the
  `npos + 1` wrap-around to 0 for names with no dot;
- `QueryUrl`: the query URL `url()`, with the decimal rendering of the
  application id and its read-back;
- `UploadFlow`: the dispatch of the upload completion callback.

Two behaviours of the code are easy to misread, and the model follows the code
in both:
- The prefetch loop of `gotoPage` runs `i` from `idx - 2` while `i < idx + 2`.
  The window is therefore two pages before the target and one page after it,
  not two on each side.
- The flag assignment `_backsSend[i] = true` is commented out, so `gotoPage`
  never changes the flags. A background is pushed again on every visit.

One more consequence of the code is kept as written: `deletePage` with the
cursor on page 0 removes `#DEFAULT` itself. A later reset in `previewFile`
still sends `pageOperate("#DEFAULT", ids[1..])`, so it targets a page the board
has already deleted and does not list the surviving first page among the
deleted ones. `ResetDeck`'s contract states exactly this call.

## Model

| member | source | states |
|---|---|---|
| `PageRegistry.InsertAt` | TXCloudRoom/common/RoomService/BoardService.cpp:146-149 | `emplace` at position k: one entry longer, the new value at k, entries before k unchanged, entries from k on shifted up by one |
| `PageRegistry.RemoveAt` | TXCloudRoom/common/RoomService/BoardService.cpp:157-160 | `erase` at position k: one entry shorter, entries before k unchanged, later entries shifted down by one |
| `PageRegistry.RemoveInserted` | TXCloudRoom/common/RoomService/BoardService.cpp:146-160 | erasing at the position just inserted at gives back the original vector |
| `PageRegistry.CursorAfterDelete` | TXCloudRoom/common/RoomService/BoardService.cpp:161-165 | after deleting at cursor c of n > 1 pages, the new cursor is min(c, n-2), a valid index of the shorter registry |
| `PageRegistry.NeedsBackground` | TXCloudRoom/common/RoomService/BoardService.cpp:100 | the guard of the prefetch loop holds only for a valid page index; that it holds exactly for valid, unpushed pages with a non-empty URL is stated by `PrefetchIndicesExact` |
| `PageRegistry.InsertThenDelete` | TXCloudRoom/common/RoomService/BoardService.cpp:144-171 | `insertPage` followed by `deletePage` restores the registry; the cursor returns to c only when c was the last page, otherwise it is c+1 |
| `PageRegistry.PrefetchIndices` | TXCloudRoom/common/RoomService/BoardService.cpp:98-100 | every prefetch index lies in the loop's window and inside the vectors |
| `PageRegistry.PrefetchIndicesExact` | TXCloudRoom/common/RoomService/BoardService.cpp:98-104 | i is a prefetch index exactly when it is in the window, valid, unpushed and has a non-empty URL (both directions); the indices strictly increase |
| `PageRegistry.BackgroundCalls` | TXCloudRoom/common/RoomService/BoardService.cpp:102 | one `useBackground` call per prefetch index |
| `PageRegistry.BackgroundCallsAt` | TXCloudRoom/common/RoomService/BoardService.cpp:102 | call k pushes the URL and identifier of page ix[k] |
| `PageRegistry.Prefetch` | TXCloudRoom/common/RoomService/BoardService.cpp:98-105 | the `useBackground` calls of the prefetch loop over [lo, hi): at most one per index of the window |
| `PageRegistry.PrefetchByIndices` | TXCloudRoom/common/RoomService/BoardService.cpp:98-105 | the calls the loop makes step by step are the background calls of the prefetch indices, in order |
| `PageRegistry.GotoCalls` | TXCloudRoom/common/RoomService/BoardService.cpp:98-106 | the board calls of `gotoPage(idx)`: between one and five, the last one `pageOperate(ids[idx])` with nothing deleted |
| `PageRegistry.GotoCallsShape` | TXCloudRoom/common/RoomService/BoardService.cpp:98-106 | `gotoPage(idx)` issues at most four `useBackground` calls, one per prefetch index of [idx-2, idx+1] in increasing order, then exactly one `pageOperate(ids[idx])` with nothing deleted |
| `FileKind.FindLastOf` | TXCloudRoom/common/RoomService/BoardService.cpp:293 | `find_last_of`: `npos` exactly when the character is absent; otherwise a position holding it with none after |
| `FileKind.Extension` | TXCloudRoom/common/RoomService/BoardService.cpp:293-294 | the extension is a dot-free suffix of the name, preceded by a dot when the name has one, and the whole name when it has none (`npos + 1` wraps to 0) |
| `FileKind.IsTranscode` | TXCloudRoom/common/RoomService/BoardService.cpp:293-300 | a name with a dot is transcoded exactly when the text after its last dot is ppt, pptx, pdf, doc or docx; a name without a dot exactly when the whole name is one of them |
| `FileKind.ExtensionOfDotted` | TXCloudRoom/common/RoomService/BoardService.cpp:293-300 | for `stem.ext` with a dot-free ext, the extension is ext, and the file is transcoded exactly when ext is ppt, pptx, pdf, doc or docx |
| `FileKind.NoDotUsesWholeName` | TXCloudRoom/common/RoomService/BoardService.cpp:293-300 | a dot-less name is classified by the whole name: `pdf` is transcoded, `report_pdf` is not |
| `QueryUrl.IntToString` | TXCloudRoom/common/RoomService/BoardService.cpp:220 | `to_wstring` of the application id: a non-empty numeral with no `&`, starting with `-` exactly for a negative value |
| `QueryUrl.ParseIntToString` | TXCloudRoom/common/RoomService/BoardService.cpp:220 | reading back the written numeral gives the number |
| `QueryUrl.Url` | TXCloudRoom/common/RoomService/BoardService.cpp:217-229 | the URL starts with the fixed endpoint; it contains `&` exactly when a token is set; with a token it ends with the token (the application id and identifier parts are stated by `UrlCarriesAppId` and `UrlWithToken`) |
| `QueryUrl.UrlCarriesAppId` | TXCloudRoom/common/RoomService/BoardService.cpp:219-220 | the text after the endpoint, up to the first `&`, parses back to the application id |
| `QueryUrl.UrlWithToken` | TXCloudRoom/common/RoomService/BoardService.cpp:221-227 | with a token, the numeral is followed by exactly `&identifier=`, the user identifier, `&user_token=` and the token, in that order |
| `QueryUrl.UpToAmpStops` | TXCloudRoom/common/RoomService/BoardService.cpp:220-223 | the numeral ends where the `&identifier=` part begins |
| `QueryUrl.UrlIgnoresUserWithoutToken` | TXCloudRoom/common/RoomService/BoardService.cpp:221-227 | without a token the URL does not depend on the user identifier |
| `UploadFlow.UploadDispatch` | TXCloudRoom/common/RoomService/BoardService.cpp:272-288 | done with code 200 goes on to preview; done with any other code reports failure; not done reports progress equal to the code |
| `UploadFlow.SignatureOk` | TXCloudRoom/common/RoomService/BoardService.cpp:245 | the signature response is accepted exactly when its code is 0; its effect is stated by `OnCosSignature` |
| `Board.BoardService.constructor` | TXCloudRoom/common/RoomService/BoardService.cpp:472-476 | establishes the invariant with exactly one page, `#DEFAULT`, with an empty URL and an unset flag, and the cursor 0 |
| `Board.BoardService.Init` | TXCloudRoom/common/RoomService/BoardService.cpp:174-176 | stores the session context |
| `Board.BoardService.SetRoomID` | TXCloudRoom/common/RoomService/BoardService.cpp:182-185 | stores the room identifier |
| `Board.BoardService.Notify` | TXCloudRoom/common/RoomService/BoardService.cpp:187-215 | a notification reaches the observer only when one is registered |
| `Board.BoardService.SendStatusChanged` | TXCloudRoom/common/RoomService/BoardService.cpp:201-207 | notifies the current four flags, if there is an observer |
| `Board.BoardService.SetCallback` | TXCloudRoom/common/RoomService/BoardService.cpp:11-15 | registering an observer immediately delivers exactly one status notification with the current flags |
| `Board.BoardService.OnStatusChanged` | TXCloudRoom/common/RoomService/BoardService.cpp:423-430 | stores the four flags and notifies exactly those values |
| `Board.BoardService.SyncEventData` | TXCloudRoom/common/RoomService/BoardService.cpp:387-389 | always reports sync failure |
| `Board.BoardService.OnActionsData` | TXCloudRoom/common/RoomService/BoardService.cpp:415-421 | outbound data is sent unchanged to the bound room, and dropped when no room is bound |
| `Board.BoardService.UploadFile` | TXCloudRoom/common/RoomService/BoardService.cpp:72-81 | reports once unless the first-download flag is set, then clears the flag |
| `Board.BoardService.ReportELK` | TXCloudRoom/common/RoomService/BoardService.cpp:118-126 | reports and sets the flag only when the flag is clear |
| `Board.BoardService.OnRenderFrame` | TXCloudRoom/common/RoomService/BoardService.cpp:457-466 | the first frame after a clear flag is reported once and sets the flag |
| `Board.BoardService.GetPageIndex` | TXCloudRoom/common/RoomService/BoardService.cpp:83-86 | the cursor, always below the page count |
| `Board.BoardService.GetPageCount` | TXCloudRoom/common/RoomService/BoardService.cpp:88-91 | the page count, never zero |
| `Board.BoardService.GotoPage` | TXCloudRoom/common/RoomService/BoardService.cpp:93-108 | out of range: no cursor change and no board call; in range: the cursor becomes the index and exactly the `GotoCalls` are issued; the registry and its flags never change |
| `Board.BoardService.GotoCurrentPage` | TXCloudRoom/common/RoomService/BoardService.cpp:110-116 | the cursor stays, and the current page is shown again |
| `Board.BoardService.GotoLastPage` | TXCloudRoom/common/RoomService/BoardService.cpp:128-134 | moves to cursor-1 when the cursor is above 0, otherwise does nothing |
| `Board.BoardService.GotoNextPage` | TXCloudRoom/common/RoomService/BoardService.cpp:136-142 | moves to cursor+1 when the cursor is below count-1, otherwise does nothing |
| `Board.BoardService.InsertPage` | TXCloudRoom/common/RoomService/BoardService.cpp:144-151 | inserts the new id, an empty URL and an unset flag at cursor+1 in all three vectors, moves the cursor there, and navigates to it |
| `Board.BoardService.DeletePage` | TXCloudRoom/common/RoomService/BoardService.cpp:153-172 | a no-op with one page; otherwise removes entry C from all three vectors, sets the cursor to min(C, N-2), issues `pageOperate(newTarget, [removedId])` and then navigates |
| `Board.BoardService.OldPages` | TXCloudRoom/common/RoomService/BoardService.cpp:305-309 | collects the identifiers of every page but the first, in order |
| `Board.BoardService.ResetDeck` | TXCloudRoom/common/RoomService/BoardService.cpp:305-317 | issues `pageOperate("#DEFAULT", old ids[1..])`, then leaves exactly `["#DEFAULT"]` with the given URL and an unset flag |
| `Board.BoardService.ShowDownload` | TXCloudRoom/common/RoomService/BoardService.cpp:302-320 | the deck becomes exactly `["#DEFAULT"]` with the download URL and an unset flag, the cursor 0, the old pages are deleted, the board goes to page 0 and success is reported |
| `Board.BoardService.AppendPreviewPages` | TXCloudRoom/common/RoomService/BoardService.cpp:351-357 | appends pages 2 to page_count, page k+1 at entry k, with the generated id, preview page k+1 and an unset flag |
| `Board.BoardService.OnCosSignature` | TXCloudRoom/common/RoomService/BoardService.cpp:241-258 | a non-zero signature code reports failure; zero keeps the signature for the upload |
| `Board.BoardService.OnUploadStatus` | TXCloudRoom/common/RoomService/BoardService.cpp:272-288 | failure and progress notify without touching the deck; success previews the object |
| `Board.BoardService.PreviewFile` | TXCloudRoom/common/RoomService/BoardService.cpp:291-327 | non-transcode: the deck becomes exactly `["#DEFAULT"]` with the download URL, the cursor 0, and success is reported; transcode: only the preview request is made |
| `Board.BoardService.OnPreviewResult` | TXCloudRoom/common/RoomService/BoardService.cpp:332-365 | page_count > 0: a page_count-entry deck with `#DEFAULT` first, entry k on preview page k+1, all flags unset, cursor 0, old pages deleted, success reported; page_count <= 0: the deck is unchanged and failure is reported |

## Left out

- Rendering, window handles and the SDK itself (`getRenderWindow`, `BoardSDK` internals, its creation in `init` and its deletion in the destructor): only the abstract trace of `useBackground` and `pageOperate` calls is kept.
- Pure pass-throughs with no logic of their own: `useTool`, `setWidth`, `setColor`, `setFill`, `undo`, `redo`, `clear`, `appendActionsData`, `appendEventData`, `onRecvWhiteBoardData` and `onGetTime`.
- Network input/output: the HTTP post of `fetchCosSig`, parsing of the signature response and the storage client (`setAppID`, `setBucket`, `setRegion`, `setPath`, `uploadObject`, `previewObject`, `get*Url`). Their results are method parameters: the signature code and signature, `(code, done)`, the page count, the download URL and the preview URL function.
- The IM transport: the send of `onActionsData` is recorded in the `outbound` trace; whether it is delivered is not modelled. The registration of the service as the receiver of whiteboard data (`setRecvWBDataCallBack(this)` in the constructor, `setRecvWBDataCallBack(nullptr)` in the destructor) is not modelled, because the receiving side, `onRecvWhiteBoardData`, is a pass-through.
- Concurrency: each asynchronous callback is one sequential step. Overlapping uploads, and which of them finishes last, are not modelled.
- The clock: page identifiers built from `time(nullptr)` and object names built from the time are opaque inputs. They are the `newId` of `InsertPage` and the `genId` of `OnPreviewResult`. Their uniqueness is not claimed.
- Diagnostic reporting through `DataReport` and `HttpReportRequest`: only the first-download flag and a count of reports are kept.
- Text-encoding helpers (`a2w`, `Wide2UTF8`, `getFileName`): strings are sequences of characters, and widening is the identity.
- The commented-out code (`reportEvent`, the body of `syncEvent`, `onGetBoardData`), the empty `onReportBoardData`, and the singleton `instance()`.
- BoardService.h is not part of this model. The constructor assumes that its member initialisers give a cursor of 0, cleared status flags, a clear first-download flag and no observer.
- `InsertPage`: does not model the 32-bit wrap-around of `_pageIndex + 1`. It would need 2^32 pages. The cursor is an unbounded `nat`.
- `PreviewFile`: in the transcode branch it records only the preview request. The callback's effect is stated by `OnPreviewResult`, whose URL and identifier functions already stand for `getPreviewUrl(objName, i)`.
- `FileKind.FindLastOf`: `size_t` is taken to be 64 bits wide. Only the wrap of `npos + 1` to 0 matters, and that holds for any width.
- `QueryUrl.Url`: the type of `sdkAppID` is declared in a header that is not part of this model. It is taken to be a signed int, written in decimal.
