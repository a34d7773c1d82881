/**
 * `BoardService`: the whiteboard facade. It owns the page registry (three
 * parallel vectors and a cursor), relays the board's status flags to the
 * observer, forwards outbound board data to the room, and rebuilds the deck when
 * an uploaded file is previewed. SDK calls, observer notifications, IM messages,
 * preview requests and usage reports are recorded in ghost traces.
 */
module Board {
  import opened BoardEvents
  import opened PageRegistry
  import FileKind
  import QueryUrl
  import UploadFlow

  class BoardService {
    // the page registry
    var pagesId: seq<string>
    var backsUrl: seq<string>
    var backsSend: seq<bool>
    var pageIndex: nat

    // status flags mirrored from the board
    var canUndo: bool
    var canRedo: bool
    var canCopy: bool
    var canRemove: bool

    /** Whether an observer is registered (`_callback` is not null). */
    var hasCallback: bool
    var auth: QueryUrl.AuthData
    var roomID: string
    var cosSign: string
    var firstDownloaded: bool

    /** Calls made into the whiteboard SDK, oldest first. */
    ghost var board: seq<BoardCall>
    /** Notifications delivered to the observer, oldest first. */
    ghost var notices: seq<Notice>
    /** Board data handed to the IM transport, oldest first. */
    ghost var outbound: seq<Outbound>
    /** Object names sent to be transcoded (`previewObject`), oldest first. */
    ghost var previews: seq<string>
    /** Number of usage reports sent (`reportELK`). */
    ghost var reports: nat

    /** The three vectors run in parallel and are never empty. */
    ghost predicate Aligned()
      reads this
    {
      |pagesId| == |backsUrl| == |backsSend| >= 1
    }

    /** The registry invariant: aligned vectors and a cursor on one of their entries. */
    ghost predicate Valid()
      reads this
    {
      Aligned() && pageIndex < |pagesId|
    }

    /** The service starts with one blank default page and nothing sent anywhere. */
    constructor ()
      ensures Valid()
      ensures pagesId == [DefaultPage] && backsUrl == [""] && backsSend == [false] && pageIndex == 0
      ensures !canUndo && !canRedo && !canCopy && !canRemove
      ensures !hasCallback && roomID == [] && !firstDownloaded
      ensures board == [] && notices == [] && outbound == [] && previews == [] && reports == 0
    {
      pagesId := [];
      backsUrl := [];
      backsSend := [];
      pagesId := pagesId + [DefaultPage];
      backsUrl := backsUrl + [""];
      backsSend := backsSend + [false];
      pageIndex := 0;
      canUndo, canRedo, canCopy, canRemove := false, false, false, false;
      hasCallback := false;
      auth := QueryUrl.AuthData("", 0, "");
      roomID := [];
      cosSign := [];
      firstDownloaded := false;
      board, notices, outbound, previews, reports := [], [], [], [], 0;
    }

    /** `init`: keeps the session context. */
    method Init(authData: QueryUrl.AuthData)
      modifies this`auth
      ensures auth == authData
    {
      auth := authData;
    }

    method SetRoomID(room: string)
      modifies this`roomID
      ensures roomID == room
    {
      roomID := room;
    }

    /** Delivers `n` to the observer if one is registered. */
    method Notify(n: Notice)
      modifies this`notices
      ensures notices == old(notices) + if hasCallback then [n] else []
    {
      if hasCallback {
        notices := notices + [n];
      }
    }

    /** `sendStatusChanged`: the current four flags, to the observer if there is one. */
    method SendStatusChanged()
      modifies this`notices
      ensures notices == old(notices) + if hasCallback then [StatusChanged(canUndo, canRedo, canCopy, canRemove)] else []
    {
      Notify(StatusChanged(canUndo, canRedo, canCopy, canRemove));
    }

    /** `setCallback`: registers (or clears) the observer and at once tells it the current flags. */
    method SetCallback(present: bool)
      modifies this`hasCallback, this`notices
      ensures hasCallback == present
      ensures notices == old(notices) + if present then [StatusChanged(canUndo, canRedo, canCopy, canRemove)] else []
    {
      hasCallback := present;
      SendStatusChanged();
    }

    /** `onStatusChanged`: stores the board's four flags and relays exactly those values. */
    method OnStatusChanged(undo: bool, redo: bool, copy: bool, remove: bool)
      modifies this`canUndo, this`canRedo, this`canCopy, this`canRemove, this`notices
      ensures canUndo == undo && canRedo == redo && canCopy == copy && canRemove == remove
      ensures notices == old(notices) + if hasCallback then [StatusChanged(undo, redo, copy, remove)] else []
    {
      canUndo, canRedo, canCopy, canRemove := undo, redo, copy, remove;
      SendStatusChanged();
    }

    /** `syncEventData`: the remote sync is disabled, so it always reports failure. */
    method SyncEventData()
      modifies this`notices
      ensures notices == old(notices) + if hasCallback then [SyncEventResult(false)] else []
    {
      Notify(SyncEventResult(false));
    }

    /** `onActionsData`: outbound board data goes to the bound room, and is dropped without one. */
    method OnActionsData(data: seq<bv8>)
      modifies this`outbound
      ensures outbound == old(outbound) + if roomID == [] then [] else [WhiteBoardData(roomID, data)]
    {
      if roomID == [] {
        return;
      }
      outbound := outbound + [WhiteBoardData(roomID, data)];
    }

    /**
     * The usage-report part of `uploadFile`: a report goes out unless the flag is
     * set, and the flag is cleared in any case. (The signature fetch that follows
     * is a network request; its answer arrives in `OnCosSignature`.)
     */
    method UploadFile()
      modifies this`firstDownloaded, this`reports
      ensures !firstDownloaded
      ensures reports == old(reports) + if old(firstDownloaded) then 0 else 1
    {
      if !firstDownloaded {
        reports := reports + 1;
      }
      firstDownloaded := false;
    }

    /** `reportELK`: reports once and sets the flag, unless the flag is already set. */
    method ReportELK()
      modifies this`firstDownloaded, this`reports
      ensures firstDownloaded
      ensures reports == old(reports) + if old(firstDownloaded) then 0 else 1
    {
      if !firstDownloaded {
        firstDownloaded := true;
        reports := reports + 1;
      }
    }

    /** The reporting part of `onRenderFrame`: the first frame after an upload is reported once. */
    method OnRenderFrame()
      modifies this`firstDownloaded, this`reports
      ensures firstDownloaded
      ensures reports == old(reports) + if old(firstDownloaded) then 0 else 1
    {
      if !firstDownloaded {
        firstDownloaded := true;
        reports := reports + 1;
      }
    }

    /** `getPageIndex`. */
    method GetPageIndex() returns (index: nat)
      requires Valid()
      ensures index == pageIndex && index < |pagesId|
    {
      index := pageIndex;
    }

    /** `getPageCount`: never zero. */
    method GetPageCount() returns (count: nat)
      requires Valid()
      ensures count == |pagesId| && count >= 1 && pageIndex < count
    {
      count := |pagesId|;
    }

    /**
     * `gotoPage`: an index out of range changes nothing and calls nothing. A valid
     * index becomes the cursor; the backgrounds of the window `[index - 2, index + 1]`
     * that are unsent and non-empty are pushed in increasing order, then the board
     * switches to the page. The sent flags are left as they are.
     */
    method GotoPage(index: nat)
      requires Aligned()
      modifies this`pageIndex, this`board
      ensures index < |pagesId| ==> Valid() && pageIndex == index && board == old(board) + GotoCalls(pagesId, backsUrl, backsSend, index)
      ensures index >= |pagesId| ==> pageIndex == old(pageIndex) && board == old(board)
    {
      if index < |pagesId| {
        pageIndex := index;
        var ids, urls, sent := pagesId, backsUrl, backsSend;
        var i: int := index as int - 2;
        while i < index as int + 2
          invariant index as int - 2 <= i <= index as int + 2
          invariant pageIndex == index
          invariant board == old(board) + Prefetch(ids, urls, sent, index as int - 2, i)
        {
          if 0 <= i < |ids| && !sent[i] && urls[i] != [] {
            board := board + [UseBackground(urls[i], ids[i])];
          }
          i := i + 1;
        }
        board := board + [PageOperate(pagesId[pageIndex], [])];
      }
    }

    /** `gotoCurrentPage`: redisplays the current page (its `>= 0` guard on an unsigned cursor always holds). */
    method GotoCurrentPage()
      requires Valid()
      modifies this`pageIndex, this`board
      ensures Valid() && pageIndex == old(pageIndex)
      ensures board == old(board) + GotoCalls(pagesId, backsUrl, backsSend, pageIndex)
    {
      GotoPage(pageIndex);
    }

    /** `gotoLastPage`: steps back one page unless the cursor is on the first. */
    method GotoLastPage()
      requires Valid()
      modifies this`pageIndex, this`board
      ensures Valid()
      ensures old(pageIndex) > 0 ==> pageIndex == old(pageIndex) - 1 && board == old(board) + GotoCalls(pagesId, backsUrl, backsSend, pageIndex)
      ensures old(pageIndex) == 0 ==> pageIndex == 0 && board == old(board)
    {
      if pageIndex > 0 {
        GotoPage(pageIndex - 1);
      }
    }

    /** `gotoNextPage`: steps forward one page unless the cursor is on the last. */
    method GotoNextPage()
      requires Valid()
      modifies this`pageIndex, this`board
      ensures Valid()
      ensures old(pageIndex) < |pagesId| - 1 ==> pageIndex == old(pageIndex) + 1 && board == old(board) + GotoCalls(pagesId, backsUrl, backsSend, pageIndex)
      ensures old(pageIndex) == |pagesId| - 1 ==> pageIndex == old(pageIndex) && board == old(board)
    {
      // `size() - 1` cannot wrap around: the registry is never empty
      if pageIndex < |pagesId| - 1 {
        GotoPage(pageIndex + 1);
      }
    }

    /**
     * `insertPage`: a page with identifier `newId`, no background and an unset
     * flag goes in right after the cursor, and the board moves to it. The
     * identifier is built from the user, the clock and the page count, which this
     * model takes as the opaque argument `newId`.
     */
    method InsertPage(newId: string)
      requires Valid()
      modifies this`pagesId, this`backsUrl, this`backsSend, this`pageIndex, this`board
      ensures Valid()
      ensures pageIndex == old(pageIndex) + 1
      ensures pagesId == InsertAt(old(pagesId), pageIndex, newId)
      ensures backsUrl == InsertAt(old(backsUrl), pageIndex, "")
      ensures backsSend == InsertAt(old(backsSend), pageIndex, false)
      ensures board == old(board) + GotoCalls(pagesId, backsUrl, backsSend, pageIndex)
    {
      var toPage := pageIndex + 1;
      pagesId := InsertAt(pagesId, toPage, newId);
      backsUrl := InsertAt(backsUrl, toPage, "");
      backsSend := InsertAt(backsSend, toPage, false);
      GotoPage(toPage);
    }

    /**
     * `deletePage`: with a single page nothing happens. Otherwise the entry at the
     * cursor leaves all three vectors, the cursor stays put unless it fell off the
     * end, the board is told to switch to the new current page and drop the
     * removed one, and then the board navigates there.
     */
    method DeletePage()
      requires Valid()
      modifies this`pagesId, this`backsUrl, this`backsSend, this`pageIndex, this`board
      ensures Valid()
      ensures old(|pagesId|) == 1 ==>
        && pagesId == old(pagesId) && backsUrl == old(backsUrl) && backsSend == old(backsSend)
        && pageIndex == old(pageIndex) && board == old(board)
      ensures old(|pagesId|) > 1 ==>
        && pagesId == RemoveAt(old(pagesId), old(pageIndex))
        && backsUrl == RemoveAt(old(backsUrl), old(pageIndex))
        && backsSend == RemoveAt(old(backsSend), old(pageIndex))
        && pageIndex == CursorAfterDelete(old(pageIndex), old(|pagesId|))
        && board == old(board)
             + [PageOperate(pagesId[pageIndex], [old(pagesId)[old(pageIndex)]])]
             + GotoCalls(pagesId, backsUrl, backsSend, pageIndex)
    {
      if |pagesId| > 1 {
        var n := |pagesId|;
        var deleted := pagesId[pageIndex];
        pagesId := RemoveAt(pagesId, pageIndex);
        backsUrl := RemoveAt(backsUrl, pageIndex);
        backsSend := RemoveAt(backsSend, pageIndex);
        var toPage := pageIndex;
        if toPage >= |pagesId| {
          toPage := toPage - 1;
        }
        assert toPage == CursorAfterDelete(pageIndex, n);
        board := board + [PageOperate(pagesId[toPage], [deleted])];
        GotoPage(toPage);
      }
    }

    /** The identifiers of every page but the first, as `previewFile` collects them to delete. */
    method OldPages() returns (oldPages: seq<string>)
      requires Aligned()
      ensures |oldPages| == |pagesId| - 1
      ensures forall k :: 0 <= k < |oldPages| ==> oldPages[k] == pagesId[k + 1]
    {
      oldPages := [];
      var i := 1;
      while i < |pagesId|
        invariant 1 <= i <= |pagesId|
        invariant |oldPages| == i - 1
        invariant forall k :: 0 <= k < |oldPages| ==> oldPages[k] == pagesId[k + 1]
      {
        oldPages := oldPages + [pagesId[i]];
        i := i + 1;
      }
    }

    /**
     * The deck reset both branches of `previewFile` share: the board switches to the
     * default page and deletes every other page, then the registry is cleared and
     * refilled with the single default page showing `url`.
     */
    method ResetDeck(url: string)
      requires Aligned()
      modifies this`pagesId, this`backsUrl, this`backsSend, this`board
      ensures Aligned()
      ensures pagesId == [DefaultPage] && backsUrl == [url] && backsSend == [false]
      ensures board == old(board) + [PageOperate(DefaultPage, old(pagesId)[1..])]
    {
      var oldPages := OldPages();
      assert oldPages == pagesId[1..];
      board := board + [PageOperate(DefaultPage, oldPages)];
      pagesId, backsUrl, backsSend := [], [], [];
      pagesId := pagesId + [DefaultPage];
      backsUrl := backsUrl + [url];
      backsSend := backsSend + [false];
    }

    /**
     * The non-transcode branch of `previewFile`: the deck becomes the single
     * default page showing `url`, the board goes to it and success is reported.
     */
    method ShowDownload(url: string)
      requires Aligned()
      modifies this`pagesId, this`backsUrl, this`backsSend, this`pageIndex, this`board, this`notices
      ensures Valid()
      ensures pagesId == [DefaultPage] && backsUrl == [url] && backsSend == [false] && pageIndex == 0
      ensures board == old(board) + [PageOperate(DefaultPage, old(pagesId)[1..])] + GotoCalls(pagesId, backsUrl, backsSend, 0)
      ensures notices == old(notices) + if hasCallback then [UploadResult(true)] else []
    {
      ResetDeck(url);
      GotoPage(0);
      Notify(UploadResult(true));
    }

    /**
     * The page loop of the transcode callback: pages `2 ..= pageCount` are appended
     * after the default page, page `i` with identifier `genId(i)` and preview `previewUrl(i)`.
     */
    method AppendPreviewPages(pageCount: int, previewUrl: int -> string, genId: int -> string)
      requires pageCount >= 1
      requires pagesId == [DefaultPage] && backsUrl == [previewUrl(1)] && backsSend == [false]
      modifies this`pagesId, this`backsUrl, this`backsSend
      ensures Aligned() && |pagesId| == pageCount
      ensures pagesId[0] == DefaultPage
      ensures forall k :: 1 <= k < pageCount ==> pagesId[k] == genId(k + 1)
      ensures forall k :: 0 <= k < pageCount ==> backsUrl[k] == previewUrl(k + 1) && !backsSend[k]
    {
      var i := 2;
      while i <= pageCount
        invariant 2 <= i <= pageCount + 1
        invariant |pagesId| == |backsUrl| == |backsSend| == i - 1
        invariant pagesId[0] == DefaultPage
        invariant forall k :: 1 <= k < i - 1 ==> pagesId[k] == genId(k + 1)
        invariant forall k :: 0 <= k < i - 1 ==> backsUrl[k] == previewUrl(k + 1) && !backsSend[k]
      {
        pagesId := pagesId + [genId(i)];
        backsUrl := backsUrl + [previewUrl(i)];
        backsSend := backsSend + [false];
        i := i + 1;
      }
    }

    /**
     * The answer to the signature request of `uploadFile`: a non-zero code reports
     * failure; otherwise the signature is kept for the upload and the preview.
     */
    method OnCosSignature(code: int, sig: string)
      modifies this`cosSign, this`notices
      ensures UploadFlow.SignatureOk(code) ==> cosSign == sig && notices == old(notices)
      ensures !UploadFlow.SignatureOk(code) ==>
        cosSign == old(cosSign) && notices == old(notices) + if hasCallback then [UploadResult(false)] else []
    {
      if !UploadFlow.SignatureOk(code) {
        Notify(UploadResult(false));
      } else {
        cosSign := sig;
      }
    }

    /**
     * The `uploadObject` completion callback for the object `objName`, whose direct
     * download URL is `downloadUrl`: progress is relayed, a failed upload is
     * reported, a successful one goes on to `PreviewFile`.
     */
    method OnUploadStatus(code: int, done: bool, objName: string, downloadUrl: string)
      requires Valid()
      requires |objName| < FileKind.NPos
      modifies this`pagesId, this`backsUrl, this`backsSend, this`pageIndex, this`board, this`notices, this`previews
      ensures Valid()
      ensures UploadFlow.UploadDispatch(code, done) != UploadFlow.StartPreview ==>
        && pagesId == old(pagesId) && backsUrl == old(backsUrl) && backsSend == old(backsSend)
        && pageIndex == old(pageIndex) && board == old(board) && previews == old(previews)
      ensures UploadFlow.UploadDispatch(code, done) == UploadFlow.ReportFailure ==>
        notices == old(notices) + if hasCallback then [UploadResult(false)] else []
      ensures UploadFlow.UploadDispatch(code, done).ReportProgress? ==>
        notices == old(notices) + if hasCallback then [UploadProgress(code)] else []
      ensures UploadFlow.UploadDispatch(code, done) == UploadFlow.StartPreview ==>
        if FileKind.IsTranscode(objName) then
          && pagesId == old(pagesId) && backsUrl == old(backsUrl) && backsSend == old(backsSend)
          && pageIndex == old(pageIndex) && board == old(board)
          && notices == old(notices) && previews == old(previews) + [objName]
        else
          && pagesId == [DefaultPage] && backsUrl == [downloadUrl] && backsSend == [false] && pageIndex == 0
          && board == old(board) + [PageOperate(DefaultPage, old(pagesId)[1..])] + GotoCalls(pagesId, backsUrl, backsSend, 0)
          && notices == old(notices) + (if hasCallback then [UploadResult(true)] else [])
          && previews == old(previews)
    {
      match UploadFlow.UploadDispatch(code, done)
      case ReportFailure =>
        Notify(UploadResult(false));
      case ReportProgress(percent) =>
        Notify(UploadProgress(percent));
      case StartPreview =>
        PreviewFile(objName, downloadUrl);
    }

    /**
     * `previewFile`: a file that needs no transcoding replaces the whole deck by
     * one default page showing `downloadUrl`; a document is sent to be transcoded
     * and the deck is rebuilt when `OnPreviewResult` receives the answer.
     */
    method PreviewFile(objName: string, downloadUrl: string)
      requires Valid()
      requires |objName| < FileKind.NPos
      modifies this`pagesId, this`backsUrl, this`backsSend, this`pageIndex, this`board, this`notices, this`previews
      ensures Valid()
      ensures FileKind.IsTranscode(objName) ==>
        && pagesId == old(pagesId) && backsUrl == old(backsUrl) && backsSend == old(backsSend)
        && pageIndex == old(pageIndex) && board == old(board)
        && notices == old(notices) && previews == old(previews) + [objName]
      ensures !FileKind.IsTranscode(objName) ==>
        && pagesId == [DefaultPage] && backsUrl == [downloadUrl] && backsSend == [false] && pageIndex == 0
        && board == old(board) + [PageOperate(DefaultPage, old(pagesId)[1..])] + GotoCalls(pagesId, backsUrl, backsSend, 0)
        && notices == old(notices) + (if hasCallback then [UploadResult(true)] else [])
        && previews == old(previews)
    {
      if !FileKind.IsTranscode(objName) {
        ShowDownload(downloadUrl);
        return;
      }
      previews := previews + [objName];
    }

    /**
     * The `previewObject` callback: with a positive page count the deck is rebuilt
     * with `pageCount` pages, page `k` showing preview page `k + 1` and all but
     * the first carrying a generated identifier (`genId(k + 1)`, built from the
     * user and the clock in the service); the board goes to page 0 and success is
     * reported. A count of zero or less leaves the deck alone and reports failure.
     */
    method OnPreviewResult(pageCount: int, previewUrl: int -> string, genId: int -> string)
      requires Valid()
      modifies this`pagesId, this`backsUrl, this`backsSend, this`pageIndex, this`board, this`notices
      ensures Valid()
      ensures pageCount <= 0 ==>
        && pagesId == old(pagesId) && backsUrl == old(backsUrl) && backsSend == old(backsSend)
        && pageIndex == old(pageIndex) && board == old(board)
        && notices == old(notices) + if hasCallback then [UploadResult(false)] else []
      ensures pageCount > 0 ==>
        && |pagesId| == pageCount && pageIndex == 0
        && pagesId[0] == DefaultPage
        && (forall k :: 1 <= k < pageCount ==> pagesId[k] == genId(k + 1))
        && (forall k :: 0 <= k < pageCount ==> backsUrl[k] == previewUrl(k + 1) && !backsSend[k])
        && board == old(board) + [PageOperate(DefaultPage, old(pagesId)[1..])] + GotoCalls(pagesId, backsUrl, backsSend, 0)
        && notices == old(notices) + if hasCallback then [UploadResult(true)] else []
    {
      if pageCount > 0 {
        ResetDeck(previewUrl(1));
        AppendPreviewPages(pageCount, previewUrl, genId);
        GotoPage(0);
        Notify(UploadResult(true));
      } else {
        Notify(UploadResult(false));
      }
    }
  }
}
