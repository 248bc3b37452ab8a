/**
 * The selection kept by the MediaPickerModal component
 * (src/components/MediaPickerModal.tsx). The `selectedMedia` React state is
 * the `selected` field of a Picker object. The object URLs, the responses of
 * the `/upload` endpoint and the `onOpenChange(false)` callback are supplied
 * by, or reported to, the caller.
 */
module MediaPickerModal {
  import opened Wrappers
  import opened JsText
  import opened Interface
  import opened MediaUtils

  /** One picked file: its kind is always Image or Video. */
  datatype MediaFile = MediaFile(file: FileInfo, kind: MediaType, previewUrl: string)

  /** The kind a file is picked as, by the prefix of its MIME type; None when it is not picked. */
  function PickKind(mimeType: string): (r: Option<MediaType>)
    ensures r == Some(Image) <==> StartsWith(mimeType, "image/")
    ensures r == Some(Video) <==> StartsWith(mimeType, "video/") && !StartsWith(mimeType, "image/")
    ensures r.None? || r == Some(Image) || r == Some(Video)
  {
    if StartsWith(mimeType, "image/") then Some(Image)
    else if StartsWith(mimeType, "video/") then Some(Video)
    else None
  }

  predicate Pickable(m: MediaFile) {
    m.kind == Image || m.kind == Video
  }

  predicate AllPickable(s: seq<MediaFile>) {
    forall k :: 0 <= k < |s| ==> Pickable(s[k])
  }

  /**
   * The `mediaFiles` array `handleFileSelect` builds: the image and video
   * files, in input order, each with the object URL made for it.
   */
  function PickedFiles(files: seq<FileInfo>, urls: seq<string>): (r: seq<MediaFile>)
    requires |urls| == |files|
    ensures |r| <= |files|
    ensures AllPickable(r)
  {
    if files == [] then []
    else
      var n := |files| - 1;
      PickedFiles(files[..n], urls[..n])
        + match PickKind(files[n].mimeType)
          case None => []
          case Some(kind) => [MediaFile(files[n], kind, urls[n])]
  }

  /** A file is picked exactly when its type starts with `image/` or `video/`. */
  lemma {:induction false} PickedFilesEmpty(files: seq<FileInfo>, urls: seq<string>)
    requires |urls| == |files|
    ensures PickedFiles(files, urls) == []
      <==> forall k :: 0 <= k < |files| ==> PickKind(files[k].mimeType).None?
  {
    if files != [] {
      var n := |files| - 1;
      PickedFilesEmpty(files[..n], urls[..n]);
      assert forall k :: 0 <= k < n ==> files[..n][k] == files[k];
    }
  }

  /** Every picked file keeps its file and takes the kind its MIME type names. */
  lemma {:induction false} PickedFilesKinds(files: seq<FileInfo>, urls: seq<string>, j: nat)
    requires |urls| == |files| && j < |PickedFiles(files, urls)|
    ensures PickKind(PickedFiles(files, urls)[j].file.mimeType) == Some(PickedFiles(files, urls)[j].kind)
  {
    var n := |files| - 1;
    if j < |PickedFiles(files[..n], urls[..n])| {
      PickedFilesKinds(files[..n], urls[..n], j);
    }
  }

  /** The files `handleFileSelect` keeps: those whose type names a kind. */
  predicate IsMedia(f: FileInfo) {
    PickKind(f.mimeType).Some?
  }

  /**
   * `handleFileSelect` is a filter: the j-th picked entry is the j-th image
   * or video file of the input (Where gives the positions, all of them and in
   * order), with its kind and its own object URL.
   */
  lemma {:induction false} PickedFilesFilter(files: seq<FileInfo>, urls: seq<string>)
    requires |urls| == |files|
    ensures |PickedFiles(files, urls)| == |Where(files, IsMedia)|
    ensures forall j :: 0 <= j < |PickedFiles(files, urls)| ==>
      var k := Where(files, IsMedia)[j];
      var m := PickedFiles(files, urls)[j];
      m.file == files[k] && Some(m.kind) == PickKind(files[k].mimeType) && m.previewUrl == urls[k]
  {
    if files != [] {
      var n := |files| - 1;
      var prior := PickedFiles(files[..n], urls[..n]);
      var at := Where(files[..n], IsMedia);
      PickedFilesFilter(files[..n], urls[..n]);
      assert Where(files, IsMedia) == at + if IsMedia(files[n]) then [n] else [];
      forall j | 0 <= j < |prior|
        ensures PickedFiles(files, urls)[j] == prior[j]
        ensures files[..n][at[j]] == files[at[j]] && urls[..n][at[j]] == urls[at[j]]
      {
      }
    }
  }

  /** The alert shown when nothing in the selection is an image or a video. */
  const NoMediaAlert: string := "이미지 또는 동영상 파일만 선택할 수 있습니다."

  /** The alert shown when an upload request fails. */
  const UploadFailedAlert: string := "미디어 업로드에 실패했습니다. 다시 시도해주세요."

  /** How many entries of s are of the given kind. */
  function CountKind(s: seq<MediaFile>, kind: MediaType): (r: nat)
    ensures r <= |s|
  {
    if s == [] then 0
    else CountKind(s[..|s| - 1], kind) + if s[|s| - 1].kind == kind then 1 else 0
  }

  /** The "n개의 이미지, m개의 동영상" counts add up to the length of the selection. */
  lemma {:induction false} CountsCoverSelection(s: seq<MediaFile>)
    requires AllPickable(s)
    ensures CountKind(s, Image) + CountKind(s, Video) == |s|
  {
    if s != [] {
      var n := |s| - 1;
      assert forall k :: 0 <= k < n ==> s[..n][k] == s[k];
      CountsCoverSelection(s[..n]);
    }
  }

  // ---------------------------------------------------------------------------
  // Uploading
  // ---------------------------------------------------------------------------

  /** The body of a `/upload` response: its `ok` flag and its `url` (None when absent). */
  datatype UploadBody = UploadBody(ok: bool, url: Option<string>)

  /**
   * One `/upload` response: the HTTP `response.ok` and the parsed JSON body
   * (None when `response.json()` throws).
   */
  datatype UploadResponse = UploadResponse(httpOk: bool, body: Option<UploadBody>)

  /** The request went through: the status was OK and the body parsed. */
  predicate Answered(r: UploadResponse) {
    r.httpOk && r.body.Some?
  }

  /** `data.ok && data.url`: the body reports success and carries a non-empty url. */
  predicate CarriesUrl(b: UploadBody) {
    b.ok && b.url.Some? && b.url.value != ""
  }

  /** The url an answer carries, or "" when it carries none. */
  function UrlOf(r: UploadResponse): string {
    if r.body.Some? && r.body.value.url.Some? then r.body.value.url.value else ""
  }

  /** The MediaItem sent for an uploaded file. */
  function ToMediaItem(m: MediaFile, url: string): MediaItem {
    MediaItem(m.kind, url, Some(m.file.name), Some(m.file.size), None, None, None)
  }

  /**
   * The list `handleUploadAndSend` hands to `onSend`, or None when some request
   * throws: an item for every file whose answer carries a url, in order.
   */
  function Uploaded(sel: seq<MediaFile>, responses: seq<UploadResponse>): (r: Option<seq<MediaItem>>)
    requires |responses| == |sel|
    ensures r.Some? ==> |r.value| <= |sel|
  {
    if sel == [] then Some([])
    else
      var n := |sel| - 1;
      match Uploaded(sel[..n], responses[..n])
      case None => None
      case Some(items) =>
        if !Answered(responses[n]) then None
        else if CarriesUrl(responses[n].body.value) then Some(items + [ToMediaItem(sel[n], UrlOf(responses[n]))])
        else Some(items)
  }

  /** The send goes through exactly when every request is answered. */
  lemma {:induction false} UploadedAllOrNothing(sel: seq<MediaFile>, responses: seq<UploadResponse>)
    requires |responses| == |sel|
    ensures Uploaded(sel, responses).Some? <==> forall k :: 0 <= k < |sel| ==> Answered(responses[k])
  {
    if sel != [] {
      var n := |sel| - 1;
      UploadedAllOrNothing(sel[..n], responses[..n]);
      assert forall k :: 0 <= k < n ==> responses[..n][k] == responses[k];
    }
  }

  /** When every answer carries a url, one item is sent per selected file, with that file's url and kind. */
  lemma {:induction false} UploadedEveryFile(sel: seq<MediaFile>, responses: seq<UploadResponse>)
    requires |responses| == |sel|
    requires forall k :: 0 <= k < |sel| ==> Answered(responses[k]) && CarriesUrl(responses[k].body.value)
    ensures Uploaded(sel, responses).Some?
    ensures |Uploaded(sel, responses).value| == |sel|
    ensures forall k :: 0 <= k < |sel| ==>
      Uploaded(sel, responses).value[k] == ToMediaItem(sel[k], UrlOf(responses[k]))
  {
    if sel != [] {
      var n := |sel| - 1;
      assert forall k :: 0 <= k < n ==> responses[..n][k] == responses[k] && sel[..n][k] == sel[k];
      UploadedEveryFile(sel[..n], responses[..n]);
    }
  }

  /** An answer whose body reports success with a url. */
  predicate Delivers(r: UploadResponse) {
    Answered(r) && CarriesUrl(r.body.value)
  }

  /**
   * When every request is answered, the items sent are exactly those for the
   * files whose answer carries a url (Where gives their positions), in order.
   */
  lemma {:induction false} UploadedDelivered(sel: seq<MediaFile>, responses: seq<UploadResponse>)
    requires |responses| == |sel|
    requires forall k :: 0 <= k < |sel| ==> Answered(responses[k])
    ensures Uploaded(sel, responses).Some?
    ensures |Uploaded(sel, responses).value| == |Where(responses, Delivers)|
    ensures forall j :: 0 <= j < |Uploaded(sel, responses).value| ==>
      var k := Where(responses, Delivers)[j];
      Uploaded(sel, responses).value[j] == ToMediaItem(sel[k], UrlOf(responses[k]))
  {
    if sel != [] {
      var n := |sel| - 1;
      var at := Where(responses[..n], Delivers);
      assert forall k :: 0 <= k < n ==> responses[..n][k] == responses[k];
      UploadedDelivered(sel[..n], responses[..n]);
      var prior := Uploaded(sel[..n], responses[..n]).value;
      assert Where(responses, Delivers) == at + if Delivers(responses[n]) then [n] else [];
      forall j | 0 <= j < |prior|
        ensures Uploaded(sel, responses).value[j] == ToMediaItem(sel[at[j]], UrlOf(responses[at[j]]))
      {
        assert sel[..n][at[j]] == sel[at[j]] && responses[..n][at[j]] == responses[at[j]];
      }
    }
  }

  /** A failed request anywhere makes the whole send fail, whatever came after it. */
  lemma {:induction false} UploadedFailureSticks(sel: seq<MediaFile>, responses: seq<UploadResponse>, i: nat)
    requires |responses| == |sel| && i <= |sel|
    requires Uploaded(sel[..i], responses[..i]).None?
    ensures Uploaded(sel, responses).None?
  {
    if i < |sel| {
      var n := |sel| - 1;
      assert sel[..n][..i] == sel[..i] && responses[..n][..i] == responses[..i];
      UploadedFailureSticks(sel[..n], responses[..n], i);
    } else {
      assert sel[..i] == sel && responses[..i] == responses;
    }
  }

  /** How `handleUploadAndSend` ended. */
  datatype SendOutcome = NothingToSend | Sent(items: seq<MediaItem>) | SendFailed(alert: string)

  class Picker {
    var selected: seq<MediaFile>

    ghost predicate Valid()
      reads this
    {
      AllPickable(selected)
    }

    constructor ()
      ensures Valid() && selected == []
    {
      selected := [];
    }

    /**
     * `handleFileSelect`: an absent file list is ignored; a list with no image
     * or video raises the alert and changes nothing; otherwise the picked files
     * are appended. `urls[k]` is the object URL made for `files[k]`.
     */
    method HandleFileSelect(files: Option<seq<FileInfo>>, urls: seq<string>) returns (alert: Option<string>)
      requires Valid()
      requires files.Some? ==> |urls| == |files.value|
      modifies this
      ensures Valid()
      ensures files.None? ==> alert.None? && selected == old(selected)
      ensures files.Some? && PickedFiles(files.value, urls) == [] ==>
        alert == Some(NoMediaAlert) && selected == old(selected)
      ensures files.Some? && PickedFiles(files.value, urls) != [] ==>
        alert.None? && selected == old(selected) + PickedFiles(files.value, urls)
    {
      if files.None? {
        return None;
      }
      var fs := files.value;
      var mediaFiles: seq<MediaFile> := [];
      for i := 0 to |fs|
        invariant selected == old(selected)
        invariant mediaFiles == PickedFiles(fs[..i], urls[..i])
      {
        assert fs[..i + 1][..i] == fs[..i];
        assert urls[..i + 1][..i] == urls[..i];
        if StartsWith(fs[i].mimeType, "image/") {
          mediaFiles := mediaFiles + [MediaFile(fs[i], Image, urls[i])];
        } else if StartsWith(fs[i].mimeType, "video/") {
          mediaFiles := mediaFiles + [MediaFile(fs[i], Video, urls[i])];
        }
      }
      assert fs[..|fs|] == fs && urls[..|fs|] == urls;
      if |mediaFiles| == 0 {
        return Some(NoMediaAlert);
      }
      selected := selected + mediaFiles;
      return None;
    }

    /** `handleRemoveMedia(index)`: entry `index` goes, the others keep their order. */
    method HandleRemoveMedia(index: nat)
      requires Valid() && index < |selected|
      modifies this
      ensures Valid()
      ensures |selected| == |old(selected)| - 1
      ensures selected == old(selected)[..index] + old(selected)[index + 1..]
    {
      selected := selected[..index] + selected[index + 1..];
    }

    /**
     * `handleUploadAndSend`, the files uploaded one after the other.
     * `responses[k]` is the answer to the request for `selected[k]`. On success
     * the items go to `onSend`, the selection is cleared and the modal asks to
     * close; a failed request raises the alert and keeps the selection.
     */
    method HandleUploadAndSend(responses: seq<UploadResponse>) returns (outcome: SendOutcome, closeRequested: bool)
      requires Valid()
      requires |responses| == |selected|
      modifies this
      ensures Valid()
      ensures old(selected) == [] ==> outcome == NothingToSend && !closeRequested && selected == []
      ensures old(selected) != [] && Uploaded(old(selected), responses).Some? ==>
        outcome == Sent(Uploaded(old(selected), responses).value) && closeRequested && selected == []
      ensures old(selected) != [] && Uploaded(old(selected), responses).None? ==>
        outcome == SendFailed(UploadFailedAlert) && !closeRequested && selected == old(selected)
    {
      if |selected| == 0 {
        return NothingToSend, false;
      }
      var uploadedMedia: seq<MediaItem> := [];
      for i := 0 to |selected|
        invariant Uploaded(selected[..i], responses[..i]) == Some(uploadedMedia)
      {
        assert selected[..i + 1][..i] == selected[..i];
        assert responses[..i + 1][..i] == responses[..i];
        var response := responses[i];
        if !response.httpOk || response.body.None? {
          UploadedFailureSticks(selected, responses, i + 1);
          return SendFailed(UploadFailedAlert), false;
        }
        var data := response.body.value;
        if data.ok && data.url.Some? && data.url.value != "" {
          uploadedMedia := uploadedMedia + [ToMediaItem(selected[i], data.url.value)];
        }
      }
      assert selected[..|selected|] == selected && responses[..|selected|] == responses;
      selected := [];
      return Sent(uploadedMedia), true;
    }

    /** `handleClose`: the selection is dropped and the modal asks to close. */
    method HandleClose() returns (closeRequested: bool)
      modifies this
      ensures Valid() && selected == [] && closeRequested
    {
      selected := [];
      return true;
    }
  }
}
