/**
 * The pending-upload list of the MediaUploader component
 * (src/components/MediaUploader.tsx). The `pendingFiles` React state is the
 * `pendingFiles` field of an Uploader object; each handler reassigns it.
 * The ids (`Date.now()` and `Math.random()`), the preview object URLs and the
 * outcome of each `uploadToS3` call are supplied by the caller.
 */
module MediaUploader {
  import opened Wrappers
  import opened JsText
  import opened Interface
  import opened MediaUtils

  /** The `acceptTypes` prop. */
  datatype AcceptTypes = AcceptImage | AcceptAudio | AcceptVideo | AcceptAll

  /** The MIME types offered by the file input for each `acceptTypes`; None stands for any type. */
  function AcceptList(a: AcceptTypes): Option<(MediaType, seq<string>)> {
    match a
    case AcceptImage => Some((Image, ["jpeg", "png", "gif", "webp"]))
    case AcceptAudio => Some((Audio, ["mpeg", "wav", "m4a", "mp4"]))
    case AcceptVideo => Some((Video, ["mp4", "quicktime"]))
    case AcceptAll => None
  }

  /** The full MIME types the attribute lists for a category (none for any type). */
  function AcceptParts(a: AcceptTypes): (r: seq<string>)
    ensures AcceptList(a).None? <==> r == []
    ensures AcceptList(a).Some? ==> |r| == |AcceptList(a).value.1|
    ensures AcceptList(a).Some? ==> forall k :: 0 <= k < |r| ==>
      r[k] == TopLevel(AcceptList(a).value.0) + AcceptList(a).value.1[k]
  {
    match AcceptList(a)
    case None => []
    case Some((t, subtypes)) => seq(|subtypes|, i requires 0 <= i < |subtypes| => TopLevel(t) + subtypes[i])
  }

  /**
   * `getAcceptAttribute()`: the wildcard exactly for any type, otherwise the
   * category's full types joined by commas, the first of them leading.
   */
  function AcceptAttribute(a: AcceptTypes): (r: string)
    ensures r == "*/*" <==> a == AcceptAll
    ensures a != AcceptAll ==> r == Join(AcceptParts(a), ",")
    ensures a != AcceptAll ==> StartsWith(r, TopLevel(AcceptList(a).value.0))
  {
    if a == AcceptAll then "*/*"
    else
      var top := TopLevel(AcceptList(a).value.0);
      var parts := AcceptParts(a);
      assert parts[0][..|top|] == top;
      StartsWithTrans(Join(parts, ","), parts[0], top);
      assert "*/*"[0] != top[0];
      Join(parts, ",")
  }

  /**
   * Every type the file input offers for a category is one `validateFile`
   * accepts in that category (audio and video offer fewer than are allowed).
   */
  lemma AcceptedTypesAreAllowed(a: AcceptTypes, k: nat)
    requires k < |AcceptParts(a)|
    ensures AcceptList(a).Some? && Classify(AcceptParts(a)[k]) == Some(AcceptList(a).value.0)
  {
    var (t, subtypes) := AcceptList(a).value;
    var mime := AcceptParts(a)[k];
    assert mime[..|TopLevel(t)|] == TopLevel(t);
    assert mime[|TopLevel(t)|..] == subtypes[k];
    assert subtypes[k] in Subtypes(t);
    ClassifyExact(mime, t);
  }

  /** `PendingFile` */
  datatype PendingFile = PendingFile(
    id: string,
    file: FileInfo,
    previewUrl: Option<string>,
    uploading: bool,
    uploadProgress: int,
    error: Option<string>,
    mediaItem: Option<StoredMedia>)

  /** The id and object URL handed out for one selected file. */
  datatype Handle = Handle(id: string, objectUrl: string)

  /** The entry pushed for a file that passed validation. */
  function NewEntry(file: FileInfo, h: Handle): PendingFile {
    PendingFile(h.id, file, if StartsWith(file.mimeType, "image/") then Some(h.objectUrl) else None, false, 0, None, None)
  }

  /** The files of a batch that pass `validateFile`, in input order. */
  function ValidFiles(files: seq<FileInfo>): (r: seq<FileInfo>)
    ensures |r| <= |files|
    ensures forall f :: f in r <==> f in files && Validation(f).valid
  {
    if files == [] then []
    else
      var last := files[|files| - 1];
      ValidFiles(files[..|files| - 1]) + if Validation(last).valid then [last] else []
  }

  /** A file `validateFile` accepts. */
  predicate Passes(f: FileInfo) {
    Validation(f).valid
  }

  /** A file `validateFile` refuses. */
  predicate Refused(f: FileInfo) {
    !Validation(f).valid
  }

  /** A file as itself: ValidFiles maps nothing. */
  function SameFile(f: FileInfo): FileInfo {
    f
  }

  /** ValidFiles is the filter by validation, mapping nothing. */
  lemma {:induction false} ValidFilesAreFilterMap(files: seq<FileInfo>)
    ensures ValidFiles(files) == FilterMap(files, Passes, SameFile)
  {
    if files != [] {
      ValidFilesAreFilterMap(files[..|files| - 1]);
    }
  }

  /**
   * ValidFiles is an order-keeping filter: its j-th file is the j-th file of
   * the batch that passes validation (Where gives the positions, all of them,
   * each once and in order).
   */
  lemma ValidFilesFilter(files: seq<FileInfo>)
    ensures |ValidFiles(files)| == |Where(files, Passes)|
    ensures forall j :: 0 <= j < |ValidFiles(files)| ==> ValidFiles(files)[j] == files[Where(files, Passes)[j]]
  {
    ValidFilesAreFilterMap(files);
    forall j | 0 <= j < |ValidFiles(files)| ensures ValidFiles(files)[j] == files[Where(files, Passes)[j]] {
      FilterMapAt(files, Passes, SameFile, j);
    }
  }

  /** `newPendingFiles` after the loop over a batch. */
  function NewEntries(files: seq<FileInfo>, handles: seq<Handle>): (r: seq<PendingFile>)
    requires |handles| == |files|
    ensures |r| == |ValidFiles(files)|
  {
    if files == [] then []
    else
      var n := |files| - 1;
      NewEntries(files[..n], handles[..n]) + if Validation(files[n]).valid then [NewEntry(files[n], handles[n])] else []
  }

  /** A file and its handle are kept when the file passes validation. */
  predicate PairPasses(p: (FileInfo, Handle)) {
    Passes(p.0)
  }

  /** The entry made for a file and its handle. */
  function PairEntry(p: (FileInfo, Handle)): PendingFile {
    NewEntry(p.0, p.1)
  }

  /** NewEntries filters the files paired with their handles and maps each kept pair to its entry. */
  lemma {:induction false} NewEntriesAreFilterMap(files: seq<FileInfo>, handles: seq<Handle>)
    requires |handles| == |files|
    ensures NewEntries(files, handles) == FilterMap(Zip(files, handles), PairPasses, PairEntry)
  {
    if files != [] {
      var n := |files| - 1;
      NewEntriesAreFilterMap(files[..n], handles[..n]);
      assert Zip(files, handles)[..n] == Zip(files[..n], handles[..n]);
    }
  }

  /**
   * The k-th new entry is made for the k-th file of the batch that passes
   * validation (Where gives its position p), with the id of handle p; it is
   * not uploading, at progress 0, without error or item, and has a preview
   * exactly when its type starts with `image/`.
   */
  lemma NewEntriesAt(files: seq<FileInfo>, handles: seq<Handle>, k: nat)
    requires |handles| == |files| && k < |Where(files, Passes)|
    ensures k < |NewEntries(files, handles)|
    ensures var p := Where(files, Passes)[k]; var e := NewEntries(files, handles)[k];
      e.file == files[p] && e.id == handles[p].id && e.id in HandleIds(handles)
      && !e.uploading && e.uploadProgress == 0 && e.error.None? && e.mediaItem.None?
      && (e.previewUrl.Some? <==> StartsWith(e.file.mimeType, "image/"))
  {
    var z := Zip(files, handles);
    NewEntriesAreFilterMap(files, handles);
    WhereAgree(files, Passes, z, PairPasses);
    FilterMapAt(z, PairPasses, PairEntry, k);
    var p := Where(files, Passes)[k];
    assert handles[p] in handles;
  }

  /** Distinct handles give entries with distinct ids. */
  lemma NewEntriesDistinct(files: seq<FileInfo>, handles: seq<Handle>)
    requires |handles| == |files| && DistinctHandles(handles)
    ensures DistinctIds(NewEntries(files, handles))
  {
    ValidFilesFilter(files);
    WhereMeaning(files, Passes);
    var all := NewEntries(files, handles);
    forall i, j | 0 <= i < j < |all| ensures all[i].id != all[j].id {
      NewEntriesAt(files, handles, i);
      NewEntriesAt(files, handles, j);
    }
  }

  /** The alert for a file that fails validation: its name, then its error message (a refused file always has one). */
  function RejectionAlert(f: FileInfo): string {
    f.name + ": " + match Validation(f).error case Some(e) => ErrorMessage(e) case None => ""
  }

  /** The alert shown for each file that fails validation, in input order. */
  function RejectionAlerts(files: seq<FileInfo>): (r: seq<string>)
    ensures |r| + |ValidFiles(files)| == |files|
  {
    if files == [] then []
    else
      var last := files[|files| - 1];
      RejectionAlerts(files[..|files| - 1]) + if Refused(last) then [RejectionAlert(last)] else []
  }

  /** The alerts are the refused files mapped to their alert, in input order. */
  lemma {:induction false} RejectionAlertsAreFilterMap(files: seq<FileInfo>)
    ensures RejectionAlerts(files) == FilterMap(files, Refused, RejectionAlert)
  {
    if files != [] {
      RejectionAlertsAreFilterMap(files[..|files| - 1]);
    }
  }

  /**
   * The alerts follow the refused files: there is one per refused file, and
   * the j-th alert names the j-th file of the batch that fails validation
   * (Where gives the positions, all of them, each once and in order) and
   * gives its error message.
   */
  lemma RejectionAlertsAt(files: seq<FileInfo>, j: nat)
    requires j < |Where(files, Refused)|
    ensures |RejectionAlerts(files)| == |Where(files, Refused)|
    ensures RejectionAlerts(files)[j] == RejectionAlert(files[Where(files, Refused)[j]])
  {
    RejectionAlertsAreFilterMap(files);
    FilterMapAt(files, Refused, RejectionAlert, j);
  }

  function TooManyFilesAlert(maxFiles: nat): string {
    "최대 " + NatToString(maxFiles) + "개 파일까지만 업로드할 수 있습니다."
  }

  predicate DistinctIds(s: seq<PendingFile>) {
    forall i, j :: 0 <= i < j < |s| ==> s[i].id != s[j].id
  }

  function HandleIds(handles: seq<Handle>): set<string> {
    set h | h in handles :: h.id
  }

  predicate DistinctHandles(handles: seq<Handle>) {
    forall i, j :: 0 <= i < j < |handles| ==> handles[i].id != handles[j].id
  }

  /** The handed-out ids are new: distinct from each other and from every pending entry. */
  predicate FreshIds(handles: seq<Handle>, pending: seq<PendingFile>) {
    DistinctHandles(handles) && forall e :: e in pending ==> e.id !in HandleIds(handles)
  }

  /**
   * The loop of `handleFileSelect` over an accepted batch: an entry for each
   * file that passes validation and an alert for each one that does not.
   */
  method BuildEntries(files: seq<FileInfo>, handles: seq<Handle>) returns (entries: seq<PendingFile>, alerts: seq<string>)
    requires |handles| == |files|
    ensures entries == NewEntries(files, handles)
    ensures alerts == RejectionAlerts(files)
  {
    entries := [];
    alerts := [];
    for i := 0 to |files|
      invariant entries == NewEntries(files[..i], handles[..i])
      invariant alerts == RejectionAlerts(files[..i])
    {
      assert files[..i + 1][..i] == files[..i];
      assert handles[..i + 1][..i] == handles[..i];
      var validation := ValidateFile(files[i]);
      if !validation.valid {
        alerts := alerts + [RejectionAlert(files[i])];
        continue;
      }
      var previewUrl: Option<string> := None;
      if StartsWith(files[i].mimeType, "image/") {
        previewUrl := Some(handles[i].objectUrl);
      }
      entries := entries + [PendingFile(handles[i].id, files[i], previewUrl, false, 0, None, None)];
    }
    assert files[..|files|] == files;
    assert handles[..|files|] == handles;
  }

  /** Appending the entries for fresh handles keeps the ids distinct. */
  lemma AppendKeepsDistinct(pending: seq<PendingFile>, files: seq<FileInfo>, handles: seq<Handle>)
    requires |handles| == |files|
    requires DistinctIds(pending) && FreshIds(handles, pending)
    ensures DistinctIds(pending + NewEntries(files, handles))
  {
    var added := NewEntries(files, handles);
    var all := pending + added;
    NewEntriesDistinct(files, handles);
    ValidFilesFilter(files);
    forall i, j | 0 <= i < j < |all| ensures all[i].id != all[j].id {
      if j >= |pending| && i < |pending| {
        assert all[i] in pending;
        NewEntriesAt(files, handles, j - |pending|);
      } else if i >= |pending| {
        assert all[i] == added[i - |pending|] && all[j] == added[j - |pending|];
      }
    }
  }

  // ---------------------------------------------------------------------------
  // Status updates
  // ---------------------------------------------------------------------------

  /** The four per-entry updates `uploadAll` makes. */
  datatype StatusUpdate = Started | Progress(percentage: int) | Completed(item: StoredMedia) | Failed(message: string)

  /** The spread `{ ...f, ... }` for one update. */
  function Apply(f: PendingFile, u: StatusUpdate): (r: PendingFile)
    ensures r.id == f.id && r.file == f.file && r.previewUrl == f.previewUrl
    ensures u.Started? ==> r.uploading && r.error.None?
    ensures u.Completed? ==> !r.uploading && r.uploadProgress == 100 && r.mediaItem == Some(u.item)
    ensures u.Failed? ==> !r.uploading && r.error == Some(u.message)
  {
    match u
    case Started => f.(uploading := true, error := None)
    case Progress(p) => f.(uploadProgress := p)
    case Completed(item) => f.(uploading := false, uploadProgress := 100, mediaItem := Some(item))
    case Failed(message) => f.(uploading := false, error := Some(message))
  }

  /** `prev.map((f) => f.id === id ? update(f) : f)` */
  function UpdateById(s: seq<PendingFile>, id: string, u: StatusUpdate): (r: seq<PendingFile>)
    ensures |r| == |s|
  {
    if s == [] then []
    else
      var last := s[|s| - 1];
      UpdateById(s[..|s| - 1], id, u) + [if last.id == id then Apply(last, u) else last]
  }

  /** Entry k is updated exactly when it has the id, and stays where it was. */
  lemma {:induction false} UpdateByIdAt(s: seq<PendingFile>, id: string, u: StatusUpdate, k: nat)
    requires k < |s|
    ensures UpdateById(s, id, u)[k] == if s[k].id == id then Apply(s[k], u) else s[k]
  {
    if k < |s| - 1 {
      UpdateByIdAt(s[..|s| - 1], id, u, k);
    }
  }

  /** With distinct ids an update touches exactly one entry. */
  lemma UpdateOne(s: seq<PendingFile>, k: nat, u: StatusUpdate)
    requires DistinctIds(s) && k < |s|
    ensures UpdateById(s, s[k].id, u) == s[k := Apply(s[k], u)]
    ensures DistinctIds(UpdateById(s, s[k].id, u))
  {
    var r := UpdateById(s, s[k].id, u);
    forall m | 0 <= m < |s| ensures r[m] == s[k := Apply(s[k], u)][m] {
      UpdateByIdAt(s, s[k].id, u, m);
    }
  }

  /** `prev.filter((f) => f.id !== id)` */
  function WithoutId(s: seq<PendingFile>, id: string): (r: seq<PendingFile>)
    ensures |r| <= |s|
  {
    if s == [] then []
    else
      var last := s[|s| - 1];
      WithoutId(s[..|s| - 1], id) + if last.id == id then [] else [last]
  }

  /** Exactly the entries with other ids remain. */
  lemma {:induction false} WithoutMembers(s: seq<PendingFile>, id: string, e: PendingFile)
    ensures e in WithoutId(s, id) <==> e in s && e.id != id
  {
    if s != [] {
      WithoutMembers(s[..|s| - 1], id, e);
      assert s == s[..|s| - 1] + [s[|s| - 1]];
    }
  }

  /** Removing an id no entry has changes nothing. */
  lemma {:induction false} WithoutAbsent(s: seq<PendingFile>, id: string)
    requires forall e :: e in s ==> e.id != id
    ensures WithoutId(s, id) == s
  {
    if s != [] {
      WithoutAbsent(s[..|s| - 1], id);
      assert s == s[..|s| - 1] + [s[|s| - 1]];
    }
  }

  /** With distinct ids, removing the id of entry k cuts out entry k and keeps the rest in order. */
  lemma {:induction false} WithoutCutsOne(s: seq<PendingFile>, k: nat)
    requires DistinctIds(s) && k < |s|
    ensures WithoutId(s, s[k].id) == s[..k] + s[k + 1..]
  {
    var n := |s| - 1;
    var id := s[k].id;
    var init := s[..n];
    assert DistinctIds(init);
    if k == n {
      assert WithoutId(s, id) == WithoutId(init, id);
      WithoutAbsent(init, id);
    } else {
      assert s[n].id != id;
      assert WithoutId(s, id) == WithoutId(init, id) + [s[n]];
      assert init[k] == s[k];
      WithoutCutsOne(init, k);
      assert init[..k] == s[..k];
      assert init[k + 1..] == s[k + 1..n];
      assert s[k + 1..] == s[k + 1..n] + [s[n]];
    }
  }

  /** The outcomes of a batch of uploads that succeeded, in order. */
  function Successes(outcomes: seq<Result<StoredMedia, string>>): (r: seq<StoredMedia>)
    ensures |r| <= |outcomes|
  {
    if outcomes == [] then []
    else
      var last := outcomes[|outcomes| - 1];
      Successes(outcomes[..|outcomes| - 1]) + if last.Success? then [last.value] else []
  }

  /** Nothing is delivered exactly when every upload failed. */
  lemma {:induction false} SuccessesEmpty(outcomes: seq<Result<StoredMedia, string>>)
    ensures Successes(outcomes) == [] <==> forall k :: 0 <= k < |outcomes| ==> outcomes[k].Failure?
  {
    if outcomes != [] {
      var n := |outcomes| - 1;
      SuccessesEmpty(outcomes[..n]);
      assert forall k :: 0 <= k < n ==> outcomes[..n][k] == outcomes[k];
    }
  }

  /** Settling one more upload adds its item, if it succeeded, at the end. */
  lemma SuccessesSnoc(outcomes: seq<Result<StoredMedia, string>>, i: nat)
    requires i < |outcomes|
    ensures Successes(outcomes[..i + 1])
      == Successes(outcomes[..i]) + if outcomes[i].Success? then [outcomes[i].value] else []
  {
    assert outcomes[..i + 1][..i] == outcomes[..i];
  }

  /** What an entry looks like after its upload was started and then settled. */
  function Settle(f: PendingFile, outcome: Result<StoredMedia, string>): PendingFile {
    Apply(Apply(f, Started), Finished(outcome))
  }

  /** The update that ends an upload with the given outcome. */
  function Finished(outcome: Result<StoredMedia, string>): StatusUpdate {
    if outcome.Success? then Completed(outcome.value) else Failed(outcome.error)
  }

  /** Replacing an entry by one with the same id keeps the ids distinct. */
  lemma SameIdDistinct(s: seq<PendingFile>, k: nat, x: PendingFile)
    requires DistinctIds(s) && k < |s| && x.id == s[k].id
    ensures DistinctIds(s[k := x])
  {
    var r := s[k := x];
    forall i, j | 0 <= i < j < |r| ensures r[i].id != r[j].id {
      assert r[i].id == s[i].id && r[j].id == s[j].id;
    }
  }

  /** A second write to the same position wins. */
  lemma OverwriteTwice(s: seq<PendingFile>, k: nat, first: PendingFile, second: PendingFile)
    requires k < |s|
    ensures s[k := first][k := second] == s[k := second]
  {
  }

  /**
   * With distinct ids, the two updates of one upload task, made by id,
   * settle exactly that entry.
   */
  lemma SettleById(s: seq<PendingFile>, k: nat, outcome: Result<StoredMedia, string>)
    requires DistinctIds(s) && k < |s|
    ensures UpdateById(UpdateById(s, s[k].id, Started), s[k].id, Finished(outcome)) == s[k := Settle(s[k], outcome)]
  {
    var id := s[k].id;
    var u := Finished(outcome);
    var started := UpdateById(s, id, Started);
    assert started == s[k := Apply(s[k], Started)] by {
      UpdateOne(s, k, Started);
    }
    assert started[k].id == id;
    var settled := UpdateById(started, id, u);
    assert settled == started[k := Apply(started[k], u)] by {
      SameIdDistinct(s, k, Apply(s[k], Started));
      UpdateOne(started, k, u);
    }
    assert Apply(started[k], u) == Settle(s[k], outcome);
    OverwriteTwice(s, k, Apply(s[k], Started), Settle(s[k], outcome));
  }

  /** The list after every upload settled, before any clean-up. */
  function SettleAll(s: seq<PendingFile>, outcomes: seq<Result<StoredMedia, string>>): (r: seq<PendingFile>)
    requires |outcomes| == |s|
    ensures |r| == |s|
    ensures forall k :: 0 <= k < |s| ==> r[k] == Settle(s[k], outcomes[k])
  {
    seq(|s|, k requires 0 <= k < |s| => Settle(s[k], outcomes[k]))
  }

  /** When every upload failed, each entry is kept, no longer uploading, holding its error message. */
  lemma AllFailedKeepsEntries(s: seq<PendingFile>, outcomes: seq<Result<StoredMedia, string>>, k: nat)
    requires |outcomes| == |s| && Successes(outcomes) == [] && k < |s|
    ensures SettleAll(s, outcomes)[k].id == s[k].id && SettleAll(s, outcomes)[k].file == s[k].file
    ensures !SettleAll(s, outcomes)[k].uploading
    ensures outcomes[k].Failure? && SettleAll(s, outcomes)[k].error == Some(outcomes[k].error)
  {
    SuccessesEmpty(outcomes);
  }

  /** How `handleFileSelect` ended. */
  datatype SelectOutcome = NothingSelected | TooManyFiles(alert: string) | Added(alerts: seq<string>)

  class Uploader {
    const maxFiles: nat
    const acceptTypes: AcceptTypes
    var pendingFiles: seq<PendingFile>

    ghost predicate Valid()
      reads this
    {
      DistinctIds(pendingFiles)
    }

    constructor (maxFiles: nat, acceptTypes: AcceptTypes)
      ensures Valid()
      ensures this.maxFiles == maxFiles && this.acceptTypes == acceptTypes && pendingFiles == []
    {
      this.maxFiles := maxFiles;
      this.acceptTypes := acceptTypes;
      pendingFiles := [];
    }

    /**
     * `handleFileSelect`: an absent or empty selection is ignored; a batch
     * that would take the list past `maxFiles` (counted before validation) is
     * refused whole; otherwise the files that pass validation are appended.
     */
    method HandleFileSelect(files: Option<seq<FileInfo>>, handles: seq<Handle>) returns (outcome: SelectOutcome)
      requires Valid()
      requires files.Some? ==> |handles| == |files.value|
      requires FreshIds(handles, pendingFiles)
      modifies this
      ensures Valid()
      ensures files.None? || files.value == [] ==>
        outcome == NothingSelected && pendingFiles == old(pendingFiles)
      ensures files.Some? && files.value != [] && |old(pendingFiles)| + |files.value| > maxFiles ==>
        outcome == TooManyFiles(TooManyFilesAlert(maxFiles)) && pendingFiles == old(pendingFiles)
      ensures files.Some? && files.value != [] && |old(pendingFiles)| + |files.value| <= maxFiles ==>
        outcome == Added(RejectionAlerts(files.value))
        && pendingFiles == old(pendingFiles) + NewEntries(files.value, handles)
      ensures |old(pendingFiles)| <= maxFiles ==> |pendingFiles| <= maxFiles
    {
      if files.None? || |files.value| == 0 {
        return NothingSelected;
      }
      var fileArray := files.value;
      if |pendingFiles| + |fileArray| > maxFiles {
        return TooManyFiles(TooManyFilesAlert(maxFiles));
      }
      var newPendingFiles, alerts := BuildEntries(fileArray, handles);
      AppendKeepsDistinct(pendingFiles, fileArray, handles);
      if |newPendingFiles| > 0 {
        pendingFiles := pendingFiles + newPendingFiles;
      }
      return Added(alerts);
    }

    /** `removeFile(id)` */
    method RemoveFile(id: string)
      requires Valid()
      modifies this
      ensures Valid()
      ensures pendingFiles == WithoutId(old(pendingFiles), id)
    {
      pendingFiles := WithoutId(pendingFiles, id);
      forall i, j | 0 <= i < j < |pendingFiles| ensures pendingFiles[i].id != pendingFiles[j].id {
        WithoutKeepsDistinct(old(pendingFiles), id, i, j);
      }
    }

    /** One of the `setPendingFiles(prev => prev.map(...))` updates of `uploadAll`. */
    method UpdateStatus(id: string, u: StatusUpdate)
      requires Valid()
      modifies this
      ensures Valid()
      ensures pendingFiles == UpdateById(old(pendingFiles), id, u)
    {
      var before := pendingFiles;
      pendingFiles := UpdateById(pendingFiles, id, u);
      forall m | 0 <= m < |before| ensures pendingFiles[m].id == before[m].id {
        UpdateByIdAt(before, id, u, m);
      }
    }

    /**
     * The per-file task of `uploadAll`: entry k is marked uploading, then
     * completed with its stored item or failed with the error message.
     */
    method UploadOne(k: nat, outcome: Result<StoredMedia, string>)
      requires Valid() && k < |pendingFiles|
      modifies this
      ensures Valid()
      ensures pendingFiles == old(pendingFiles)[k := Settle(old(pendingFiles)[k], outcome)]
    {
      var id := pendingFiles[k].id;
      SettleById(pendingFiles, k, outcome);
      SameIdDistinct(pendingFiles, k, Settle(pendingFiles[k], outcome));
      pendingFiles := UpdateById(pendingFiles, id, Started);
      pendingFiles := UpdateById(pendingFiles, id, Finished(outcome));
    }

    /** Runs the per-file task for every entry, in order. */
    method UploadEach(outcomes: seq<Result<StoredMedia, string>>) returns (delivered: seq<StoredMedia>)
      requires Valid()
      requires |outcomes| == |pendingFiles|
      modifies this
      ensures Valid()
      ensures delivered == Successes(outcomes)
      ensures pendingFiles == SettleAll(old(pendingFiles), outcomes)
    {
      ghost var snapshot := pendingFiles;
      delivered := [];
      for i := 0 to |outcomes|
        invariant Valid()
        invariant |pendingFiles| == |snapshot|
        invariant forall k :: 0 <= k < |snapshot| ==>
          pendingFiles[k] == if k < i then Settle(snapshot[k], outcomes[k]) else snapshot[k]
        invariant delivered == Successes(outcomes[..i])
      {
        SuccessesSnoc(outcomes, i);
        UploadOne(i, outcomes[i]);
        if outcomes[i].Success? {
          delivered := delivered + [outcomes[i].value];
        }
      }
      assert outcomes[..|outcomes|] == outcomes;
    }

    /**
     * `uploadAll`, with the uploads run one after the other: each entry is
     * marked uploading, then complete or failed by its outcome. The successful
     * uploads are handed to `onUploadComplete` (returned here) and only then
     * is the list cleared; when every upload failed the entries stay.
     */
    method UploadAll(outcomes: seq<Result<StoredMedia, string>>) returns (delivered: seq<StoredMedia>)
      requires Valid()
      requires |outcomes| == |pendingFiles|
      modifies this
      ensures Valid()
      ensures delivered == Successes(outcomes)
      ensures old(pendingFiles) == [] ==> delivered == [] && pendingFiles == []
      ensures delivered != [] ==> pendingFiles == []
      ensures delivered == [] ==> pendingFiles == SettleAll(old(pendingFiles), outcomes)
    {
      if |pendingFiles| == 0 {
        return [];
      }
      delivered := UploadEach(outcomes);
      if |delivered| > 0 {
        pendingFiles := [];
      }
    }

    /** `clearAll` */
    method ClearAll()
      modifies this
      ensures Valid()
      ensures pendingFiles == []
    {
      pendingFiles := [];
    }
  }

  /** Removing the entries with one id leaves the remaining ids distinct. */
  lemma {:induction false} WithoutKeepsDistinct(s: seq<PendingFile>, id: string, i: nat, j: nat)
    requires DistinctIds(s) && i < j < |WithoutId(s, id)|
    ensures WithoutId(s, id)[i].id != WithoutId(s, id)[j].id
  {
    var n := |s| - 1;
    var prior := WithoutId(s[..n], id);
    assert DistinctIds(s[..n]);
    if j < |prior| {
      WithoutKeepsDistinct(s[..n], id, i, j);
    } else {
      assert WithoutId(s, id)[j] == s[n];
      assert WithoutId(s, id)[i] in prior;
      WithoutMembers(s[..n], id, WithoutId(s, id)[i]);
    }
  }
}
