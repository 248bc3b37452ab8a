/**
 * File validation, the validation guard of the S3 upload, and duration
 * formatting (src/lib/media-utils.ts).
 */
module MediaUtils {
  import opened Wrappers
  import opened JsText
  import opened Interface

  /** A browser `File`: its name, MIME type (`file.type`) and size in bytes. */
  datatype FileInfo = FileInfo(name: string, mimeType: string, size: nat)

  /** 1024 · 1024 bytes. */
  const MiB: nat := 1048576

  /** `MAX_FILE_SIZE`, in bytes. */
  function MaxFileSize(t: MediaType): nat {
    match t
    case Image => 5 * MiB
    case Audio => 10 * MiB
    case Video => 100 * MiB
    case File => 10 * MiB
  }

  /**
   * `ALLOWED_MIME_TYPES`. Every list keeps to one top-level type, so a list is
   * written here as that top-level type and its subtypes: the image list is
   * image/jpeg, image/png, image/gif and image/webp, and so on.
   */
  function TopLevel(t: MediaType): string {
    match t
    case Image => "image/"
    case Audio => "audio/"
    case Video => "video/"
    case File => "application/"
  }

  function Subtypes(t: MediaType): seq<string> {
    match t
    case Image => ["jpeg", "png", "gif", "webp"]
    case Audio => ["mpeg", "wav", "m4a", "mp4", "x-m4a", "webm"]
    case Video => ["mp4", "quicktime", "x-msvideo"]
    case File => ["pdf", "msword", "vnd.openxmlformats-officedocument.wordprocessingml.document"]
  }

  /** The full MIME strings of a category's list, in the order written. */
  function AllowedMimeTypes(t: MediaType): (r: seq<string>)
    ensures |r| == |Subtypes(t)|
  {
    seq(|Subtypes(t)|, i requires 0 <= i < |Subtypes(t)| => TopLevel(t) + Subtypes(t)[i])
  }

  /** `ALLOWED_MIME_TYPES[t].includes(mime)` */
  predicate Allows(t: MediaType, mime: string) {
    StartsWith(mime, TopLevel(t)) && mime[|TopLevel(t)|..] in Subtypes(t)
  }

  /** Allows is exactly membership in the list of full strings. */
  lemma AllowsIsMember(t: MediaType, mime: string)
    ensures Allows(t, mime) <==> mime in AllowedMimeTypes(t)
  {
    var p := TopLevel(t);
    if Allows(t, mime) {
      var i :| 0 <= i < |Subtypes(t)| && Subtypes(t)[i] == mime[|p|..];
      assert mime == p + mime[|p|..];
      assert AllowedMimeTypes(t)[i] == mime;
    }
    if mime in AllowedMimeTypes(t) {
      var i :| 0 <= i < |AllowedMimeTypes(t)| && AllowedMimeTypes(t)[i] == mime;
      assert mime[..|p|] == p;
      assert mime[|p|..] == Subtypes(t)[i];
    }
  }

  /** The order in which `Object.entries(ALLOWED_MIME_TYPES)` visits the categories. */
  const CategoryOrder: seq<MediaType> := [Image, Audio, Video, File]

  /** Every category appears in the visiting order. */
  lemma CategoryOrderComplete()
    ensures forall t: MediaType :: t in CategoryOrder
  {
    forall t: MediaType ensures t in CategoryOrder {
      assert t == CategoryOrder[0] || t == CategoryOrder[1] || t == CategoryOrder[2] || t == CategoryOrder[3];
    }
  }

  /** The first category of `cats` whose allow-list contains `mime`. */
  function FirstCategory(cats: seq<MediaType>, mime: string): (r: Option<MediaType>)
    ensures r.Some? ==> r.value in cats && Allows(r.value, mime)
    ensures r.None? <==> forall t :: t in cats ==> !Allows(t, mime)
  {
    if cats == [] then None
    else if Allows(cats[0], mime) then Some(cats[0])
    else FirstCategory(cats[1..], mime)
  }

  /**
   * The category `validateFile` settles on for a MIME type: one whose list
   * holds it, and none only when no list does.
   */
  function Classify(mime: string): (r: Option<MediaType>)
    ensures r.Some? ==> Allows(r.value, mime)
    ensures r.None? <==> forall t: MediaType :: !Allows(t, mime)
  {
    CategoryOrderComplete();
    FirstCategory(CategoryOrder, mime)
  }

  /** No string starts with two different top-level types: they differ in their first two letters. */
  lemma TopLevelsDistinct(mime: string, s: MediaType, t: MediaType)
    requires StartsWith(mime, TopLevel(s)) && StartsWith(mime, TopLevel(t))
    ensures s == t
  {
    assert mime[0] == TopLevel(s)[0] == TopLevel(t)[0];
    assert mime[1] == TopLevel(s)[1] == TopLevel(t)[1];
  }

  /** No MIME type is allowed in two categories. */
  lemma AllowListsDisjoint(mime: string, s: MediaType, t: MediaType)
    requires Allows(s, mime) && Allows(t, mime)
    ensures s == t
  {
    TopLevelsDistinct(mime, s, t);
  }

  /** Because the lists are disjoint, the category found is exactly the list holding the type. */
  lemma ClassifyExact(mime: string, t: MediaType)
    ensures Classify(mime) == Some(t) <==> Allows(t, mime)
  {
    assert t in CategoryOrder;
    if Allows(t, mime) {
      var r := Classify(mime);
      AllowListsDisjoint(mime, r.value, t);
    }
  }

  datatype ValidationError = UnsupportedType(mimeType: string) | TooLarge(maxMegabytes: nat)

  /** `FileValidationResult`: `error` and `mediaType` are the optional properties. */
  datatype ValidationResult = ValidationResult(
    valid: bool,
    error: Option<ValidationError>,
    mediaType: Option<MediaType>)

  /** The text of the `error` property. */
  function ErrorMessage(e: ValidationError): string {
    match e
    case UnsupportedType(mime) => "지원하지 않는 파일 형식입니다: " + mime
    case TooLarge(mb) => "파일 크기가 너무 큽니다. 최대 " + NatToString(mb) + "MB까지 업로드 가능합니다."
  }

  /**
   * What `validateFile` returns for a file: valid exactly when it carries no
   * error and a category, and that category allows the type and the size.
   */
  function Validation(file: FileInfo): (r: ValidationResult)
    ensures r.valid <==> r.error.None?
    ensures r.valid <==> r.mediaType.Some?
    ensures r.mediaType.Some? ==> Allows(r.mediaType.value, file.mimeType) && file.size <= MaxFileSize(r.mediaType.value)
  {
    match Classify(file.mimeType)
    case None => ValidationResult(false, Some(UnsupportedType(file.mimeType)), None)
    case Some(t) =>
      if file.size > MaxFileSize(t) then ValidationResult(false, Some(TooLarge(MaxFileSize(t) / MiB)), None)
      else ValidationResult(true, None, Some(t))
  }

  /**
   * A file is valid exactly when its type is in the allow-list of some category
   * and its size is at most that category's limit; a valid result names that
   * category and no error, an invalid one an error and no category.
   */
  lemma ValidationMeaning(file: FileInfo, t: MediaType)
    requires Allows(t, file.mimeType)
    ensures Validation(file).valid <==> file.size <= MaxFileSize(t)
    ensures Validation(file).valid ==> Validation(file).mediaType == Some(t) && Validation(file).error.None?
    ensures !Validation(file).valid ==>
      Validation(file).mediaType.None? && Validation(file).error == Some(TooLarge(MaxFileSize(t) / MiB))
  {
    ClassifyExact(file.mimeType, t);
  }

  /** A type in none of the lists is refused whatever the size. */
  lemma UnknownTypeRejected(file: FileInfo)
    requires forall t: MediaType :: !Allows(t, file.mimeType)
    ensures Validation(file) == ValidationResult(false, Some(UnsupportedType(file.mimeType)), None)
  {
    assert Classify(file.mimeType).None?;
  }

  /** The limit is inclusive: a file of exactly the limit passes, one byte more fails. */
  lemma SizeLimitInclusive(name: string, mime: string, t: MediaType)
    requires Allows(t, mime)
    ensures Validation(FileInfo(name, mime, MaxFileSize(t))).valid
    ensures !Validation(FileInfo(name, mime, MaxFileSize(t) + 1)).valid
  {
    ValidationMeaning(FileInfo(name, mime, MaxFileSize(t)), t);
    ValidationMeaning(FileInfo(name, mime, MaxFileSize(t) + 1), t);
  }

  /** The limits in megabytes, as the size error reports them. */
  lemma LimitsInMegabytes()
    ensures MaxFileSize(Image) / MiB == 5 && MaxFileSize(Audio) / MiB == 10
    ensures MaxFileSize(Video) / MiB == 100 && MaxFileSize(File) / MiB == 10
  {
  }

  /**
   * `validateFile`: the loop over the categories stops at the first list that
   * holds the file's type, then the size is checked against that category's limit.
   */
  method ValidateFile(file: FileInfo) returns (r: ValidationResult)
    ensures r == Validation(file)
    ensures r.valid <==> r.error.None?
    ensures r.valid <==> r.mediaType.Some?
  {
    var mediaType: Option<MediaType> := None;
    var i := 0;
    while i < |CategoryOrder|
      invariant 0 <= i <= |CategoryOrder|
      invariant FirstCategory(CategoryOrder[i..], file.mimeType) == Classify(file.mimeType)
    {
      if Allows(CategoryOrder[i], file.mimeType) {
        mediaType := Some(CategoryOrder[i]);
        break;
      }
      assert CategoryOrder[i..][1..] == CategoryOrder[i + 1..];
      i := i + 1;
    }
    if mediaType.None? {
      return ValidationResult(false, Some(UnsupportedType(file.mimeType)), None);
    }
    var maxSize := MaxFileSize(mediaType.value);
    if file.size > maxSize {
      return ValidationResult(false, Some(TooLarge(maxSize / MiB)), None);
    }
    return ValidationResult(true, None, mediaType);
  }

  // ---------------------------------------------------------------------------
  // uploadToS3
  // ---------------------------------------------------------------------------

  /** The record `uploadToS3` resolves with (metadata extraction is not modelled). */
  datatype StoredMedia = StoredMedia(
    mediaType: MediaType,
    key: string,
    fileName: string,
    fileSize: nat,
    mimeType: string)

  /**
   * The network side of an upload, as seen by `uploadToS3`: the presigned-URL
   * request (the file key, or the error it rejects with) and the PUT to S3
   * (None when it succeeds, otherwise the rejection message).
   */
  datatype Network = Network(presign: Result<string, string>, transfer: Option<string>)

  /**
   * `uploadToS3`: the message of the Error it throws, or the stored media.
   * `token` is what `localStorage.getItem('token')` returned.
   */
  function UploadToS3(file: FileInfo, token: Option<string>, net: Network): (r: Result<StoredMedia, string>)
    ensures r.Success? ==> Validation(file).valid && r.value.mediaType == Validation(file).mediaType.value
    ensures r.Success? ==> r.value.fileName == file.name && r.value.fileSize == file.size && r.value.mimeType == file.mimeType
    ensures r.Success? ==> token.Some? && token.value != "" && net.presign == Success(r.value.key) && net.transfer.None?
  {
    var validation := Validation(file);
    if !validation.valid then Failure(ErrorMessage(validation.error.value))
    else if token.None? || token.value == "" then Failure("인증 토큰이 없습니다. 다시 로그인해주세요.")
    else match net.presign
      case Failure(message) => Failure(if message == "" then "Presigned URL 요청에 실패했습니다." else message)
      case Success(fileKey) =>
        if net.transfer.Some? then Failure(net.transfer.value)
        else Success(StoredMedia(validation.mediaType.value, fileKey, file.name, file.size, file.mimeType))
  }

  /**
   * An invalid file is refused before the token is read or the network is used:
   * the outcome is the validation error whatever the token and network do.
   */
  lemma UploadRejectsInvalidFirst(file: FileInfo, token: Option<string>, net: Network)
    requires !Validation(file).valid
    ensures UploadToS3(file, token, net) == Failure(ErrorMessage(Validation(file).error.value))
    ensures forall token', net' :: UploadToS3(file, token', net') == UploadToS3(file, token, net)
  {
  }

  /** A successful upload carries the category the file validated to. */
  lemma UploadSuccessCategory(file: FileInfo, token: Option<string>, net: Network)
    requires UploadToS3(file, token, net).Success?
    ensures Validation(file).valid
    ensures UploadToS3(file, token, net).value.mediaType == Classify(file.mimeType).value
    ensures Allows(UploadToS3(file, token, net).value.mediaType, file.mimeType)
  {
  }

  // ---------------------------------------------------------------------------
  // formatDuration
  // ---------------------------------------------------------------------------

  /** `formatDuration` for a whole, non-negative number of seconds: `m:ss`, so the colon is third from the end. */
  function FormatDuration(seconds: nat): (r: string)
    ensures |r| >= 4 && r[|r| - 3] == ':'
  {
    SecondsField(seconds);
    var mins := NatToString(seconds / 60);
    var secs := PadStart(NatToString(seconds % 60), 2, '0');
    mins + ":" + secs
  }

  /** Reads `m:ss` back: digits, a colon, then exactly two digits. */
  function ParseDuration(s: string): Option<nat> {
    if |s| >= 4 && s[|s| - 3] == ':' && AllDigits(s[..|s| - 3]) && AllDigits(s[|s| - 2..])
    then Some(60 * DecimalValue(s[..|s| - 3]) + DecimalValue(s[|s| - 2..]))
    else None
  }

  /** The seconds field is the remainder, always two digits, below 60. */
  lemma SecondsField(seconds: nat)
    ensures |PadStart(NatToString(seconds % 60), 2, '0')| == 2
    ensures DecimalValue(PadStart(NatToString(seconds % 60), 2, '0')) == seconds % 60
  {
    var secs := seconds % 60;
    var digits := NatToString(secs);
    DecimalRoundTrip(secs);
    if secs < 10 {
      var padded := PadStart(digits, 2, '0');
      assert padded == ['0'] + digits;
      assert padded[..1] == ['0'];
      assert padded[1..] == digits;
    } else {
      assert |NatToString(secs / 10)| == 1;
    }
  }

  /**
   * `formatDuration` shows the minutes, a colon and two seconds digits, and
   * the seconds they show, read back, are the input: minutes·60 + secs.
   */
  lemma {:induction false} DurationRoundTrip(seconds: nat)
    ensures |FormatDuration(seconds)| >= 4
    ensures FormatDuration(seconds)[|FormatDuration(seconds)| - 3] == ':'
    ensures ParseDuration(FormatDuration(seconds)) == Some(seconds)
  {
    var mins := NatToString(seconds / 60);
    var secs := PadStart(NatToString(seconds % 60), 2, '0');
    SecondsField(seconds);
    DecimalRoundTrip(seconds / 60);
    var s := FormatDuration(seconds);
    assert s == mins + ":" + secs;
    assert s[..|s| - 3] == mins;
    assert s[|s| - 2..] == secs;
  }

  /** Two different durations never look the same. */
  lemma FormatDurationInjective(a: nat, b: nat)
    requires FormatDuration(a) == FormatDuration(b)
    ensures a == b
  {
    DurationRoundTrip(a);
    DurationRoundTrip(b);
  }
}
