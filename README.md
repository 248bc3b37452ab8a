# Ieum chat client: media, navigation and assistant logic in Dafny

This project models the sequential logic of the Ieum chat web app: its media
handling, its small UI state machines and its two chat-assistant API routes.
It also proves properties of that logic. The modelled pieces are:

- **media-utils**: `validateFile` sorts a file's MIME type into one of four
  allow-lists (image, audio, video, file) and applies that category's byte
  limit. `uploadToS3` refuses an invalid file before any network step.
  `formatDuration` renders whole seconds as `m:ss`.
- **MediaUploader**: a list of pending uploads. A batch add is all-or-nothing
  against `maxFiles` and keeps only files that pass validation. Entries are
  removed by id. Per-id status updates mark an entry uploading, complete or
  failed. After the uploads, the list is cleared only if something succeeded.
- **MediaPickerModal**: image and video files are picked by MIME prefix. They
  can be removed by index. They are uploaded one after the other, and the
  selection is cleared on send or close.
- **ImageLightbox**: a cyclic index over the images, and a zoom flag that every
  navigation resets.
- **CreateChatRoomModal**: the friend toggle, the checks made before a room is
  created, and the request that is sent.
- **quick-replies and summarize routes**: request checks, a transcript of the
  last 12 or 50 turns, and sanitising of the language model's answer.
- **AudioPlayer**: stepping through the three playback speeds, plus the play
  and seek state.
- **VoiceInputModal**: the recording timer state machine and `formatTime`.

Components that keep React state become classes. Their `seq` fields are
reassigned by one method per handler:

- `MediaUploader.Uploader`
- `MediaPickerModal.Picker`
- `ImageLightbox.Lightbox`
- `CreateChatRoomModal.RoomForm`
- `AudioPlayer.Player`
- `VoiceInputModal.Recorder`

The loops that build lists (`validateFile`, the `handleFileSelect` loops, the
sequential upload loop) are `for`/`while` loops. Each is proved against a
specification function.

Everything the code gets from outside is a parameter of the method or function
that uses it:

- generated ids and object URLs;
- upload outcomes and HTTP responses;
- the stored token and the stored user id;
- the language model's completion and `JSON.parse`.

Modules:

- `Wrappers`: Option and Result.
- `JsText`: the JavaScript string and array primitives used, i.e. `startsWith`,
  `trim`, `padStart`, number `toString`, `join` and `slice(-n)`.
- `Interface`: the records of `src/lib/interface.ts`.
- `ChatApi`: what the two routes share.
- Then one module per source file.

## Model

| member | source | states |
|---|---|---|
| JsText.NatToString | src/lib/media-utils.ts:319 | `toString` of a non-negative integer is a non-empty digit string, one digit exactly below 10, with no leading zero except for 0 |
| JsText.DecimalRoundTrip | src/lib/media-utils.ts:319 | reading the rendered digits back gives the number |
| JsText.PadStart | src/lib/media-utils.ts:319 | `padStart` keeps the string as its suffix, reaches the target length, and fills only with the fill character |
| JsText.JoinSnoc | src/app/api/chat/quick-replies/route.ts:30-32 | joining one more part adds exactly one separator before it |
| JsText.Join | src/app/api/chat/quick-replies/route.ts:32 | `join` of no parts is empty; otherwise the result starts with the first part and ends with the last |
| JsText.StartsWithTrans | src/components/MediaUploader.tsx:48-59 | a prefix of a prefix is a prefix |
| JsText.TakeLast | src/app/api/chat/quick-replies/route.ts:29 | `slice(-n)` has length min(n, length) and is a suffix of the input |
| JsText.TrimStart | src/components/CreateChatRoomModal.tsx:54 | the result is the suffix that starts at the first non-white-space character |
| JsText.TrimEnd | src/components/CreateChatRoomModal.tsx:54 | the result is the prefix that ends at the last non-white-space character |
| JsText.Trim | src/components/CreateChatRoomModal.tsx:54 | `trim` is no longer than its input and neither starts nor ends with white space |
| JsText.TrimShape | src/app/api/chat/summarize/route.ts:51 | the input is white space, then the trimmed text, then white space, and the trimmed text neither starts nor ends with white space |
| JsText.TrimBlank | src/components/CreateChatRoomModal.tsx:54 | `!s.trim()` holds exactly when s is all white space |
| MediaUtils.AllowsIsMember | src/lib/media-utils.ts:19-35 | the per-category allow test is exactly membership in that category's list of MIME strings |
| MediaUtils.FirstCategory | src/lib/media-utils.ts:50-55 | the category found is in the list and allows the type; none is found exactly when no category allows it |
| MediaUtils.TopLevelsDistinct | src/lib/media-utils.ts:19-35 | no string starts with two different top-level types |
| MediaUtils.AllowListsDisjoint | src/lib/media-utils.ts:19-35 | no MIME type is in two allow-lists |
| MediaUtils.ClassifyExact | src/lib/media-utils.ts:50-55 | the first matching category is t exactly when t's list holds the type, so the category is unique |
| MediaUtils.Classify | src/lib/media-utils.ts:50-55 | the category found allows the type, and none is found exactly when no category allows it |
| MediaUtils.Validation | src/lib/media-utils.ts:46-75 | valid iff no error iff a mediaType; a mediaType allows the file's type and the size is within its limit |
| MediaUtils.ValidationMeaning | src/lib/media-utils.ts:46-75 | for a listed type, valid iff size <= the category limit; valid results carry the category and no error; invalid ones carry the size error and no category |
| MediaUtils.UnknownTypeRejected | src/lib/media-utils.ts:57-62 | a type in no list is invalid with the unsupported-type error and no mediaType, whatever the size |
| MediaUtils.SizeLimitInclusive | src/lib/media-utils.ts:64-72 | a file exactly at the limit passes; one byte more fails |
| MediaUtils.LimitsInMegabytes | src/lib/media-utils.ts:12-17 | the limits are 5, 10, 100 and 10 MiB for image, audio, video and file |
| MediaUtils.ValidateFile | src/lib/media-utils.ts:46-75 | the loop with early `break` returns the specified validation result; valid iff no error iff a mediaType |
| MediaUtils.UploadRejectsInvalidFirst | src/lib/media-utils.ts:177-181 | an invalid file fails with its validation error whatever the token and network outcome |
| MediaUtils.UploadToS3 | src/lib/media-utils.ts:177-261 | a stored item needs a valid file, a non-empty token, a presigned key and a transfer without error; it carries the validated category, that key and the file's name, size and type |
| MediaUtils.UploadSuccessCategory | src/lib/media-utils.ts:177-261 | a successful upload was a valid file and carries the category its type is listed in |
| MediaUtils.SecondsField | src/lib/media-utils.ts:318-319 | the seconds field is exactly two digits whose value is seconds mod 60 |
| MediaUtils.DurationRoundTrip | src/lib/media-utils.ts:316-320 | `m:ss` has a colon three from the end, and reading minutes·60 + seconds back gives the input |
| MediaUtils.FormatDuration | src/lib/media-utils.ts:316-320 | `m:ss` is at least four characters with the colon third from the end |
| MediaUtils.FormatDurationInjective | src/lib/media-utils.ts:316-320 | different durations never render the same |
| MediaUploader.AcceptParts | src/components/MediaUploader.tsx:48-59 | no types for any file; otherwise one full type per listed subtype, each the category's top-level type followed by that subtype |
| MediaUploader.AcceptedTypesAreAllowed | src/components/MediaUploader.tsx:48-59 | every MIME type the accept attribute lists for a category passes validation in that category |
| MediaUploader.AcceptAttribute | src/components/MediaUploader.tsx:48-59 | `*/*` exactly for any type; otherwise the category's full types joined by commas, starting with its top-level type |
| MediaUploader.ValidFiles | src/components/MediaUploader.tsx:77-83 | the kept files are exactly the batch's files that pass validation, no more of them than the batch; order and multiplicity are ValidFilesFilter |
| MediaUploader.ValidFilesAreFilterMap | src/components/MediaUploader.tsx:77-83 | the kept files are the batch filtered by validation, in input order |
| MediaUploader.ValidFilesFilter | src/components/MediaUploader.tsx:77-102 | the j-th kept file is the j-th file of the batch that passes validation: input order and multiplicity are kept |
| MediaUploader.NewEntries | src/components/MediaUploader.tsx:75-98 | one new entry per file that passes validation |
| MediaUploader.NewEntriesAreFilterMap | src/components/MediaUploader.tsx:77-97 | the new entries are the files paired with their handles, filtered by validation and mapped to their entries, in input order |
| MediaUploader.NewEntriesAt | src/components/MediaUploader.tsx:77-97 | entry k is made for the k-th file that passes validation, at position p, with handle p's id; it is not uploading, at progress 0, with no error or item, and has a preview exactly for `image/` types |
| MediaUploader.NewEntriesDistinct | src/components/MediaUploader.tsx:85-97 | distinct handles give entries with distinct ids, because entries come from strictly increasing positions |
| MediaUploader.BuildEntries | src/components/MediaUploader.tsx:75-98 | the loop over an accepted batch builds exactly the specified entries and alerts |
| MediaUploader.RejectionAlerts | src/components/MediaUploader.tsx:78-83 | every file yields either an entry or an alert |
| MediaUploader.RejectionAlertsAreFilterMap | src/components/MediaUploader.tsx:77-83 | the alerts are the refused files, each mapped to its alert, in input order |
| MediaUploader.RejectionAlertsAt | src/components/MediaUploader.tsx:77-83 | one alert per refused file; the j-th names the j-th refused file and gives its validation error |
| MediaUploader.AppendKeepsDistinct | src/components/MediaUploader.tsx:100-101 | appending entries with fresh ids keeps all ids distinct |
| MediaUploader.Apply | src/components/MediaUploader.tsx:156-198 | an update keeps id, file and preview; start sets uploading and clears the error; complete sets progress 100 and the item; error records the message; both stop uploading |
| MediaUploader.UpdateByIdAt | src/components/MediaUploader.tsx:156-162 | the `map` updates an entry exactly when it has the id, in place |
| MediaUploader.UpdateById | src/components/MediaUploader.tsx:156-162 | the `map` keeps the length (what it does to each entry is UpdateByIdAt) |
| MediaUploader.SameIdDistinct | src/components/MediaUploader.tsx:156-162 | replacing an entry by one with the same id keeps all ids distinct |
| MediaUploader.SettleById | src/components/MediaUploader.tsx:156-198 | with distinct ids, one task's start update and its completion or error update, both made by id, settle exactly that entry |
| MediaUploader.UpdateOne | src/components/MediaUploader.tsx:156-198 | with distinct ids an update changes only the one entry with that id, and ids stay distinct |
| MediaUploader.WithoutMembers | src/components/MediaUploader.tsx:144 | `removeFile` keeps exactly the entries whose id differs |
| MediaUploader.WithoutId | src/components/MediaUploader.tsx:144 | the `filter` never lengthens the list (which entries it keeps is WithoutMembers) |
| MediaUploader.WithoutAbsent | src/components/MediaUploader.tsx:144 | removing an absent id changes nothing |
| MediaUploader.WithoutCutsOne | src/components/MediaUploader.tsx:138-145 | with distinct ids, removing entry k's id cuts out entry k and keeps the rest in order |
| MediaUploader.WithoutKeepsDistinct | src/components/MediaUploader.tsx:144 | removing one id's entries leaves the remaining ids distinct |
| MediaUploader.SuccessesEmpty | src/components/MediaUploader.tsx:204-209 | nothing is delivered exactly when every upload failed |
| MediaUploader.Successes | src/components/MediaUploader.tsx:204-207 | the filter of non-null results is no longer than the results (its order is SuccessesSnoc) |
| MediaUploader.SuccessesSnoc | src/components/MediaUploader.tsx:205-207 | one more result adds its item at the end if it succeeded |
| MediaUploader.SettleAll | src/components/MediaUploader.tsx:154-202 | every entry ends started then completed or failed by its own outcome |
| MediaUploader.AllFailedKeepsEntries | src/components/MediaUploader.tsx:187-209 | when all uploads fail, every entry is kept, no longer uploading, holding its error |
| MediaUploader.Uploader.constructor | src/components/MediaUploader.tsx:37-43 | the list starts empty |
| MediaUploader.Uploader.HandleFileSelect | src/components/MediaUploader.tsx:62-105 | an empty selection does nothing; an over-limit batch, counted before validation, is refused whole; otherwise the valid files' entries are appended; the list never grows past `maxFiles` |
| MediaUploader.Uploader.RemoveFile | src/components/MediaUploader.tsx:138-146 | the list becomes the filter by id, and ids stay distinct |
| MediaUploader.Uploader.UpdateStatus | src/components/MediaUploader.tsx:156-198 | one per-id update of the list |
| MediaUploader.Uploader.UploadOne | src/components/MediaUploader.tsx:154-202 | one file's task replaces only its own entry with the settled one |
| MediaUploader.Uploader.UploadEach | src/components/MediaUploader.tsx:154-207 | after all tasks every entry is settled and the delivered items are the successes in order |
| MediaUploader.Uploader.UploadAll | src/components/MediaUploader.tsx:149-221 | an empty list does nothing; the successes are delivered; the list is cleared iff something succeeded, else the settled entries stay |
| MediaUploader.Uploader.ClearAll | src/components/MediaUploader.tsx:224-231 | the list becomes empty |
| MediaPickerModal.PickKind | src/components/MediaPickerModal.tsx:37-49 | `image/` types are picked as images, other `video/` types as videos, nothing else |
| MediaPickerModal.PickedFiles | src/components/MediaPickerModal.tsx:34-50 | the picked entries are all images or videos and no more than the files |
| JsText.Where | src/components/MediaPickerModal.tsx:36-50 | the positions kept by a filter are positions of the input, no more of them than its length |
| JsText.WhereMeaning | src/components/MediaPickerModal.tsx:36-50 | those positions are exactly the ones whose element passes the filter, in increasing order |
| JsText.FilterMap | src/components/MediaUploader.tsx:77-84 | a filtering loop that maps what it keeps yields one result per kept position |
| JsText.FilterMapAt | src/components/MediaUploader.tsx:77-84 | its j-th result is the image of the j-th kept element |
| JsText.Zip | src/components/MediaUploader.tsx:77-97 | pairs two equally long sequences position by position |
| JsText.WhereAgree | src/components/MediaUploader.tsx:77-97 | two filters that decide alike at every position keep the same positions |
| MediaPickerModal.PickedFilesFilter | src/components/MediaPickerModal.tsx:36-50 | the j-th picked entry is the j-th image or video file, with its kind and its own preview url: nothing dropped, nothing reordered |
| MediaPickerModal.PickedFilesEmpty | src/components/MediaPickerModal.tsx:36-55 | nothing is picked exactly when no file is an image or a video |
| MediaPickerModal.PickedFilesKinds | src/components/MediaPickerModal.tsx:36-50 | each picked entry's kind is the one its file's type names |
| MediaPickerModal.CountsCoverSelection | src/components/MediaPickerModal.tsx:206-207 | image count plus video count equals the selection length |
| MediaPickerModal.Uploaded | src/components/MediaPickerModal.tsx:74-111 | the sent list is never longer than the selection |
| MediaPickerModal.UploadedDelivered | src/components/MediaPickerModal.tsx:74-110 | when every request is answered, the j-th sent item is built from the j-th file whose answer carries a url, with that url: the files without one are skipped and the order is kept |
| MediaPickerModal.UploadedAllOrNothing | src/components/MediaPickerModal.tsx:74-93 | the send goes through exactly when every request is answered |
| MediaPickerModal.UploadedEveryFile | src/components/MediaPickerModal.tsx:95-110 | when every answer carries a url, one item per file is sent, with that file's kind, name, size and url |
| MediaPickerModal.UploadedFailureSticks | src/components/MediaPickerModal.tsx:89-91 | a failed request aborts the whole send |
| MediaPickerModal.Picker.constructor | src/components/MediaPickerModal.tsx:26 | the selection starts empty |
| MediaPickerModal.Picker.HandleFileSelect | src/components/MediaPickerModal.tsx:30-58 | no file list does nothing; no image or video raises the alert and keeps the selection; else the picked files are appended |
| MediaPickerModal.Picker.HandleRemoveMedia | src/components/MediaPickerModal.tsx:60-64 | exactly entry `index` goes; the length drops by one; the others keep their order |
| MediaPickerModal.Picker.HandleUploadAndSend | src/components/MediaPickerModal.tsx:66-126 | an empty selection is a no-op; success sends the specified items, clears and asks to close; a failure alerts and keeps the selection |
| MediaPickerModal.Picker.HandleClose | src/components/MediaPickerModal.tsx:128-133 | the selection is cleared and the modal asks to close |
| ImageLightbox.Next | src/components/ImageLightbox.tsx:57-60 | in range stays in range; the last index (or beyond) goes to 0 |
| ImageLightbox.Previous | src/components/ImageLightbox.tsx:52-55 | in range stays in range; index 0 (or below) goes to n-1 |
| ImageLightbox.NextIsModular | src/components/ImageLightbox.tsx:57-60 | a forward step is +1 mod n |
| ImageLightbox.PreviousIsModular | src/components/ImageLightbox.tsx:52-55 | a backward step is -1 mod n |
| ImageLightbox.NextPreviousInverse | src/components/ImageLightbox.tsx:52-60 | next then previous, and previous then next, return to the start |
| ImageLightbox.NextTimesWraps | src/components/ImageLightbox.tsx:57-60 | k <= n forward steps move k places, wrapping once |
| ImageLightbox.FullCycle | src/components/ImageLightbox.tsx:57-60 | n forward steps come back to the start |
| ImageLightbox.NextTimesInRange | src/components/ImageLightbox.tsx:57-60 | any number of forward steps stays on an image |
| ImageLightbox.Lightbox.constructor | src/components/ImageLightbox.tsx:26-27 | starts at the initial index, not zoomed |
| ImageLightbox.Lightbox.GoToPrevious | src/components/ImageLightbox.tsx:52-55 | steps back and resets zoom |
| ImageLightbox.Lightbox.GoToNext | src/components/ImageLightbox.tsx:57-60 | steps forward and resets zoom |
| ImageLightbox.Lightbox.SelectThumbnail | src/components/ImageLightbox.tsx:243-246 | jumps to the thumbnail and resets zoom |
| ImageLightbox.Lightbox.ToggleZoom | src/components/ImageLightbox.tsx:145 | flips zoom and nothing else |
| ImageLightbox.Lightbox.SyncInitialIndex | src/components/ImageLightbox.tsx:30-32 | a new initial index becomes the current one; zoom is kept |
| ImageLightbox.Lightbox.HandleKeyDown | src/components/ImageLightbox.tsx:35-50 | only while open: Escape asks to close, the arrows step, other keys change nothing |
| ImageLightbox.Lightbox.CurrentImage | src/components/ImageLightbox.tsx:62-64 | an image is shown exactly when open and the index is in range |
| CreateChatRoomModal.RemoveAll | src/components/CreateChatRoomModal.tsx:48 | the filtered list no longer holds the id |
| CreateChatRoomModal.RemoveAllMembers | src/components/CreateChatRoomModal.tsx:48 | the filter keeps exactly the other ids |
| CreateChatRoomModal.RemoveAllAbsent | src/components/CreateChatRoomModal.tsx:48 | filtering an absent id gives back the same list |
| CreateChatRoomModal.RemoveAllNoDuplicates | src/components/CreateChatRoomModal.tsx:48 | filtering keeps a list free of duplicates |
| CreateChatRoomModal.Toggle | src/components/CreateChatRoomModal.tsx:45-51 | a present id is filtered out; an absent one is appended |
| CreateChatRoomModal.ToggleMembership | src/components/CreateChatRoomModal.tsx:45-51 | toggling flips membership of the given id and no other |
| CreateChatRoomModal.ToggleNoDuplicates | src/components/CreateChatRoomModal.tsx:45-51 | toggling keeps the selection free of duplicates |
| CreateChatRoomModal.ToggleTwiceAbsent | src/components/CreateChatRoomModal.tsx:47-50 | toggling an absent id twice restores the exact list |
| CreateChatRoomModal.ToggleTwicePresent | src/components/CreateChatRoomModal.tsx:47-50 | toggling a present id twice restores the set but moves the id to the end |
| CreateChatRoomModal.CheckCreate | src/components/CreateChatRoomModal.tsx:54-62 | a blank name is refused first, then an empty selection; otherwise it passes |
| CreateChatRoomModal.ParticipantIds | src/components/CreateChatRoomModal.tsx:66-67 | the selected ids in order, then the current user's id |
| CreateChatRoomModal.FailureAlert | src/components/CreateChatRoomModal.tsx:81 | the error's message when non-empty, else the default text; never empty |
| CreateChatRoomModal.EnabledPassesChecks | src/components/CreateChatRoomModal.tsx:149-154 | the button's `disabled` expression (CreateDisabled) is false exactly when nothing is loading and both checks of `handleCreateRoom` pass |
| CreateChatRoomModal.RoomForm.constructor | src/components/CreateChatRoomModal.tsx:21-25 | empty name, friends and selection; not loading |
| CreateChatRoomModal.RoomForm.SetRoomName | src/components/CreateChatRoomModal.tsx:98 | only the name changes |
| CreateChatRoomModal.RoomForm.FetchFriends | src/components/CreateChatRoomModal.tsx:33-43 | the friends list is replaced on success, else kept; loading ends |
| CreateChatRoomModal.RoomForm.ToggleFriend | src/components/CreateChatRoomModal.tsx:45-51 | the selection becomes its toggle and stays duplicate-free |
| CreateChatRoomModal.RoomForm.HandleCreateRoom | src/components/CreateChatRoomModal.tsx:53-85 | a refused check changes nothing; otherwise the untrimmed name and participants are sent, success resets name and selection, failure keeps them, and loading ends; the close request and the created notification are made exactly when the checks pass and the request succeeds |
| ChatApi.CheckRequest | src/app/api/chat/quick-replies/route.ts:8-27 | missing key first, then an unreadable body, then a non-array or empty `messages`; success returns the non-empty turns |
| ChatApi.MissingKeyIgnoresBody | src/app/api/chat/quick-replies/route.ts:10-17 | a missing key is reported whatever the body is |
| ChatApi.ErrorStatus | src/app/api/chat/quick-replies/route.ts:10-27 | only the messages check answers 400; the others answer 500 |
| ChatApi.Lines | src/app/api/chat/quick-replies/route.ts:30-31 | one line per turn, in order |
| ChatApi.TranscriptWindow | src/app/api/chat/quick-replies/route.ts:29-32 | turns before the last window do not reach the transcript |
| ChatApi.Transcript | src/app/api/chat/quick-replies/route.ts:29-32 | no turns give the empty transcript; otherwise it ends with the line of the last turn |
| ChatApi.TranscriptSnoc | src/app/api/chat/quick-replies/route.ts:30-32 | inside the window, one more turn appends a newline and its line |
| QuickReplies.UserPrompt | src/app/api/chat/quick-replies/route.ts:37 | the transcript sits whole between the fixed intro and outro |
| QuickReplies.Content | src/app/api/chat/quick-replies/route.ts:52 | a missing or blank answer becomes `[]`; otherwise the trimmed answer |
| QuickReplies.StringsOfMembers | src/app/api/chat/quick-replies/route.ts:58 | the filter keeps exactly the strings of the array |
| QuickReplies.StringsOfSnoc | src/app/api/chat/quick-replies/route.ts:58 | the filter keeps the array's order |
| QuickReplies.TakeFirst | src/app/api/chat/quick-replies/route.ts:58 | `slice(0, n)` is a prefix of length min(n, length) |
| QuickReplies.Suggestions | src/app/api/chat/quick-replies/route.ts:54-61 | at most four suggestions, and none when the parse fails or gives a non-array |
| QuickReplies.SuggestionsFromArray | src/app/api/chat/quick-replies/route.ts:54-61 | the suggestions are the first strings of the parsed array in order; four when it has four |
| QuickReplies.Post | src/app/api/chat/quick-replies/route.ts:8-71 | check failures answer first; a throwing model call answers 500; an answered call replies with the suggestions parsed from its content, at most four |
| QuickReplies.PostUsesLastTwelve | src/app/api/chat/quick-replies/route.ts:29-32 | turns before the last 12 change nothing |
| QuickReplies.StringsOf | src/app/api/chat/quick-replies/route.ts:58 | the string filter never lengthens the array (which strings it keeps is StringsOfMembers) |
| QuickReplies.BlankAnswerNoSuggestions | src/app/api/chat/quick-replies/route.ts:52-61 | a missing or blank model answer gives an empty suggestion list |
| Summarize.Label | src/app/api/chat/summarize/route.ts:33 | a present username is used as it is (even empty); otherwise `나` for `me` and `상대` for anyone else |
| Summarize.LineShape | src/app/api/chat/summarize/route.ts:33 | a line is the label, `: `, then the text |
| Summarize.UserPrompt | src/app/api/chat/summarize/route.ts:40 | the transcript follows the fixed instruction |
| Summarize.SummaryOf | src/app/api/chat/summarize/route.ts:51 | no content gives `''`; otherwise the trimmed content, no longer than it |
| Summarize.SummaryTrimmed | src/app/api/chat/summarize/route.ts:51 | the summary has no white space at either end, and is empty exactly when the answer is absent or blank |
| Summarize.Post | src/app/api/chat/summarize/route.ts:8-60 | check failures answer first; a throwing model call answers 500; otherwise the summary of the content |
| Summarize.PostUsesLastFifty | src/app/api/chat/summarize/route.ts:29-35 | turns before the last 50 change nothing |
| AudioPlayer.IndexOf | src/components/AudioPlayer.tsx:39 | -1 exactly when absent, else the first position holding the value |
| AudioPlayer.StepRate | src/components/AudioPlayer.tsx:38-46 | the new rate is the old one or a listed option |
| AudioPlayer.LabelsCoverOptions | src/components/AudioPlayer.tsx:33-37 | every option has a label, and labels differ between options |
| AudioPlayer.IndexOfOption | src/components/AudioPlayer.tsx:32-39 | each option is found at its own position |
| AudioPlayer.StepMovesOnePosition | src/components/AudioPlayer.tsx:41-44 | a listed rate moves one option up or down, and saturates at the ends |
| AudioPlayer.StepKeepsListed | src/components/AudioPlayer.tsx:38-46 | a listed rate stays listed |
| AudioPlayer.StepFromUnlisted | src/components/AudioPlayer.tsx:39-44 | an unlisted rate becomes the first option on increment and is kept on decrement |
| AudioPlayer.StepInverse | src/components/AudioPlayer.tsx:41-44 | increment then decrement (and the reverse) return, away from the blocking end |
| AudioPlayer.Player.constructor | src/components/AudioPlayer.tsx:26-30 | paused at 0, loading, duration `duration \|\| 0`, the first speed |
| AudioPlayer.Player.HandleSpeedChange | src/components/AudioPlayer.tsx:38-46 | the rate steps as specified and stays listed; nothing else changes |
| AudioPlayer.Player.SelectSpeed | src/components/AudioPlayer.tsx:157-158 | the chosen option becomes the rate |
| AudioPlayer.Player.TogglePlay | src/components/AudioPlayer.tsx:90-100 | the play flag flips when the element exists |
| AudioPlayer.Player.HandleSeek | src/components/AudioPlayer.tsx:102-109 | the requested time becomes current when the element exists |
| AudioPlayer.Player.HandleEnded | src/components/AudioPlayer.tsx:61-64 | stops and rewinds to 0 |
| AudioPlayer.Player.HandleTimeUpdate | src/components/AudioPlayer.tsx:57-59 | the reported time becomes current |
| AudioPlayer.Player.HandleLoadedMetadata | src/components/AudioPlayer.tsx:52-55 | the duration is set and loading ends |
| AudioPlayer.Player.HandleError | src/components/AudioPlayer.tsx:66-69 | loading ends, nothing else changes |
| VoiceInputModal.FormatTime | src/components/VoiceInputModal.tsx:38-42 | `m:ss` that reads back as the input seconds |
| VoiceInputModal.Recorder.constructor | src/components/VoiceInputModal.tsx:14-36 | recording iff initially open, time 0 |
| VoiceInputModal.Recorder.SetOpen | src/components/VoiceInputModal.tsx:29-36 | opening starts recording; closing stops it and resets the time; no change of the prop does nothing |
| VoiceInputModal.Recorder.Tick | src/components/VoiceInputModal.tsx:17-27 | +1 while recording; the time stays 0 otherwise |
| VoiceInputModal.Recorder.HandleRetry | src/components/VoiceInputModal.tsx:44-47 | time 0 and recording |
| VoiceInputModal.Recorder.HandleSend | src/components/VoiceInputModal.tsx:49-52 | recording stops, the time resets, and the modal asks to close |
| VoiceInputModal.Recorder.Display | src/components/VoiceInputModal.tsx:68-70 | the shown text reads back as the recording time |

## Left out

- The socket layer, persistence routes, models and unread counters: these are thin wrappers over socket.io and mongoose, and hold no logic of their own.
- The language-model calls, the transcribe route and `JSON.parse` are parameters: a completion oracle and a parse oracle.
- Floating point is not modelled:
  - `formatFileSize` uses logarithms and powers.
  - Upload progress percentages are a `Progress` update carrying whatever value it is given; `uploadAll` in the model does not issue them.
  - The progress-bar percentage (`src/components/AudioPlayer.tsx:111`, rendered at :235-247) is left out.
  - The speed buttons' 0.6/1.4 disable thresholds (`src/components/AudioPlayer.tsx:120`, :140) belong to `speedControlRelative`, which is never rendered; only `speedControlDropdown` is (:268). `handleSpeedChange` is reachable only from that unrendered fragment; it is modelled as AudioPlayer.Player.HandleSpeedChange all the same.
  - Times reported by the audio element are taken as already rounded whole seconds.
- MediaUtils.FormatDuration: modelled for whole, non-negative seconds only; fractional or negative inputs are not covered.
- MediaUtils.UploadToS3: the XHR transfer, its progress events and metadata extraction (`getImageDimensions`, `getVideoDimensions`, `getAudioDuration`) are not modelled. The network is one presign outcome and one transfer outcome. A presign error body that fails to parse is not distinguished. `uploadMultipleToS3` is not modelled.
- MediaUploader.Uploader.HandleFileSelect: the ids of the new entries are caller-supplied and are required to be distinct from each other and from the pending entries. The source builds them from `Date.now()` and `Math.random()`, which guarantee neither.
- ChatApi.CheckRequest: a body is either unreadable (None) or has a `messages` field. Message elements that are `null` or not objects are not modelled: the source throws at `m.sender` and answers 500, and `Turn` cannot express them.
- Object URLs and the Date/Math.random ids are caller-supplied values. `revokeObjectURL` has no effect on the modelled state, so it is left out.
- MediaUploader.Uploader.UploadAll: the uploads run concurrently in the source; the model runs them one after the other. Because each update touches only its own id, the settled list is the same. Interleavings with other handlers during the uploads are not modelled, nor are the `onUploadStart` callback and the drag-and-drop flags.
- MediaPickerModal.Picker.HandleUploadAndSend: the `isUploading` flag, which is set and reset around the send, is not modelled. A request that throws before it answers is folded into a response that is not answered.
- MediaPickerModal.Picker.HandleRemoveMedia: an index outside the selection makes the source throw; the model requires a valid index.
- CreateChatRoomModal: `ApiClient` outcomes are parameters. The stored user is given as an optional id; malformed stored JSON is not modelled.
- AudioPlayer: the effect that copies the rate onto the `<audio>` element and the element's own play/pause are not modelled. Only the component's state is.
- VoiceInputModal: real time is not modelled; the one-second interval is the Tick event. The parent's reaction to `onOpenChange(false)` is a separate SetOpen call.
- Presentation-only components, login/profile/settings pages, the dummy data, `next.config.ts` and `src/lib/utils.ts` are not part of this model.
