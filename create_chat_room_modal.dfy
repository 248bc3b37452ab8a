/**
 * The room-creation form of the CreateChatRoomModal component
 * (src/components/CreateChatRoomModal.tsx): the friend selection toggle, the
 * checks made before a room is created and the request it sends. The id of
 * the stored current user and the outcomes of the `/friends` and
 * `/chat/rooms` requests are supplied by the caller.
 */
module CreateChatRoomModal {
  import opened Wrappers
  import opened JsText
  import opened Interface

  predicate NoDuplicates(s: seq<int>) {
    forall i, j :: 0 <= i < j < |s| ==> s[i] != s[j]
  }

  /** `prev.filter((id) => id !== x)` */
  function RemoveAll(s: seq<int>, x: int): (r: seq<int>)
    ensures |r| <= |s| && x !in r
  {
    if s == [] then []
    else RemoveAll(s[..|s| - 1], x) + if s[|s| - 1] == x then [] else [s[|s| - 1]]
  }

  /** The filter keeps exactly the other ids. */
  lemma {:induction false} RemoveAllMembers(s: seq<int>, x: int, y: int)
    ensures y in RemoveAll(s, x) <==> y in s && y != x
  {
    if s != [] {
      var n := |s| - 1;
      RemoveAllMembers(s[..n], x, y);
      assert s == s[..n] + [s[n]];
    }
  }

  /** Filtering out an id that is not there gives back the same list. */
  lemma {:induction false} RemoveAllAbsent(s: seq<int>, x: int)
    requires x !in s
    ensures RemoveAll(s, x) == s
  {
    if s != [] {
      var n := |s| - 1;
      assert s == s[..n] + [s[n]];
      RemoveAllAbsent(s[..n], x);
    }
  }

  /** Filtering keeps the order of what it keeps, so a list without duplicates stays without. */
  lemma {:induction false} RemoveAllNoDuplicates(s: seq<int>, x: int)
    requires NoDuplicates(s)
    ensures NoDuplicates(RemoveAll(s, x))
  {
    if s != [] {
      var n := |s| - 1;
      assert NoDuplicates(s[..n]);
      RemoveAllNoDuplicates(s[..n], x);
      if s[n] != x {
        var prior := RemoveAll(s[..n], x);
        assert RemoveAll(s, x) == prior + [s[n]];
        assert s[n] !in s[..n];
        forall i | 0 <= i < |prior| ensures prior[i] != s[n] {
          RemoveAllMembers(s[..n], x, prior[i]);
        }
      }
    }
  }

  /** `toggleFriend(id)`: every copy of a selected id goes; an unselected id is appended. */
  function Toggle(selected: seq<int>, id: int): (r: seq<int>)
    ensures id in selected ==> r == RemoveAll(selected, id)
    ensures id !in selected ==> r == selected + [id]
  {
    if id in selected then RemoveAll(selected, id) else selected + [id]
  }

  /** Toggling flips the membership of the given id and of no other. */
  lemma ToggleMembership(selected: seq<int>, id: int, y: int)
    ensures y in Toggle(selected, id) <==> if y == id then id !in selected else y in selected
  {
    RemoveAllMembers(selected, id, y);
  }

  /** Toggling keeps the selection free of duplicates. */
  lemma ToggleNoDuplicates(selected: seq<int>, id: int)
    requires NoDuplicates(selected)
    ensures NoDuplicates(Toggle(selected, id))
  {
    if id in selected {
      RemoveAllNoDuplicates(selected, id);
    }
  }

  /** Toggling an unselected id twice gives back exactly the same list. */
  lemma ToggleTwiceAbsent(selected: seq<int>, id: int)
    requires id !in selected
    ensures Toggle(Toggle(selected, id), id) == selected
  {
    var once := selected + [id];
    assert once[..|once| - 1] == selected;
    RemoveAllAbsent(selected, id);
  }

  /**
   * Toggling a selected id twice gives back the same set of ids, but the id
   * moves to the end of the list.
   */
  lemma ToggleTwicePresent(selected: seq<int>, id: int)
    requires id in selected
    ensures Toggle(Toggle(selected, id), id) == RemoveAll(selected, id) + [id]
    ensures forall y :: y in Toggle(Toggle(selected, id), id) <==> y in selected
  {
    forall y ensures y in Toggle(Toggle(selected, id), id) <==> y in selected {
      RemoveAllMembers(selected, id, y);
    }
  }

  // ---------------------------------------------------------------------------
  // Creating the room
  // ---------------------------------------------------------------------------

  /** Why `handleCreateRoom` refused to send a request. */
  datatype CreateError = NameRequired | NoFriendSelected

  function CreateErrorAlert(e: CreateError): string {
    match e
    case NameRequired => "채팅방 이름을 입력하세요"
    case NoFriendSelected => "최소 한 명의 친구를 선택하세요"
  }

  /** The checks before a request: a blank name first, then an empty selection. */
  function CheckCreate(roomName: string, selected: seq<int>): (r: Option<CreateError>)
    ensures r == Some(NameRequired) <==> AllWhiteSpace(roomName)
    ensures r == Some(NoFriendSelected) <==> !AllWhiteSpace(roomName) && selected == []
    ensures r.None? <==> !AllWhiteSpace(roomName) && selected != []
  {
    TrimBlank(roomName);
    if Trim(roomName) == [] then Some(NameRequired)
    else if |selected| == 0 then Some(NoFriendSelected)
    else None
  }

  /**
   * `[...selectedFriends, currentUser.id]`; the stored user may have no id,
   * in which case the list ends with `undefined` (None here).
   */
  function ParticipantIds(selected: seq<int>, currentUserId: Option<int>): (r: seq<Option<int>>)
    ensures |r| == |selected| + 1 && r[|selected|] == currentUserId
    ensures forall k :: 0 <= k < |selected| ==> r[k] == Some(selected[k])
  {
    seq(|selected|, k requires 0 <= k < |selected| => Some(selected[k])) + [currentUserId]
  }

  /** The body of the `/chat/rooms` request. */
  datatype RoomRequest = RoomRequest(name: string, participantIds: seq<Option<int>>)

  const CreateFailedAlert: string := "채팅방 생성에 실패했습니다"

  /** `error.message || '채팅방 생성에 실패했습니다'` */
  function FailureAlert(message: string): (r: string)
    ensures r != ""
    ensures message != "" ==> r == message
  {
    if message != "" then message else CreateFailedAlert
  }

  /** The `disabled` expression of the create button. */
  predicate CreateDisabled(loading: bool, roomName: string, selected: seq<int>, friendsLoading: bool) {
    loading || Trim(roomName) == [] || |selected| == 0 || friendsLoading
  }

  /**
   * The button is enabled exactly when `handleCreateRoom` would get past both
   * checks and nothing is loading.
   */
  lemma EnabledPassesChecks(loading: bool, roomName: string, selected: seq<int>, friendsLoading: bool)
    ensures !CreateDisabled(loading, roomName, selected, friendsLoading) ==> CheckCreate(roomName, selected).None?
    ensures !loading && !friendsLoading && CheckCreate(roomName, selected).None? ==>
      !CreateDisabled(loading, roomName, selected, friendsLoading)
  {
    TrimBlank(roomName);
  }

  /** How `handleCreateRoom` ended; Created stands for the "채팅방이 생성되었습니다!" alert. */
  datatype CreateOutcome =
    | Refused(error: CreateError)
    | Created(request: RoomRequest)
    | RequestFailed(request: RoomRequest, alert: string)

  class RoomForm {
    var roomName: string
    var friends: seq<User>
    var selectedFriends: seq<int>
    var loading: bool
    var friendsLoading: bool

    ghost predicate Valid()
      reads this
    {
      NoDuplicates(selectedFriends)
    }

    constructor ()
      ensures Valid()
      ensures roomName == "" && friends == [] && selectedFriends == [] && !loading && !friendsLoading
    {
      roomName := "";
      friends := [];
      selectedFriends := [];
      loading := false;
      friendsLoading := false;
    }

    /** The name input's `onChange`. */
    method SetRoomName(name: string)
      modifies this
      ensures roomName == name
      ensures friends == old(friends) && selectedFriends == old(selectedFriends)
      ensures loading == old(loading) && friendsLoading == old(friendsLoading)
    {
      roomName := name;
    }

    /** `fetchFriends`: the list is replaced when the request succeeds (Some) and kept otherwise. */
    method FetchFriends(response: Option<seq<User>>)
      modifies this
      ensures !friendsLoading
      ensures friends == if response.Some? then response.value else old(friends)
      ensures roomName == old(roomName) && selectedFriends == old(selectedFriends) && loading == old(loading)
    {
      friendsLoading := true;
      if response.Some? {
        friends := response.value;
      }
      friendsLoading := false;
    }

    /** `toggleFriend(id)` */
    method ToggleFriend(id: int)
      requires Valid()
      modifies this
      ensures Valid()
      ensures selectedFriends == Toggle(old(selectedFriends), id)
      ensures roomName == old(roomName) && friends == old(friends)
      ensures loading == old(loading) && friendsLoading == old(friendsLoading)
    {
      ToggleNoDuplicates(selectedFriends, id);
      selectedFriends := Toggle(selectedFriends, id);
    }

    /**
     * `handleCreateRoom`. `currentUserId` is the id of the stored user and
     * `postError` the outcome of the request (None for success, otherwise the
     * error's message). The request carries the name as typed, untrimmed.
     * Success clears the name and the selection, asks the parent to close the
     * modal (`onOpenChange(false)`) and notifies it (`onRoomCreated`); a
     * refused or failed attempt keeps both fields and does neither.
     */
    method HandleCreateRoom(currentUserId: Option<int>, postError: Option<string>)
      returns (outcome: CreateOutcome, closeRequested: bool, roomCreated: bool)
      requires Valid()
      modifies this
      ensures Valid()
      ensures closeRequested <==> CheckCreate(old(roomName), old(selectedFriends)).None? && postError.None?
      ensures roomCreated <==> closeRequested
      ensures friends == old(friends) && friendsLoading == old(friendsLoading)
      ensures CheckCreate(old(roomName), old(selectedFriends)).Some? ==>
        outcome == Refused(CheckCreate(old(roomName), old(selectedFriends)).value)
        && roomName == old(roomName) && selectedFriends == old(selectedFriends) && loading == old(loading)
      ensures CheckCreate(old(roomName), old(selectedFriends)).None? ==>
        var request := RoomRequest(old(roomName), ParticipantIds(old(selectedFriends), currentUserId));
        !loading
        && (postError.None? ==> outcome == Created(request) && roomName == "" && selectedFriends == [])
        && (postError.Some? ==>
              outcome == RequestFailed(request, FailureAlert(postError.value))
              && roomName == old(roomName) && selectedFriends == old(selectedFriends))
    {
      closeRequested, roomCreated := false, false;
      TrimBlank(roomName);
      if Trim(roomName) == [] {
        outcome := Refused(NameRequired);
        return;
      }
      if |selectedFriends| == 0 {
        outcome := Refused(NoFriendSelected);
        return;
      }
      loading := true;
      var request := RoomRequest(roomName, ParticipantIds(selectedFriends, currentUserId));
      if postError.None? {
        roomName := "";
        selectedFriends := [];
        outcome := Created(request);
        closeRequested, roomCreated := true, true;
      } else {
        outcome := RequestFailed(request, FailureAlert(postError.value));
      }
      loading := false;
    }
  }
}
