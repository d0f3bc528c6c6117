/**
 * The "Start New Chat" dialog: the selection of group members, the guard on
 * creating a group, and the state reset after a chat was created.
 */
module NewChatDialog {
  import opened Options
  import opened Strings

  /** `prev.filter(id => id !== userId)`: every occurrence of `u` removed, the rest kept in order. */
  function Remove(ids: seq<string>, u: string): (r: seq<string>)
    ensures multiset(r) == multiset(ids)[u := 0]
    ensures u !in ids ==> r == ids
  {
    if ids == [] then []
    else
      var rest := Remove(ids[1..], u);
      assert ids == [ids[0]] + ids[1..];
      if ids[0] == u then rest else [ids[0]] + rest
  }

  lemma {:induction false} RemoveAppend(a: seq<string>, b: seq<string>, u: string)
    ensures Remove(a + b, u) == Remove(a, u) + Remove(b, u)
  {
    if a == [] {
      assert a + b == b;
    } else {
      var ab := a + b;
      assert ab[0] == a[0] && ab[1..] == a[1..] + b;
      RemoveAppend(a[1..], b, u);
      if a[0] != u {
        calc {
          Remove(ab, u);
          [a[0]] + Remove(a[1..] + b, u);
          [a[0]] + (Remove(a[1..], u) + Remove(b, u));
          ([a[0]] + Remove(a[1..], u)) + Remove(b, u);
        }
      }
    }
  }

  /** The updater of `handleUserSelect` in group mode: deselect a selected user, append an unselected one. */
  function Toggle(selected: seq<string>, u: string): (r: seq<string>)
    ensures u in r <==> u !in selected
    ensures forall x :: x != u ==> (x in r <==> x in selected)
    ensures u !in selected ==> r[..|r| - 1] == selected && r[|r| - 1] == u
  {
    if u in selected then
      var r := Remove(selected, u);
      assert forall x :: x in r <==> x in multiset(r);
      r
    else selected + [u]
  }

  predicate NoDuplicates(ids: seq<string>) {
    forall i, j :: 0 <= i < j < |ids| ==> ids[i] != ids[j]
  }

  lemma {:induction false} NoDuplicatesCounts(ids: seq<string>)
    ensures NoDuplicates(ids) <==> forall x :: multiset(ids)[x] <= 1
  {
    if ids != [] {
      NoDuplicatesCounts(ids[1..]);
      assert ids == [ids[0]] + ids[1..];
      if NoDuplicates(ids) {
        assert NoDuplicates(ids[1..]) by {
          forall i, j | 0 <= i < j < |ids[1..]| ensures ids[1..][i] != ids[1..][j] {
            assert ids[1..][i] == ids[i + 1] && ids[1..][j] == ids[j + 1];
          }
        }
        assert ids[0] !in ids[1..];
      } else {
        var i, j :| 0 <= i < j < |ids| && ids[i] == ids[j];
        var x := ids[i];
        if i == 0 {
          assert ids[1..][j - 1] == x;
          assert x in multiset(ids[1..]);
          assert multiset(ids)[x] == multiset([ids[0]])[x] + multiset(ids[1..])[x];
        } else {
          assert ids[1..][i - 1] == x && ids[1..][j - 1] == x;
          assert !NoDuplicates(ids[1..]);
          var y :| multiset(ids[1..])[y] > 1;
          assert multiset(ids)[y] == multiset([ids[0]])[y] + multiset(ids[1..])[y];
        }
      }
    }
  }

  /** Toggling keeps a duplicate-free selection duplicate-free. */
  lemma ToggleKeepsNoDuplicates(selected: seq<string>, u: string)
    requires NoDuplicates(selected)
    ensures NoDuplicates(Toggle(selected, u))
  {
    NoDuplicatesCounts(selected);
    NoDuplicatesCounts(Toggle(selected, u));
  }

  /** Selecting an unselected user and then selecting them again restores the selection. */
  lemma ToggleTwiceRestores(selected: seq<string>, u: string)
    requires u !in selected
    ensures Toggle(Toggle(selected, u), u) == selected
  {
    RemoveAppend(selected, [u], u);
    assert Remove([u], u) == [];
  }

  /**
   * Deselecting a selected user and selecting them again keeps the same members, but
   * the user moves to the end of the list.
   */
  lemma ToggleTwiceMovesToEnd(selected: seq<string>, u: string)
    requires NoDuplicates(selected) && u in selected
    ensures Toggle(Toggle(selected, u), u) == Remove(selected, u) + [u]
    ensures multiset(Toggle(Toggle(selected, u), u)) == multiset(selected)
  {
    NoDuplicatesCounts(selected);
    var once := Toggle(selected, u);
    assert u !in once;
    assert multiset(selected)[u] == 1;
  }

  /** A request the dialog sends to the server. */
  datatype Request =
    | CreateDirect(otherUserId: string)              // POST /api/chats/direct
    | CreateGroup(name: string, participantIds: seq<string>)  // POST /api/chats/group

  /** The guard and body of `handleCreateGroup`. */
  function GroupRequest(groupName: string, selected: seq<string>): (r: Option<Request>)
    ensures r.Some? <==> Trim(groupName) != [] && |selected| > 0
    ensures r.Some? ==> r.value == CreateGroup(Trim(groupName), selected)
    ensures r.Some? ==> !IsSpace(r.value.name[0]) && !IsSpace(r.value.name[|r.value.name| - 1])
  {
    if Trim(groupName) != [] && |selected| > 0 then Some(CreateGroup(Trim(groupName), selected)) else None
  }

  /** A group is requested exactly when its name holds a non-space character and someone is selected. */
  lemma BlankGroupNameIsRefused(groupName: string, selected: seq<string>)
    ensures GroupRequest(groupName, selected).Some? <==>
              (exists k :: 0 <= k < |groupName| && !IsSpace(groupName[k])) && selected != []
  {
    TrimEmptyIffBlank(groupName);
  }

  class Dialog {
    var open: bool
    var isGroupChat: bool
    var groupName: string
    var selectedUsers: seq<string>
    /** The mutations started, in order. */
    var requests: seq<Request>
    /** The ids handed to `onChatCreated`, in order. */
    var created: seq<int>

    ghost predicate Valid()
      reads this
    {
      NoDuplicates(selectedUsers)
    }

    constructor ()
      ensures Valid()
      ensures !open && !isGroupChat && groupName == [] && selectedUsers == [] && requests == [] && created == []
    {
      open, isGroupChat, groupName, selectedUsers := false, false, [], [];
      requests, created := [], [];
    }

    /** The Direct Chat / Group Chat buttons. */
    method SetGroupMode(on: bool)
      requires Valid()
      modifies this`isGroupChat
      ensures Valid() && isGroupChat == on
    {
      isGroupChat := on;
    }

    /** Typing in the group name input. */
    method SetGroupName(name: string)
      requires Valid()
      modifies this`groupName
      ensures Valid() && groupName == name
    {
      groupName := name;
    }

    /** `handleUserSelect`: toggle the user in group mode, otherwise ask for a direct chat with them. */
    method HandleUserSelect(u: string)
      requires Valid()
      modifies this`selectedUsers, this`requests
      ensures Valid()
      ensures isGroupChat ==> selectedUsers == Toggle(old(selectedUsers), u) && requests == old(requests)
      ensures !isGroupChat ==> selectedUsers == old(selectedUsers) && requests == old(requests) + [CreateDirect(u)]
    {
      if isGroupChat {
        ToggleKeepsNoDuplicates(selectedUsers, u);
        selectedUsers := Toggle(selectedUsers, u);
      } else {
        requests := requests + [CreateDirect(u)];
      }
    }

    /** `handleCreateGroup`: start the group mutation only for a non-blank name and a non-empty selection. */
    method HandleCreateGroup()
      requires Valid()
      modifies this`requests
      ensures Valid()
      ensures GroupRequest(groupName, selectedUsers).Some? ==> requests == old(requests) + [GroupRequest(groupName, selectedUsers).value]
      ensures GroupRequest(groupName, selectedUsers).None? ==> requests == old(requests)
    {
      var r := GroupRequest(groupName, selectedUsers);
      if r.Some? {
        requests := requests + [r.value];
      }
    }

    /** The direct mutation's `onSuccess`: close the dialog and report the chat. */
    method OnDirectCreated(chatId: int)
      requires Valid()
      modifies this`open, this`created
      ensures Valid() && !open && created == old(created) + [chatId]
    {
      open := false;
      created := created + [chatId];
    }

    /** The group mutation's `onSuccess`: close and reset the dialog, then report the chat. */
    method OnGroupCreated(chatId: int)
      requires Valid()
      modifies this`open, this`groupName, this`selectedUsers, this`isGroupChat, this`created
      ensures Valid()
      ensures !open && groupName == [] && selectedUsers == [] && !isGroupChat
      ensures created == old(created) + [chatId]
    {
      open := false;
      groupName := [];
      selectedUsers := [];
      isGroupChat := false;
      created := created + [chatId];
    }
  }
}
