/** The side menu: its default entries, drag-and-drop reordering of the
    entries and the user name shown at its foot. */
module Sidebar {
  import opened Common
  import opened Session

  datatype MenuItem = MenuItem(path: string, caption: string, icon: string, completed: bool, description: string)

  /** Where the cursor is over the target entry: its upper or lower half. */
  datatype Position = Above | Below

  /** The menu when none has been saved. */
  const DefaultMenu: seq<MenuItem> := [
    MenuItem("/", "Dashboard", "\U{1F4CA}", true, "Overview and analytics"),
    MenuItem("/add-record", "Add Record", "\U{2795}", false, "Create new maintenance record"),
    MenuItem("/view-records", "View Records", "\U{1F4CB}", true, "Browse all records")
  ]

  /** The saved menu when there is one, else the default menu. */
  function InitialMenu(saved: Option<seq<MenuItem>>): (r: seq<MenuItem>)
    ensures saved.Some? ==> r == saved.value
    ensures saved.None? ==> |r| == 3 && r[0].caption == "Dashboard" && r[1].caption == "Add Record"
                            && r[2].caption == "View Records"
    ensures saved.None? ==> r[0].path == "/" && r[1].path == "/add-record" && r[2].path == "/view-records"
  {
    if saved.Some? then saved.value else DefaultMenu
  }

  /** `items.findIndex(item => item.path === path)`: the first entry with that
      path, or -1. */
  function IndexOfPath(items: seq<MenuItem>, path: string): (r: int)
    ensures -1 <= r < |items|
    ensures r >= 0 ==> items[r].path == path && forall j :: 0 <= j < r ==> items[j].path != path
    ensures r == -1 ==> forall j :: 0 <= j < |items| ==> items[j].path != path
  {
    if items == [] then -1
    else if items[0].path == path then 0
    else
      var k := IndexOfPath(items[1..], path);
      if k == -1 then -1 else k + 1
  }

  /** The insertion index before clamping: the target's index, moved by one
      when the cursor position calls for it. */
  function AdjustedIndex(dragged: int, target: int, pos: Option<Position>): int
  {
    if pos == Some(Below) && dragged < target then target
    else if pos == Some(Below) && dragged > target then target + 1
    else if pos == Some(Above) && dragged > target then target
    else if pos == Some(Above) && dragged < target then target - 1
    else target
  }

  /** `Math.max(0, Math.min(n, len))`. */
  function Clamp(n: int, len: nat): (r: int)
    ensures 0 <= r <= len
    ensures 0 <= n <= len ==> r == n
    ensures n < 0 ==> r == 0
    ensures n > len ==> r == len
  {
    if n < 0 then 0 else if n > len then len else n
  }

  /** `splice(i, 1)`: the list without its entry `i`. */
  function Without<T>(s: seq<T>, i: int): (r: seq<T>)
    requires 0 <= i < |s|
    ensures |r| == |s| - 1
    ensures forall j {:trigger r[j]} :: 0 <= j < i ==> r[j] == s[j]
    ensures forall j {:trigger r[j]} :: i <= j < |r| ==> r[j] == s[j + 1]
  {
    s[..i] + s[i + 1..]
  }

  /** `splice(i, 0, x)`: `x` inserted before entry `i`, or at the end when
      `i` is past it. */
  function InsertAt<T>(s: seq<T>, i: nat, x: T): (r: seq<T>)
    ensures |r| == |s| + 1
    ensures i <= |s| ==> r[i] == x
    ensures i <= |s| ==> forall j {:trigger r[j]} :: 0 <= j < i ==> r[j] == s[j]
    ensures i <= |s| ==> forall j {:trigger r[j]} :: i < j < |r| ==> r[j] == s[j - 1]
    ensures i > |s| ==> r == s + [x]
  {
    var k := if i <= |s| then i else |s|;
    s[..k] + [x] + s[k..]
  }

  /** The entry at `dragged` taken out and put back at the adjusted, clamped
      index. */
  function Moved(items: seq<MenuItem>, dragged: int, target: int, pos: Option<Position>): seq<MenuItem>
    requires 0 <= dragged < |items| && 0 <= target < |items|
  {
    InsertAt(Without(items, dragged), Clamp(AdjustedIndex(dragged, target, pos), |items|), items[dragged])
  }

  /** A drag is in progress when `draggingId` is a non-empty path. */
  predicate IsDragging(draggingId: Option<string>)
  {
    draggingId.Some? && draggingId.value != ""
  }

  /** The menu after `handleDrop(dropPath)`. */
  function Dropped(items: seq<MenuItem>, draggingId: Option<string>, dropPath: string, pos: Option<Position>): seq<MenuItem>
  {
    if !IsDragging(draggingId) || draggingId.value == dropPath then items
    else
      var d := IndexOfPath(items, draggingId.value);
      var t := IndexOfPath(items, dropPath);
      if d == -1 || t == -1 then items else Moved(items, d, t, pos)
  }

  // ---------------------------------------------------------------------------
  // Properties of a drop

  /** The clamp never bites: the adjusted index already lies within the list
      the dragged entry has been taken out of. */
  lemma AdjustedIndexInRange(n: nat, dragged: int, target: int, pos: Option<Position>)
    requires 0 <= dragged < n && 0 <= target < n && dragged != target
    ensures 0 <= AdjustedIndex(dragged, target, pos) <= n - 1
    ensures Clamp(AdjustedIndex(dragged, target, pos), n) == AdjustedIndex(dragged, target, pos)
  {
  }

  /** A drop that does not move anything: no drag in progress, an entry
      dropped on itself, or a path that is not in the menu. */
  lemma DropWithoutMove(items: seq<MenuItem>, draggingId: Option<string>, dropPath: string, pos: Option<Position>)
    requires !IsDragging(draggingId) || draggingId.value == dropPath
             || IndexOfPath(items, draggingId.value) == -1 || IndexOfPath(items, dropPath) == -1
    ensures Dropped(items, draggingId, dropPath, pos) == items
  {
  }

  /** Otherwise the drop moves the first entry with the dragged path relative
      to the first entry with the drop path, and the two are different. */
  lemma DropMoves(items: seq<MenuItem>, draggingId: Option<string>, dropPath: string, pos: Option<Position>)
    requires IsDragging(draggingId) && draggingId.value != dropPath
    requires IndexOfPath(items, draggingId.value) != -1 && IndexOfPath(items, dropPath) != -1
    ensures var d := IndexOfPath(items, draggingId.value);
            var t := IndexOfPath(items, dropPath);
            d != t && items[d].path == draggingId.value && items[t].path == dropPath
            && Dropped(items, draggingId, dropPath, pos) == Moved(items, d, t, pos)
  {
  }

  /** Moving an entry keeps the same entries, each as often as before. */
  lemma MovedIsPermutation(items: seq<MenuItem>, dragged: int, target: int, pos: Option<Position>)
    requires 0 <= dragged < |items| && 0 <= target < |items| && dragged != target
    ensures |Moved(items, dragged, target, pos)| == |items|
    ensures multiset(Moved(items, dragged, target, pos)) == multiset(items)
  {
    var x := items[dragged];
    var rest := Without(items, dragged);
    var k := AdjustedIndex(dragged, target, pos);
    AdjustedIndexInRange(|items|, dragged, target, pos);
    assert items == items[..dragged] + [x] + items[dragged + 1..];
    assert rest == items[..dragged] + items[dragged + 1..];
    assert Moved(items, dragged, target, pos) == rest[..k] + [x] + rest[k..];
    assert rest == rest[..k] + rest[k..];
    calc {
      multiset(Moved(items, dragged, target, pos));
      multiset(rest[..k]) + multiset{x} + multiset(rest[k..]);
      multiset(rest) + multiset{x};
      multiset(items[..dragged]) + multiset(items[dragged + 1..]) + multiset{x};
      multiset(items);
    }
  }

  /** The moved entry sits at the adjusted index. */
  lemma MovedLandsAt(items: seq<MenuItem>, dragged: int, target: int, pos: Option<Position>)
    requires 0 <= dragged < |items| && 0 <= target < |items| && dragged != target
    ensures 0 <= AdjustedIndex(dragged, target, pos) < |items|
    ensures Moved(items, dragged, target, pos)[AdjustedIndex(dragged, target, pos)] == items[dragged]
  {
    AdjustedIndexInRange(|items|, dragged, target, pos);
  }

  /** Dropped on the lower half, the entry ends immediately after the target. */
  lemma DropBelowFollowsTarget(items: seq<MenuItem>, dragged: int, target: int)
    requires 0 <= dragged < |items| && 0 <= target < |items| && dragged != target
    ensures var r := Moved(items, dragged, target, Some(Below));
            var k := AdjustedIndex(dragged, target, Some(Below));
            1 <= k < |r| && r[k] == items[dragged] && r[k - 1] == items[target]
  {
    MovedLandsAt(items, dragged, target, Some(Below));
  }

  /** Dropped on the upper half, the entry ends immediately before the target. */
  lemma DropAbovePrecedesTarget(items: seq<MenuItem>, dragged: int, target: int)
    requires 0 <= dragged < |items| && 0 <= target < |items| && dragged != target
    ensures var r := Moved(items, dragged, target, Some(Above));
            var k := AdjustedIndex(dragged, target, Some(Above));
            0 <= k < |r| - 1 && r[k] == items[dragged] && r[k + 1] == items[target]
  {
    MovedLandsAt(items, dragged, target, Some(Above));
  }

  /** With no position recorded, the entry takes the target's old index. */
  lemma DropWithoutPositionTakesTargetIndex(items: seq<MenuItem>, dragged: int, target: int)
    requires 0 <= dragged < |items| && 0 <= target < |items| && dragged != target
    ensures Moved(items, dragged, target, None)[target] == items[dragged]
  {
    MovedLandsAt(items, dragged, target, None);
  }

  /** Taking the moved entry out of the new menu gives the old menu without
      it: every other entry keeps its relative order. */
  lemma MovedKeepsOthersInOrder(items: seq<MenuItem>, dragged: int, target: int, pos: Option<Position>)
    requires 0 <= dragged < |items| && 0 <= target < |items| && dragged != target
    ensures 0 <= AdjustedIndex(dragged, target, pos) < |items|
    ensures Without(Moved(items, dragged, target, pos), AdjustedIndex(dragged, target, pos)) == Without(items, dragged)
  {
    AdjustedIndexInRange(|items|, dragged, target, pos);
  }

  /** The default menu's paths are distinct, so every entry of it can be
      dragged and dropped. */
  lemma DefaultMenuPathsDistinct()
    ensures forall i, j :: 0 <= i < j < |DefaultMenu| ==> DefaultMenu[i].path != DefaultMenu[j].path
  {
  }

  /** Dragging "View Records" onto the upper half of "Dashboard" puts it first. */
  lemma DropExample()
    ensures var r := Dropped(DefaultMenu, Some("/view-records"), "/", Some(Above));
            |r| == 3 && r[0].caption == "View Records" && r[1].caption == "Dashboard" && r[2].caption == "Add Record"
  {
    assert IndexOfPath(DefaultMenu, "/view-records") == 2;
    assert IndexOfPath(DefaultMenu, "/") == 0;
  }

  // ---------------------------------------------------------------------------
  // The name shown in the sidebar

  /** `userEmail.split('@')[0]` with the stored email or "User". */
  function EmailName(store: Store): (r: string)
    ensures '@' !in r
    ensures GetItem(store, EmailKey).None? || GetItem(store, EmailKey) == Some("") ==> r == "User"
  {
    LemmaUserName();
    LocalPart(StoredEmailOr(store, "User"))
  }

  lemma LemmaUserName()
    ensures LocalPart("User") == "User"
  {
    LocalPartExample();
  }

  /** `profile.name || userEmail.split('@')[0]`. */
  function ProfileName(p: StoredProfile, store: Store): (r: string)
    ensures p.name != "" ==> r == p.name
    ensures p.name == "" ==> r == EmailName(store)
  {
    OrElse(Some(p.name), EmailName(store))
  }

  class SidebarState {
    var menuItems: seq<MenuItem>
    var draggingId: Option<string>
    var dragOverId: Option<string>
    var dropPosition: Option<Position>
    var userProfile: Option<StoredProfile>
    var userName: string

    /** No drag state is left over. */
    predicate Idle()
      reads this
    {
      draggingId.None? && dragOverId.None? && dropPosition.None?
    }

    /** `userName.charAt(0).toUpperCase()`. */
    function UserInitial(): (r: string)
      reads this
      ensures userName != "" ==> r == [UpperChar(userName[0])]
    {
      Initial(userName)
    }

    /** The state on first render: the saved or default menu, and a name
        taken from the stored email alone. */
    constructor(store: Store, savedMenu: Option<seq<MenuItem>>)
      ensures menuItems == InitialMenu(savedMenu)
      ensures Idle()
      ensures userProfile == (if store.profile.Parsed? then Some(store.profile.profile) else None)
      ensures userName == EmailName(store)
    {
      menuItems := InitialMenu(savedMenu);
      draggingId := None;
      dragOverId := None;
      dropPosition := None;
      userProfile := if store.profile.Parsed? then Some(store.profile.profile) else None;
      userName := EmailName(store);
    }

    /** `updateUserProfile`. A stored profile that does not parse makes
        `JSON.parse` throw before anything is set. */
    method UpdateUserProfile(store: Store)
      modifies this`userProfile, this`userName
      ensures store.profile.Parsed? ==> userProfile == Some(store.profile.profile)
                                        && userName == ProfileName(store.profile.profile, store)
      ensures store.profile.Absent? ==> userProfile.None? && userName == EmailName(store)
      ensures store.profile.Malformed? ==> userProfile == old(userProfile) && userName == old(userName)
    {
      match store.profile {
        case Parsed(p) =>
          userProfile := Some(p);
          userName := ProfileName(p, store);
        case Absent =>
          userProfile := None;
          userName := EmailName(store);
        case Malformed =>
      }
    }

    method DragStart(path: string)
      modifies this`draggingId, this`dropPosition
      ensures draggingId == Some(path) && dropPosition.None?
    {
      draggingId := Some(path);
      dropPosition := None;
    }

    /** `handleDragOver`: the cursor is over `path`, in half `pos` of it. */
    method DragOver(path: string, pos: Position)
      modifies this`dragOverId, this`dropPosition
      ensures !IsDragging(draggingId) || draggingId.value == path ==> dragOverId.None? && dropPosition.None?
      ensures IsDragging(draggingId) && draggingId.value != path ==> dragOverId == Some(path) && dropPosition == Some(pos)
    {
      if !IsDragging(draggingId) || draggingId.value == path {
        dragOverId := None;
        dropPosition := None;
      } else {
        dragOverId := Some(path);
        dropPosition := Some(pos);
      }
    }

    /** `handleDragLeave`: only leaving the whole draggable area clears the
        target. */
    method DragLeave(leftArea: bool)
      modifies this`dragOverId, this`dropPosition
      ensures leftArea ==> dragOverId.None? && dropPosition.None?
      ensures !leftArea ==> dragOverId == old(dragOverId) && dropPosition == old(dropPosition)
    {
      if leftArea {
        dragOverId := None;
        dropPosition := None;
      }
    }

    method ResetDragState()
      modifies this`draggingId, this`dragOverId, this`dropPosition
      ensures Idle()
    {
      draggingId := None;
      dragOverId := None;
      dropPosition := None;
    }

    /** `handleDrop(dropPath)`: the menu is reordered (or left alone) and the
        drag state is cleared in every case. */
    method HandleDrop(dropPath: string)
      modifies this`menuItems, this`draggingId, this`dragOverId, this`dropPosition
      ensures menuItems == Dropped(old(menuItems), old(draggingId), dropPath, old(dropPosition))
      ensures Idle()
    {
      if !IsDragging(draggingId) || draggingId.value == dropPath {
        ResetDragState();
        return;
      }
      var draggedIndex := IndexOfPath(menuItems, draggingId.value);
      var dropIndex := IndexOfPath(menuItems, dropPath);
      if draggedIndex == -1 || dropIndex == -1 {
        ResetDragState();
        return;
      }
      var newIndex := Clamp(AdjustedIndex(draggedIndex, dropIndex, dropPosition), |menuItems|);
      var draggedItem := menuItems[draggedIndex];
      var newItems := Without(menuItems, draggedIndex);
      newItems := InsertAt(newItems, newIndex, draggedItem);
      menuItems := newItems;
      ResetDragState();
    }

    method DragEnd()
      modifies this`draggingId, this`dragOverId, this`dropPosition
      ensures Idle()
    {
      ResetDragState();
    }
  }

  /** With no profile stored and "tj@example.com" as the stored email, the
      sidebar shows "tj" and the avatar letter "T". */
  lemma SidebarNameExample(store: Store)
    requires store.profile.Absent? && GetItem(store, EmailKey) == Some("tj@example.com")
    ensures EmailName(store) == "tj"
    ensures Initial(EmailName(store)) == "T"
  {
    LocalPartExample();
  }
}
