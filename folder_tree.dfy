/**
 * Placing a request item into the folder tree: the specification of the
 * walk `assignToNestedFolder` performs, and what it guarantees.
 *
 * The walk takes one folder name per level. At each level it reuses the
 * first child, folder or request item alike, whose name is that folder
 * name, and otherwise appends a new folder; only a folder created at the
 * first level carries the policy's auth block. At the end the item is
 * appended to the children of the node reached.
 */
module FolderTree {
  import opened Wrappers
  import opened Values
  import opened Document
  import opened Sequences

  // ---------------------------------------------------------------------
  // The sibling match
  // ---------------------------------------------------------------------

  /** The position of the first child named n. */
  function FirstNamed(list: seq<Entry>, n: string): (r: Option<nat>)
    ensures r.Some? ==> r.value < |list| && Name(list[r.value]) == n
    ensures r.Some? ==> forall k :: 0 <= k < r.value ==> Name(list[k]) != n
    ensures r.None? ==> forall k :: 0 <= k < |list| ==> Name(list[k]) != n
    decreases |list|
  {
    if list == [] then None
    else if Name(list[0]) == n then Some(0)
    else
      match FirstNamed(list[1..], n)
      case Some(j) => Some(j + 1)
      case None => None
  }

  /** Replacing a child by one of the same name leaves every sibling match as it was. */
  lemma {:induction false} FirstNamedAfterRename(list: seq<Entry>, j: nat, e: Entry, n: string)
    requires j < |list| && Name(e) == Name(list[j])
    ensures FirstNamed(list[j := e], n) == FirstNamed(list, n)
    decreases |list|
  {
    var list' := list[j := e];
    assert Name(list'[0]) == Name(list[0]);
    if Name(list[0]) != n {
      if j > 0 {
        assert list'[1..] == list[1..][j - 1 := e];
        FirstNamedAfterRename(list[1..], j - 1, e, n);
      } else {
        assert list'[1..] == list[1..];
      }
    }
  }

  /** Appending a child named n to children none of which is named n makes it the match. */
  lemma {:induction false} FirstNamedAfterAppend(list: seq<Entry>, e: Entry)
    requires FirstNamed(list, Name(e)).None?
    ensures FirstNamed(list + [e], Name(e)) == Some(|list|)
    decreases |list|
  {
    if list == [] {
      assert list + [e] == [e];
    } else {
      assert (list + [e])[0] == list[0];
      assert (list + [e])[1..] == list[1..] + [e];
      FirstNamedAfterAppend(list[1..], e);
    }
  }

  // ---------------------------------------------------------------------
  // The walk, as a function
  // ---------------------------------------------------------------------

  /** The children of `list` after appending `item` under the folder path
      `names`. `auth` is the auth block of a folder created at this level;
      every deeper level gets none. */
  function Assign(list: seq<Entry>, names: seq<string>, item: RouteItem, auth: Option<Object>): seq<Entry>
    decreases |names|
  {
    if names == [] then
      list + [Leaf(item, [])]
    else
      match FirstNamed(list, names[0])
      case Some(j) => list[j := list[j].(items := Assign(list[j].items, names[1..], item, None))]
      case None => list + [Folder(names[0], auth, Assign([], names[1..], item, None))]
  }

  /** Following the folder path from `list`: the children of the node reached,
      or None when some level has no child of that name. */
  function Descend(list: seq<Entry>, names: seq<string>): Option<seq<Entry>>
    decreases |names|
  {
    if names == [] then Some(list)
    else
      match FirstNamed(list, names[0])
      case Some(j) => Descend(list[j].items, names[1..])
      case None => None
  }

  function DescendOrEmpty(list: seq<Entry>, names: seq<string>): seq<Entry> {
    Descend(list, names).GetOr([])
  }

  /** The number of levels the walk creates: none while a child of the name
      exists, and every remaining level from the first one that has none. */
  function Missing(list: seq<Entry>, names: seq<string>): (m: nat)
    ensures m <= |names|
    ensures Descend(list, names).Some? <==> m == 0
    decreases |names|
  {
    if names == [] then 0
    else
      match FirstNamed(list, names[0])
      case Some(j) => Missing(list[j].items, names[1..])
      case None => |names|
  }

  // ---------------------------------------------------------------------
  // Measures of a tree
  // ---------------------------------------------------------------------

  function Own(e: Entry): seq<RouteItem> {
    if e.Leaf? then [e.item] else []
  }

  /** Every request item of the tree, in document order (an item before the
      entries nested under it, then its later siblings). */
  function Leaves(list: seq<Entry>): seq<RouteItem>
    decreases list
  {
    if list == [] then [] else Own(list[0]) + Leaves(list[0].items) + Leaves(list[1..])
  }

  /** The number of entries of the tree, at every depth. */
  function Size(list: seq<Entry>): nat
    decreases list
  {
    if list == [] then 0 else 1 + Size(list[0].items) + Size(list[1..])
  }

  /** The number of folders that carry an auth block, at every depth. */
  function AuthCount(list: seq<Entry>): nat
    decreases list
  {
    if list == [] then 0
    else
      (if list[0].Folder? && list[0].auth.Some? then 1 else 0)
      + AuthCount(list[0].items) + AuthCount(list[1..])
  }

  /** No folder shares its name with an earlier sibling, at every depth. Every
      folder is thus the one the sibling match finds, and sibling folders have
      distinct names. */
  predicate WellFormed(list: seq<Entry>)
    decreases list
  {
    && (forall i, k :: 0 <= k < i < |list| && list[i].Folder? ==> Name(list[k]) != list[i].name)
    && (forall i :: 0 <= i < |list| ==> WellFormed(list[i].items))
  }

  lemma {:induction false} LeavesConcat(a: seq<Entry>, b: seq<Entry>)
    ensures Leaves(a + b) == Leaves(a) + Leaves(b)
    decreases |a|
  {
    if a != [] {
      assert (a + b)[0] == a[0];
      assert (a + b)[1..] == a[1..] + b;
      LeavesConcat(a[1..], b);
    } else {
      assert a + b == b;
    }
  }

  lemma {:induction false} SizeConcat(a: seq<Entry>, b: seq<Entry>)
    ensures Size(a + b) == Size(a) + Size(b)
    decreases |a|
  {
    if a != [] {
      assert (a + b)[0] == a[0];
      assert (a + b)[1..] == a[1..] + b;
      SizeConcat(a[1..], b);
    } else {
      assert a + b == b;
    }
  }

  lemma {:induction false} AuthCountConcat(a: seq<Entry>, b: seq<Entry>)
    ensures AuthCount(a + b) == AuthCount(a) + AuthCount(b)
    decreases |a|
  {
    if a != [] {
      assert (a + b)[0] == a[0];
      assert (a + b)[1..] == a[1..] + b;
      AuthCountConcat(a[1..], b);
    } else {
      assert a + b == b;
    }
  }

  /** A list split around its j-th child. */
  lemma Around(list: seq<Entry>, j: nat, e: Entry)
    requires j < |list|
    ensures list == list[..j] + [list[j]] + list[j + 1..]
    ensures list[j := e] == list[..j] + [e] + list[j + 1..]
  {
  }

  lemma OneEntry(e: Entry)
    ensures Leaves([e]) == Own(e) + Leaves(e.items)
    ensures Size([e]) == 1 + Size(e.items)
    ensures AuthCount([e]) == (if e.Folder? && e.auth.Some? then 1 else 0) + AuthCount(e.items)
  {
    assert [e][1..] == [];
  }

  /** The request items of a list with a distinguished child. */
  lemma LeavesAround(a: seq<Entry>, e: Entry, c: seq<Entry>)
    ensures Leaves(a + [e] + c) == Leaves(a) + Own(e) + Leaves(e.items) + Leaves(c)
  {
    calc {
      Leaves(a + [e] + c);
      { LeavesConcat(a + [e], c); }
      Leaves(a + [e]) + Leaves(c);
      { LeavesConcat(a, [e]); }
      Leaves(a) + Leaves([e]) + Leaves(c);
      { OneEntry(e); }
      Leaves(a) + (Own(e) + Leaves(e.items)) + Leaves(c);
      { Associative(Leaves(a), Own(e), Leaves(e.items)); }
      Leaves(a) + Own(e) + Leaves(e.items) + Leaves(c);
    }
  }


  // ---------------------------------------------------------------------
  // What the walk guarantees
  // ---------------------------------------------------------------------

  /** `ins` is `before` with x inserted at one position. */
  ghost predicate InsertedOnce(before: seq<RouteItem>, after: seq<RouteItem>, x: RouteItem) {
    exists k :: 0 <= k <= |before| && after == before[..k] + [x] + before[k..]
  }

  lemma InsertedAtEnd(before: seq<RouteItem>, x: RouteItem)
    ensures InsertedOnce(before, before + [x], x)
  {
    assert before + [x] == before[..|before|] + [x] + before[|before|..];
  }

  /** An insertion inside a part of a list is an insertion into the whole list. */
  lemma InsertedInContext(a: seq<RouteItem>, l: seq<RouteItem>, l': seq<RouteItem>, c: seq<RouteItem>, x: RouteItem)
    requires InsertedOnce(l, l', x)
    ensures InsertedOnce(a + l + c, a + l' + c, x)
  {
    var k' :| 0 <= k' <= |l| && l' == l[..k'] + [x] + l[k'..];
    var before := a + l + c;
    var k := |a| + k';
    assert before[..k] == a + l[..k'];
    assert before[k..] == l[k'..] + c;
    assert a + l' + c == before[..k] + [x] + before[k..];
  }

  /** The insertion adds exactly one request item, the new one, and keeps
      every earlier item in its relative order. */
  lemma {:induction false} AssignAddsOneLeaf(list: seq<Entry>, names: seq<string>, item: RouteItem, auth: Option<Object>)
    ensures InsertedOnce(Leaves(list), Leaves(Assign(list, names, item, auth)), item)
    decreases |names|
  {
    if names == [] {
      LeavesConcat(list, [Leaf(item, [])]);
      OneEntry(Leaf(item, []));
      InsertedAtEnd(Leaves(list), item);
    } else {
      match FirstNamed(list, names[0])
      case Some(j) =>
        var e := list[j];
        var e' := e.(items := Assign(e.items, names[1..], item, None));
        AssignAddsOneLeaf(e.items, names[1..], item, None);
        Around(list, j, e');
        LeavesAround(list[..j], e, list[j + 1..]);
        LeavesAround(list[..j], e', list[j + 1..]);
        assert Own(e') == Own(e);
        InsertedInContext(Leaves(list[..j]) + Own(e), Leaves(e.items), Leaves(e'.items), Leaves(list[j + 1..]), item);
      case None =>
        var f := Folder(names[0], auth, Assign([], names[1..], item, None));
        AssignAddsOneLeaf([], names[1..], item, None);
        LeavesConcat(list, [f]);
        OneEntry(f);
        assert Leaves(f.items) == [item];
        InsertedAtEnd(Leaves(list), item);
    }
  }

  /** Following the folder path after the insertion reaches the children the
      path already led to (none when it was incomplete), now ending with the
      new item: no level is duplicated, and the item is the last child of
      the final folder. */
  lemma {:induction false} AssignThenDescend(list: seq<Entry>, names: seq<string>, item: RouteItem, auth: Option<Object>)
    ensures Descend(Assign(list, names, item, auth), names) == Some(DescendOrEmpty(list, names) + [Leaf(item, [])])
    decreases |names|
  {
    if names != [] {
      match FirstNamed(list, names[0])
      case Some(j) =>
        var e := list[j];
        var e' := e.(items := Assign(e.items, names[1..], item, None));
        FirstNamedAfterRename(list, j, e', names[0]);
        AssignThenDescend(e.items, names[1..], item, None);
      case None =>
        var f := Folder(names[0], auth, Assign([], names[1..], item, None));
        FirstNamedAfterAppend(list, f);
        assert (list + [f])[|list|] == f;
        AssignThenDescend([], names[1..], item, None);
        assert DescendOrEmpty([], names[1..]) == [] by {
          if names[1..] != [] {
            assert FirstNamed([], names[1..][0]).None?;
          }
        }
    }
  }

  /** Two insertions along the same folder path end in the same folder, the
      second item after the first. */
  lemma SamePathSameFolder(list: seq<Entry>, names: seq<string>, a: RouteItem, b: RouteItem, authA: Option<Object>, authB: Option<Object>)
    ensures Descend(Assign(Assign(list, names, a, authA), names, b, authB), names)
      == Some(DescendOrEmpty(list, names) + [Leaf(a, []), Leaf(b, [])])
  {
    AssignThenDescend(list, names, a, authA);
    AssignThenDescend(Assign(list, names, a, authA), names, b, authB);
    var d := DescendOrEmpty(list, names);
    assert d + [Leaf(a, [])] + [Leaf(b, [])] == d + [Leaf(a, []), Leaf(b, [])];
  }

  /** The insertion adds one entry for the item and one folder per missing
      level, and nothing else. */
  lemma {:induction false} AssignSize(list: seq<Entry>, names: seq<string>, item: RouteItem, auth: Option<Object>)
    ensures Size(Assign(list, names, item, auth)) == Size(list) + 1 + Missing(list, names)
    decreases |names|
  {
    if names == [] {
      SizeConcat(list, [Leaf(item, [])]);
      OneEntry(Leaf(item, []));
    } else {
      match FirstNamed(list, names[0])
      case Some(j) =>
        var e := list[j];
        var e' := e.(items := Assign(e.items, names[1..], item, None));
        AssignSize(e.items, names[1..], item, None);
        Around(list, j, e');
        SizeConcat(list[..j] + [e], list[j + 1..]);
        SizeConcat(list[..j], [e]);
        SizeConcat(list[..j] + [e'], list[j + 1..]);
        SizeConcat(list[..j], [e']);
        OneEntry(e);
        OneEntry(e');
      case None =>
        var f := Folder(names[0], auth, Assign([], names[1..], item, None));
        AssignSize([], names[1..], item, None);
        assert Missing([], names[1..]) == |names[1..]| by {
          if names[1..] != [] {
            assert FirstNamed([], names[1..][0]).None?;
          }
        }
        SizeConcat(list, [f]);
        OneEntry(f);
    }
  }

  /** Only a folder created at the first level receives an auth block, and
      only when there is one to give: a new first-level folder is appended
      with `auth`, a reused first-level entry keeps its own auth, and every
      other first-level entry is untouched. */
  lemma {:induction false} AssignAuth(list: seq<Entry>, names: seq<string>, item: RouteItem, auth: Option<Object>)
    ensures AuthCount(Assign(list, names, item, auth)) == AuthCount(list)
      + (if names != [] && FirstNamed(list, names[0]).None? && auth.Some? then 1 else 0)
    ensures var r := Assign(list, names, item, auth);
      names != [] && FirstNamed(list, names[0]).None? ==>
        |r| == |list| + 1 && r[..|list|] == list
        && r[|list|].Folder? && r[|list|].name == names[0] && r[|list|].auth == auth
    ensures var r := Assign(list, names, item, auth);
      names != [] && FirstNamed(list, names[0]).Some? ==>
        var j := FirstNamed(list, names[0]).value;
        |r| == |list| && (forall k :: 0 <= k < |list| && k != j ==> r[k] == list[k])
        && r[j].Folder? == list[j].Folder? && (list[j].Folder? ==> r[j].name == list[j].name && r[j].auth == list[j].auth)
    decreases |names|
  {
    AssignFirstLevel(list, names, item, auth);
    if names == [] {
      AuthCountConcat(list, [Leaf(item, [])]);
      OneEntry(Leaf(item, []));
    } else {
      match FirstNamed(list, names[0])
      case Some(j) =>
        var e := list[j];
        var e' := e.(items := Assign(e.items, names[1..], item, None));
        AssignAuth(e.items, names[1..], item, None);
        Around(list, j, e');
        AuthCountConcat(list[..j] + [e], list[j + 1..]);
        AuthCountConcat(list[..j], [e]);
        AuthCountConcat(list[..j] + [e'], list[j + 1..]);
        AuthCountConcat(list[..j], [e']);
        OneEntry(e);
        OneEntry(e');
      case None =>
        var f := Folder(names[0], auth, Assign([], names[1..], item, None));
        AssignAuth([], names[1..], item, None);
        AuthCountConcat(list, [f]);
        OneEntry(f);
    }
  }

  /** What the insertion does at the first level: append a new folder with
      `auth`, or replace the reused entry by one with the same name and auth. */
  lemma AssignFirstLevel(list: seq<Entry>, names: seq<string>, item: RouteItem, auth: Option<Object>)
    ensures var r := Assign(list, names, item, auth);
      names != [] && FirstNamed(list, names[0]).None? ==>
        |r| == |list| + 1 && r[..|list|] == list
        && r[|list|].Folder? && r[|list|].name == names[0] && r[|list|].auth == auth
    ensures var r := Assign(list, names, item, auth);
      names != [] && FirstNamed(list, names[0]).Some? ==>
        var j := FirstNamed(list, names[0]).value;
        |r| == |list| && (forall k :: 0 <= k < |list| && k != j ==> r[k] == list[k])
        && r[j].Folder? == list[j].Folder? && (list[j].Folder? ==> r[j].name == list[j].name && r[j].auth == list[j].auth)
  {
    if names != [] {
      match FirstNamed(list, names[0])
      case Some(j) =>
        var inner := Assign(list[j].items, names[1..], item, None);
        WithItems(list[j], inner);
      case None =>
        var f := Folder(names[0], auth, Assign([], names[1..], item, None));
        assert (list + [f])[..|list|] == list;
    }
  }

  /** The insertion keeps sibling folder names distinct at every depth. */
  lemma {:induction false} AssignKeepsWellFormed(list: seq<Entry>, names: seq<string>, item: RouteItem, auth: Option<Object>)
    requires WellFormed(list)
    ensures WellFormed(Assign(list, names, item, auth))
    decreases |names|
  {
    var r := Assign(list, names, item, auth);
    if names == [] {
      assert r == list + [Leaf(item, [])];
      assert WellFormed(r[|list|].items);
    } else {
      match FirstNamed(list, names[0])
      case Some(j) =>
        var e := list[j];
        AssignKeepsWellFormed(e.items, names[1..], item, None);
        assert forall i :: 0 <= i < |r| ==> Name(r[i]) == Name(list[i]) && r[i].Folder? == list[i].Folder?;
        assert forall i :: 0 <= i < |r| && i != j ==> r[i] == list[i];
      case None =>
        AssignKeepsWellFormed([], names[1..], item, None);
        assert r == list + [Folder(names[0], auth, Assign([], names[1..], item, None))];
        assert forall i :: 0 <= i < |list| ==> r[i] == list[i];
    }
  }

  // ---------------------------------------------------------------------
  // The walk through a reference, as a path of frames
  // ---------------------------------------------------------------------

  /** One level of the path the walk has descended: the children before the
      node it entered, that node, and the children after it. */
  datatype Frame = Frame(before: seq<Entry>, node: Entry, after: seq<Entry>)

  /** Writing the children of the innermost node back through every level of
      the path: what updating through the PHP reference amounts to. */
  function Plug(path: seq<Frame>, inner: seq<Entry>): seq<Entry>
    decreases |path|
  {
    if path == [] then inner
    else
      var f := path[|path| - 1];
      Plug(path[..|path| - 1], f.before + [f.node.(items := inner)] + f.after)
  }

  /** Descending one more level adds one frame at the inside of the path. */
  lemma PlugStep(path: seq<Frame>, f: Frame, inner: seq<Entry>)
    ensures Plug(path + [f], inner) == Plug(path, f.before + [f.node.(items := inner)] + f.after)
  {
    assert (path + [f])[..|path|] == path;
  }

  /** Inserting into an existing child, seen from the level above. */
  lemma AssignIntoChild(list: seq<Entry>, names: seq<string>, item: RouteItem, auth: Option<Object>, j: nat)
    requires names != [] && FirstNamed(list, names[0]) == Some(j)
    ensures j < |list| && Assign(list, names, item, auth)
      == list[..j] + [list[j].(items := Assign(list[j].items, names[1..], item, None))] + list[j + 1..]
  {
    Around(list, j, list[j].(items := Assign(list[j].items, names[1..], item, None)));
  }

  /** Inserting below a new folder, seen from the level above. */
  lemma AssignIntoNewFolder(list: seq<Entry>, names: seq<string>, item: RouteItem, auth: Option<Object>)
    requires names != [] && FirstNamed(list, names[0]).None?
    ensures Assign(list, names, item, auth) == list + [Folder(names[0], auth, Assign([], names[1..], item, None))] + []
  {
  }

  /** Replacing the children of an entry keeps its kind and its own fields. */
  lemma WithItems(e: Entry, inner: seq<Entry>)
    ensures e.(items := inner) == if e.Folder? then Folder(e.name, e.auth, inner) else Leaf(e.item, inner)
  {
  }

  /** The sibling match, characterised by the position it finds. */
  lemma FirstNamedAt(list: seq<Entry>, n: string, j: nat)
    requires j <= |list|
    requires forall k :: 0 <= k < j ==> Name(list[k]) != n
    requires j < |list| ==> Name(list[j]) == n
    ensures FirstNamed(list, n) == if j < |list| then Some(j) else None
  {
  }

  /** One step of the walk into an existing child: the frame it pushes keeps
      the result of the whole walk unchanged. */
  lemma DescendIntoChild(path: seq<Frame>, list: seq<Entry>, names: seq<string>, item: RouteItem, auth: Option<Object>, j: nat)
    requires names != [] && FirstNamed(list, names[0]) == Some(j)
    ensures j < |list|
    ensures Plug(path + [Frame(list[..j], list[j], list[j + 1..])], Assign(list[j].items, names[1..], item, None))
      == Plug(path, Assign(list, names, item, auth))
  {
    AssignIntoChild(list, names, item, auth, j);
    PlugStep(path, Frame(list[..j], list[j], list[j + 1..]), Assign(list[j].items, names[1..], item, None));
  }

  /** One step of the walk into a new folder appended to the current level. */
  lemma DescendIntoNewFolder(path: seq<Frame>, list: seq<Entry>, names: seq<string>, item: RouteItem, auth: Option<Object>)
    requires names != [] && FirstNamed(list, names[0]).None?
    ensures Plug(path + [Frame(list, Folder(names[0], auth, []), [])], Assign([], names[1..], item, None))
      == Plug(path, Assign(list, names, item, auth))
  {
    AssignIntoNewFolder(list, names, item, auth);
    PlugStep(path, Frame(list, Folder(names[0], auth, []), []), Assign([], names[1..], item, None));
    WithItems(Folder(names[0], auth, []), Assign([], names[1..], item, None));
  }

  /** Each placement adds one item to the multiset of items in the tree. */
  lemma InsertedOnceMultiset(before: seq<RouteItem>, after: seq<RouteItem>, x: RouteItem)
    requires InsertedOnce(before, after, x)
    ensures multiset(after) == multiset(before) + multiset{x}
  {
    var k :| 0 <= k <= |before| && after == before[..k] + [x] + before[k..];
    assert before == before[..k] + before[k..];
  }
}
